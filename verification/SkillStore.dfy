/** The install path of `SkillsLoader` (zen_claw/agent/skills.py): directories and journal on disk,
    changed step by step. Every method returns the events it performed, so its effect is a run of the
    crash machine of `SkillInstalls`. */
module SkillStores {
  import opened Options
  import opened SkillInstalls

  /** What an attempted copy leaves: whole files but for the failing ones, of which some were begun. */
  function Attempted(files: Tree, src: Tree, done: set<string>, failing: map<string, Option<string>>): Tree {
    map f | f in files.Keys + (done * src.Keys) && (f in files || f !in failing || failing[f].Some?) ::
      if f !in done || f !in src then files[f]
      else if f !in failing then src[f]
      else if failing[f].Some? then failing[f].value
      else files[f]
  }

  class SkillStore {
    var dirs: map<string, Dir>
    var journal: seq<string>

    ghost function View(proc: Proc): (s: State)
      reads this
      ensures s == State(dirs, journal, proc)
    {
      State(dirs, journal, proc)
    }

    constructor (dirs: map<string, Dir>, journal: seq<string>)
      ensures this.dirs == dirs && this.journal == journal
    {
      this.dirs, this.journal := dirs, journal;
    }

    /** `_journal_recovery`, run at start-up. */
    method Recover() returns (ghost events: seq<Event>)
      modifies this
      ensures journal == [] && dirs == old(dirs) - NamesOf(old(journal))
      ensures OnlyRecovery(events) && Run(old(View(Down)), events) == View(Idle)
    {
      hide Run, CopyStep, RemoveStep, Damage;
      ghost var start := View(Down);
      events := [Start];
      RecoveryStarts(start);
      for i := 0 to |journal|
        invariant journal == old(journal) && dirs == old(dirs) - NamesOf(journal[..i])
        invariant OnlyRecovery(events) && Run(start, events) == View(Recovering(journal[i..]))
      {
        RunSnoc(start, events, RecoverNext);
        assert NamesOf(journal[..i + 1]) == NamesOf(journal[..i]) + {journal[i]};
        assert journal[i..][1..] == journal[i + 1..];
        dirs := dirs - {journal[i]};
        events := events + [RecoverNext];
      }
      assert journal[..|journal|] == journal;
      RunSnoc(start, events, RecoverDone);
      journal := [];
      events := events + [RecoverDone];
    }

    /** `_install_skill_tree`: `failing` are the files whose copy fails, with what was written of them,
        and the two flags say whether making the directory and enabling the skill succeed. */
    method InstallSkillTree(name: string, src: Tree, overwrite: bool, dryRun: bool,
                            failing: map<string, Option<string>>, canMake: bool, canEnable: bool)
      returns (installed: bool, ghost events: seq<Event>)
      modifies this
      ensures Run(old(View(Idle)), events) == View(Idle)
      ensures forall n :: n != name ==> (n in dirs <==> n in old(dirs)) && (n in dirs ==> dirs[n] == old(dirs)[n])
      ensures name in old(dirs) && !overwrite ==> !installed
      ensures (name in old(dirs) && !overwrite) || dryRun ==> dirs == old(dirs) && journal == old(journal)
      ensures installed && !dryRun ==>
        && name in dirs && dirs[name].files == DirAt(old(dirs), name).files + src
        && journal == Without(old(journal) + [name], name)
      ensures !installed && !(name in old(dirs) && !overwrite) && !dryRun ==>
        && journal == old(journal) + [name]
        && (canMake ==> name in dirs && dirs[name].files == Attempted(DirAt(old(dirs), name).files, src, src.Keys, failing))
    {
      hide *;
      ghost var start := View(Idle);
      events := [];
      RunNothing(start);
      if name in dirs && !overwrite { return false, events; }
      if dryRun { return true, events; }
      var d, covers := DirAt(dirs, name), Covers(dirs, name, src);
      journal := journal + [name];
      events := [Install(name, src, overwrite, dryRun)];
      InstallBegins(start, name, src, overwrite);
      MakeDirStep(start, events, View(Journaled(name, src, covers)), canMake);
      events := events + [MakeDir(canMake)];
      if !canMake { return false, events; }
      dirs := dirs[name := d.(mark := Unfinished)];
      var copied;
      copied, events := CopyTree(name, src, failing, covers, start, events);
      EndCopyStep(start, events, View(Copying(name, src, d.files, {}, !copied, covers)));
      events := events + [EndCopy];
      if !copied { return false, events; }
      AttemptedWhole(d.files, src, failing);
      dirs := dirs[name := Dir(dirs[name].files, Installed, d.layers + [src], covers)];
      installed, events := Finish(name, canEnable, start, events);
    }

    /** Enable the skill and take it off the journal. */
    method Finish(name: string, canEnable: bool, ghost start: State, ghost before: seq<Event>)
      returns (ok: bool, ghost events: seq<Event>)
      requires Run(start, before) == View(Enabling(name))
      modifies this`journal
      ensures ok <==> canEnable
      ensures journal == if ok then Without(old(journal), name) else old(journal)
      ensures Run(start, events) == View(Idle)
    {
      RunSnoc(start, before, Enable(canEnable));
      events := before + [Enable(canEnable)];
      if !canEnable { return false, events; }
      RunSnoc(start, events, Unjournal);
      events := events + [Unjournal];
      journal := Without(journal, name);
      return true, events;
    }

    /** `shutil.copytree` into an existing directory: all files are tried, then failures raise. */
    method CopyTree(name: string, src: Tree, failing: map<string, Option<string>>, covers: bool,
                    ghost start: State, ghost before: seq<Event>)
      returns (ok: bool, ghost events: seq<Event>)
      requires name in dirs && dirs[name].mark == Unfinished
      requires Run(start, before) == View(Copying(name, src, dirs[name].files, src.Keys, false, covers))
      modifies this`dirs
      ensures ok <==> src.Keys !! failing.Keys
      ensures dirs == old(dirs)[name := old(dirs)[name].(files := Attempted(old(dirs)[name].files, src, src.Keys, failing))]
      ensures Run(start, events) == View(Copying(name, src, old(dirs)[name].files, {}, !ok, covers))
    {
      hide *;
      events := before;
      var d, todo := dirs[name], src.Keys;
      ok := true;
      AttemptedNothing(d.files, src, failing);
      assert dirs == dirs[name := d];
      while todo != {}
        invariant todo <= src.Keys
        invariant dirs == old(dirs)[name := d.(files := Attempted(d.files, src, src.Keys - todo, failing))]
        invariant ok <==> (src.Keys - todo) !! failing.Keys
        invariant Run(start, events) == View(Copying(name, src, d.files, todo, !ok, covers))
        decreases todo
      {
        var file :| file in todo;
        AttemptedStep(d.files, src, src.Keys - todo, failing, file);
        assert src.Keys - todo + {file} == src.Keys - (todo - {file});
        ghost var now := View(Copying(name, src, d.files, todo, !ok, covers));
        if file in failing {
          if failing[file].Some? {
            JunkStep(start, events, now, file, failing[file].value);
            events := events + [PartialWrite(file, failing[file].value)];
            dirs := dirs[name := dirs[name].(files := dirs[name].files[file := failing[file].value])];
            now := View(now.proc);
          }
          FileStep(start, events, now, file, true);
          events := events + [FailFile(file)];
          ok := false;
        } else {
          FileStep(start, events, now, file, false);
          events := events + [FinishFile(file)];
          dirs := dirs[name := dirs[name].(files := dirs[name].files[file := src[file]])];
        }
        todo := todo - {file};
      }
      assert src.Keys - {} == src.Keys;
    }
  }

  lemma RecoveryStarts(s: State)
    requires s.proc == Down
    ensures Run(s, [Start]) == s.(proc := Recovering(s.journal))
  {
    RunSnoc(s, [], Start);
    assert [] + [Start] == [Start];
  }

  lemma AttemptedNothing(files: Tree, src: Tree, failing: map<string, Option<string>>)
    ensures Attempted(files, src, src.Keys - src.Keys, failing) == files
  {
  }

  lemma AttemptedStep(files: Tree, src: Tree, done: set<string>, failing: map<string, Option<string>>, file: string)
    requires file in src && file !in done
    ensures Attempted(files, src, done + {file}, failing) ==
            var t := Attempted(files, src, done, failing);
            if file !in failing then t[file := src[file]]
            else if failing[file].Some? then t[file := failing[file].value]
            else t
  {
  }

  /** With no failing file the attempt is the new tree laid over the old files. */
  lemma AttemptedWhole(files: Tree, src: Tree, failing: map<string, Option<string>>)
    requires src.Keys !! failing.Keys
    ensures Attempted(files, src, src.Keys, failing) == files + src
  {
  }
}
