/** Journaled installation of skills and its crash recovery (zen_claw/agent/skills.py), in the
    default directory layout with one installer. A skill directory is a map from file names to
    contents; every write to the disk is a separate event, and the process can stop between any two. */
module SkillInstalls {

  type Tree = map<string, string>

  /** What the last operation on a skill directory was: a copy that completed, a copy or a recovery
      that has not finished, or an uninstall that has not finished. */
  datatype Mark = Installed | Unfinished | Uninstalling

  /** `layers` are the installs completed into the directory since it was made, and `covered` says
      whether the last of them found no damage but in files it brought itself. */
  datatype Dir = Dir(files: Tree, mark: Mark, layers: seq<Tree>, covered: bool)

  const NO_DIR := Dir(map[], Unfinished, [], true)

  /** What completed installs leave behind, each one laid over the ones before. */
  function Overlay(layers: seq<Tree>): Tree {
    if layers == [] then map[] else Overlay(layers[..|layers| - 1]) + layers[|layers| - 1]
  }

  /** The files in which a directory differs from its completed installs. */
  function Damage(files: Tree, layers: seq<Tree>): set<string> {
    set f | f in files.Keys + Overlay(layers).Keys
      && (f !in files || f !in Overlay(layers) || files[f] != Overlay(layers)[f])
  }

  /** The directory holds exactly the files of completed installs. */
  ghost predicate Whole(d: Dir) {
    d.files == Overlay(d.layers)
  }

  lemma WholeIffUndamaged(d: Dir)
    ensures Whole(d) <==> Damage(d.files, d.layers) == {}
  {
    if Damage(d.files, d.layers) == {} {
      forall f ensures f in d.files <==> f in Overlay(d.layers) {
        if f in d.files || f in Overlay(d.layers) { assert f !in Damage(d.files, d.layers); }
      }
      forall f | f in d.files ensures d.files[f] == Overlay(d.layers)[f] { assert f !in Damage(d.files, d.layers); }
    }
  }

  /** Laying one more tree over a damaged directory repairs it exactly when it covers the damage. */
  lemma CoveringRepairs(base: Tree, layers: seq<Tree>, src: Tree)
    ensures base + src == Overlay(layers + [src]) <==> Damage(base, layers) <= src.Keys
  {
    var over := Overlay(layers);
    assert (layers + [src])[..|layers|] == layers;
    assert Overlay(layers + [src]) == over + src;
    if base + src == over + src {
      assert forall f :: f !in src ==> (f in base + src <==> f in base) && (f in over + src <==> f in over);
      assert forall f :: f !in src && f in base ==> (base + src)[f] == base[f] == (over + src)[f] == over[f];
    }
    if Damage(base, layers) <= src.Keys {
      forall f | f !in src ensures (f in base <==> f in over) && (f in base ==> base[f] == over[f]) {
        assert f !in Damage(base, layers);
      }
    }
  }

  datatype Proc =
    | Down
    | Idle
    | Journaled(name: string, src: Tree, covers: bool)
    | Copying(name: string, src: Tree, base: Tree, todo: set<string>, failed: bool, covers: bool)
    | Enabling(name: string)
    | Unjournaling(name: string)
    | Removing(name: string)
    | Recovering(pending: seq<string>)

  datatype State = State(dirs: map<string, Dir>, journal: seq<string>, proc: Proc)

  datatype Event =
    | Install(name: string, src: Tree, overwrite: bool, dryRun: bool)
    | MakeDir(ok: bool)
    | PartialWrite(file: string, junk: string)
    | FinishFile(file: string)
    | FailFile(file: string)
    | EndCopy
    | Enable(ok: bool)
    | Unjournal
    | Uninstall(name: string)
    | RemoveFile(file: string)
    | RemoveDir
    | RemovalFails
    | Crash
    | Start
    | RecoverFile(file: string)
    | RecoverNext
    | RecoverDone

  function Without(journal: seq<string>, name: string): (r: seq<string>)
    ensures forall n :: n in r <==> n in journal && n != name
  {
    if journal == [] then []
    else if journal[0] == name then Without(journal[1..], name)
    else [journal[0]] + Without(journal[1..], name)
  }

  function DirAt(dirs: map<string, Dir>, name: string): Dir {
    if name in dirs then dirs[name] else NO_DIR
  }

  /** Whether an install would rewrite every damaged file of the directory it goes into. */
  predicate Covers(dirs: map<string, Dir>, name: string, src: Tree) {
    Damage(DirAt(dirs, name).files, DirAt(dirs, name).layers) <= src.Keys
  }

  /** Copying one skill tree, file by file. A file that fails does not stop the others; the copy then
      raises at its end. */
  function CopyStep(s: State, e: Event): State
    requires s.proc.Copying?
  {
    var p := s.proc;
    if p.name !in s.dirs then s
    else
      var d := s.dirs[p.name];
      match e
      case PartialWrite(file, junk) =>
        if file in p.todo then s.(dirs := s.dirs[p.name := d.(files := d.files[file := junk])]) else s
      case FinishFile(file) =>
        if file in p.todo && file in p.src then
          s.(dirs := s.dirs[p.name := d.(files := d.files[file := p.src[file]])], proc := p.(todo := p.todo - {file}))
        else s
      case FailFile(file) =>
        if file in p.todo then s.(proc := p.(todo := p.todo - {file}, failed := true)) else s
      case EndCopy =>
        if p.todo != {} then s
        else if p.failed then s.(proc := Idle)
        else
          s.(dirs := s.dirs[p.name := Dir(d.files, Installed, d.layers + [p.src], p.covers)], proc := Enabling(p.name))
      case _ => s
  }

  function Lose(d: Dir, file: string, mark: Mark): Dir {
    d.(files := d.files - {file}, mark := mark)
  }

  /** Recovery deletes every journaled directory, then empties the journal. */
  function RecoverStep(s: State, e: Event): State
    requires s.proc.Recovering?
  {
    var pending := s.proc.pending;
    match e
    case RecoverFile(file) =>
      if pending != [] && pending[0] in s.dirs
      then s.(dirs := s.dirs[pending[0] := Lose(s.dirs[pending[0]], file, Unfinished)])
      else s
    case RecoverNext =>
      if pending != [] then s.(dirs := s.dirs - {pending[0]}, proc := Recovering(pending[1..])) else s
    case RecoverDone =>
      if pending == [] then s.(journal := [], proc := Idle) else s
    case _ => s
  }

  function RemoveStep(s: State, e: Event): State
    requires s.proc.Removing?
  {
    var name := s.proc.name;
    if name !in s.dirs then s
    else
      match e
      case RemoveFile(file) => s.(dirs := s.dirs[name := Lose(s.dirs[name], file, Uninstalling)])
      case RemoveDir => s.(dirs := s.dirs - {name}, proc := Idle)
      case RemovalFails => s.(proc := Idle)
      case _ => s
  }

  function Step(s: State, e: Event): State {
    if e.Crash? then s.(proc := Down)
    else
      match s.proc
      case Down => if e.Start? then s.(proc := Recovering(s.journal)) else s
      case Idle =>
        (match e
         case Install(name, src, overwrite, dryRun) =>
           if (name in s.dirs && !overwrite) || dryRun then s
           else s.(journal := s.journal + [name], proc := Journaled(name, src, Covers(s.dirs, name, src)))
         case Uninstall(name) =>
           if name in s.dirs
           then s.(dirs := s.dirs[name := s.dirs[name].(mark := Uninstalling)], proc := Removing(name))
           else s
         case _ => s)
      case Journaled(name, src, covers) =>
        if !e.MakeDir? then s
        else if !e.ok then s.(proc := Idle)
        else
          var d := DirAt(s.dirs, name);
          s.(dirs := s.dirs[name := d.(mark := Unfinished)], proc := Copying(name, src, d.files, src.Keys, false, covers))
      case Copying(_, _, _, _, _, _) => CopyStep(s, e)
      case Enabling(name) => if e.Enable? then s.(proc := if e.ok then Unjournaling(name) else Idle) else s
      case Unjournaling(name) => if e.Unjournal? then s.(journal := Without(s.journal, name), proc := Idle) else s
      case Removing(_) => RemoveStep(s, e)
      case Recovering(_) => RecoverStep(s, e)
  }

  function Run(s: State, events: seq<Event>): State {
    if events == [] then s else Step(Run(s, events[..|events| - 1]), events[|events| - 1])
  }

  lemma RunSnoc(s: State, events: seq<Event>, e: Event)
    ensures Run(s, events + [e]) == Step(Run(s, events), e)
  {
    assert (events + [e])[..|events|] == events;
  }

  lemma {:induction false} RunConcat(s: State, a: seq<Event>, b: seq<Event>)
    ensures Run(s, a + b) == Run(Run(s, a), b)
  {
    if b == [] {
      assert a + b == a;
    } else {
      var init, last := b[..|b| - 1], b[|b| - 1];
      RunConcat(s, a, init);
      assert a + b == (a + init) + [last];
      RunSnoc(s, a + init, last);
    }
  }

  // --- the invariant ---

  ghost predicate DirsOk(s: State) {
    forall n :: n in s.dirs ==>
      && (s.dirs[n].mark == Installed ==> (Whole(s.dirs[n]) <==> s.dirs[n].covered))
      && (s.dirs[n].mark == Unfinished ==> n in s.journal)
  }

  ghost predicate CopyOk(files: Tree, src: Tree, base: Tree, todo: set<string>, failed: bool) {
    && todo <= src.Keys && files.Keys <= base.Keys + src.Keys
    && (forall f :: f in base && f !in src ==> f in files && files[f] == base[f])
    && (!failed ==> forall f :: f in src && f !in todo ==> f in files && files[f] == src[f])
  }

  ghost predicate ProcOk(s: State) {
    match s.proc
    case Journaled(name, src, covers) => name in s.journal && covers == Covers(s.dirs, name, src)
    case Copying(name, src, base, todo, failed, covers) =>
      && name in s.journal && name in s.dirs && s.dirs[name].mark == Unfinished
      && CopyOk(s.dirs[name].files, src, base, todo, failed)
      && covers == (Damage(base, s.dirs[name].layers) <= src.Keys)
    case Enabling(name) => name in s.dirs && s.dirs[name].mark == Installed
    case Unjournaling(name) => name in s.dirs && s.dirs[name].mark == Installed
    case Removing(name) => name in s.dirs && s.dirs[name].mark == Uninstalling
    case Recovering(pending) =>
      && (forall n :: n in pending ==> n in s.journal)
      && (forall n :: n in s.journal ==> n in pending || n !in s.dirs)
    case _ => true
  }

  ghost predicate Inv(s: State) {
    DirsOk(s) && ProcOk(s)
  }

  lemma CopiedAll(files: Tree, src: Tree, base: Tree)
    requires CopyOk(files, src, base, {}, false)
    ensures files == base + src
  {
  }

  lemma CopyKeepsInv(s: State, e: Event)
    requires Inv(s) && s.proc.Copying?
    ensures Inv(CopyStep(s, e))
  {
    hide Damage, Overlay;
    if e == EndCopy && s.proc.todo == {} && !s.proc.failed {
      var p := s.proc;
      CopiedAll(s.dirs[p.name].files, p.src, p.base);
      CoveringRepairs(p.base, s.dirs[p.name].layers, p.src);
    }
  }

  lemma RecoverKeepsInv(s: State, e: Event)
    requires Inv(s) && s.proc.Recovering?
    ensures Inv(RecoverStep(s, e))
  {
    hide Whole;
    var pending := s.proc.pending;
    if pending != [] {
      assert pending == [pending[0]] + pending[1..];
    }
  }

  lemma StepKeepsInv(s: State, e: Event)
    requires Inv(s)
    ensures Inv(Step(s, e))
  {
    hide CopyStep, RecoverStep, Damage, Overlay, CopyOk, Whole;
    if e.Crash? {
    } else if s.proc.Copying? {
      CopyKeepsInv(s, e);
    } else if s.proc.Recovering? {
      RecoverKeepsInv(s, e);
    } else if s.proc.Journaled? {
      CopyStarts(DirAt(s.dirs, s.proc.name).files, s.proc.src);
    }
  }

  lemma CopyStarts(base: Tree, src: Tree)
    ensures CopyOk(base, src, base, src.Keys, false)
  {
  }

  lemma {:induction false} InvAlways(s: State, events: seq<Event>)
    requires Inv(s)
    ensures Inv(Run(s, events))
  {
    hide Inv, Step;
    if events != [] {
      InvAlways(s, events[..|events| - 1]);
      StepKeepsInv(Run(s, events[..|events| - 1]), events[|events| - 1]);
    }
  }

  /** A workspace no install has touched yet. */
  ghost predicate Pristine(s: State) {
    && s.journal == [] && s.proc == Down
    && forall n :: n in s.dirs ==> s.dirs[n] == Dir(s.dirs[n].files, Installed, [s.dirs[n].files], true)
  }

  lemma PristineIsInv(s: State)
    requires Pristine(s)
    ensures Inv(s)
  {
    forall n | n in s.dirs ensures Whole(s.dirs[n]) {
      var files := s.dirs[n].files;
      assert [files][..0] == [] && map[] + files == files;
    }
  }

  // --- recovery ---

  predicate IsRecovery(e: Event) {
    e.Crash? || e.Start? || e.RecoverFile? || e.RecoverNext? || e.RecoverDone?
  }

  ghost predicate OnlyRecovery(events: seq<Event>) {
    forall i :: 0 <= i < |events| ==> IsRecovery(events[i])
  }

  function NamesOf(journal: seq<string>): set<string> {
    set n | n in journal
  }

  /** What holds between a crash in state `s` and any later point `t` of its recovery. */
  ghost predicate Recovers(s: State, t: State) {
    && t.dirs.Keys <= s.dirs.Keys
    && (forall n :: n in s.dirs && n !in s.journal ==> n in t.dirs && t.dirs[n] == s.dirs[n])
    && (t.journal == s.journal || (t.journal == [] && NamesOf(s.journal) !! t.dirs.Keys))
    && (t.proc.Down? || t.proc.Idle? || t.proc.Recovering?)
    && (t.proc.Idle? ==> t.journal == [] && NamesOf(s.journal) !! t.dirs.Keys)
    && (t.proc.Recovering? ==>
         && (forall n :: n in t.proc.pending ==> n in s.journal)
         && (forall n :: n in s.journal ==> n in t.proc.pending || n !in t.dirs))
  }

  lemma RecoversStep(s: State, t: State, e: Event)
    requires Recovers(s, t) && IsRecovery(e)
    ensures Recovers(s, Step(t, e))
  {
    if t.proc.Recovering? {
      var pending := t.proc.pending;
      if pending != [] {
        assert pending == [pending[0]] + pending[1..];
      }
    }
  }

  lemma {:induction false} RecoversRun(s: State, events: seq<Event>)
    requires s.proc == Down && OnlyRecovery(events)
    ensures Recovers(s, Run(s, events))
  {
    if events != [] {
      hide Recovers, Step;
      RecoversRun(s, events[..|events| - 1]);
      RecoversStep(s, Run(s, events[..|events| - 1]), events[|events| - 1]);
    }
  }

  /** Recovery is exact, however often it is itself interrupted and restarted: once it is through,
      precisely the directories the journal named are gone and every other one is as it was. */
  lemma RecoveryIsExact(s: State, events: seq<Event>)
    requires s.proc == Down && OnlyRecovery(events) && Run(s, events).proc == Idle
    ensures Run(s, events) == State(s.dirs - NamesOf(s.journal), [], Idle)
  {
    RecoversRun(s, events);
    var t := Run(s, events);
    assert t.dirs == s.dirs - NamesOf(s.journal);
  }

  ghost predicate NothingUnfinished(s: State) {
    forall n :: n in s.dirs ==> s.dirs[n].mark != Unfinished
  }

  /** From any disk at all, recovery leaves no partial copy if and only if the journal named every
      unfinished directory. */
  lemma RecoveryCleansIff(s: State, events: seq<Event>)
    requires s.proc == Down && OnlyRecovery(events) && Run(s, events).proc == Idle
    ensures NothingUnfinished(Run(s, events)) <==>
            forall n :: n in s.dirs && s.dirs[n].mark == Unfinished ==> n in s.journal
  {
    hide Run;
    RecoveryIsExact(s, events);
    var t := Run(s, events);
    forall n | n in s.dirs && n !in s.journal ensures n in t.dirs && t.dirs[n] == s.dirs[n] { }
  }

  /** Recovery gets through when it is left alone. */
  lemma {:induction false} RecoveryCompletes(s: State, pending: seq<string>) returns (events: seq<Event>)
    requires s.proc == Recovering(pending)
    ensures OnlyRecovery(events) && Run(s, events).proc == Idle
    decreases |pending|
  {
    if pending == [] {
      events := [RecoverDone];
      assert events[..0] == [];
    } else {
      var rest := RecoveryCompletes(Step(s, RecoverNext), pending[1..]);
      events := [RecoverNext] + rest;
      RunConcat(s, [RecoverNext], rest);
      assert [RecoverNext][..0] == [];
    }
  }

  /** Crash safety over whole runs: stop the process after any run from a pristine workspace and recover
      with any number of further crashes. No directory is left in the middle of a copy, and one whose
      last install completed holds exactly the files of completed installs if and only if that install
      covered the damage it found. (An uninstall that was cut short leaves its residue.) */
  lemma CrashSafe(s0: State, events: seq<Event>, recovery: seq<Event>, name: string)
    requires Pristine(s0) && OnlyRecovery(recovery)
    requires Run(Step(Run(s0, events), Crash), recovery).proc == Idle
    requires name in Run(Step(Run(s0, events), Crash), recovery).dirs
    ensures var dir := Run(Step(Run(s0, events), Crash), recovery).dirs[name];
            dir.mark != Unfinished && (dir.mark == Installed ==> (Whole(dir) <==> dir.covered))
  {
    hide Run, Step, CopyStep, RecoverStep, RemoveStep, ProcOk, Pristine, Whole;
    PristineIsInv(s0);
    InvAlways(s0, events);
    var down := Step(Run(s0, events), Crash);
    StepKeepsInv(Run(s0, events), Crash);
    CrashIsDown(Run(s0, events));
    RecoveryIsExact(down, recovery);
  }

  predicate IsCopy(e: Event) {
    e.MakeDir? || e.PartialWrite? || e.FinishFile? || e.FailFile? || e.EndCopy?
  }

  /** What an install carries with it from its first step to its last write. */
  ghost predicate Carries(s: State, name: string, src: Tree, covers: bool) {
    match s.proc
    case Journaled(n, t, c) => n == name && t == src && c == covers
    case Copying(n, t, _, _, _, c) => n == name && t == src && c == covers
    case Enabling(n) => n == name && name in s.dirs && s.dirs[name].covered == covers
    case Idle => true
    case _ => false
  }

  lemma {:induction false} CarriedAlong(s: State, events: seq<Event>, name: string, src: Tree, covers: bool)
    requires Carries(s, name, src, covers) && forall i :: 0 <= i < |events| ==> IsCopy(events[i])
    ensures Carries(Run(s, events), name, src, covers)
  {
    if events != [] {
      hide Damage;
      CarriedAlong(s, events[..|events| - 1], name, src, covers);
    }
  }

  /** The exact condition, readable before the first write: however the copying goes, an install that
      completes leaves its directory whole if and only if it brings every damaged file of it anew. */
  lemma InstallIsWholeIff(s: State, name: string, src: Tree, overwrite: bool, events: seq<Event>)
    requires Inv(s) && s.proc == Idle && (name in s.dirs ==> overwrite)
    requires forall i :: 0 <= i < |events| ==> IsCopy(events[i])
    requires Run(Step(s, Install(name, src, overwrite, false)), events).proc == Enabling(name)
    ensures var end := Run(Step(s, Install(name, src, overwrite, false)), events);
            name in end.dirs && (Whole(end.dirs[name]) <==> Covers(s.dirs, name, src))
  {
    hide Damage, Overlay, Whole, CopyOk, Run;
    var begun := Step(s, Install(name, src, overwrite, false));
    StepKeepsInv(s, Install(name, src, overwrite, false));
    InvAlways(begun, events);
    CarriedAlong(begun, events, name, src, Covers(s.dirs, name, src));
  }

  // --- installs that look before they write ---

  /** An install never goes into a directory that a failed install left in the journal, or that an
      uninstall left behind. */
  predicate Guarded(s: State, e: Event) {
    s.proc == Idle && e.Install? && e.overwrite && !e.dryRun && e.name in s.dirs ==>
      e.name !in s.journal && s.dirs[e.name].mark == Installed
  }

  ghost predicate GuardedRun(s: State, events: seq<Event>) {
    forall k :: 0 <= k < |events| ==> Guarded(Run(s, events[..k]), events[k])
  }

  /** Everything installed is whole, and the install under way will be. */
  ghost predicate AllWhole(s: State) {
    && (forall n :: n in s.dirs && s.dirs[n].mark == Installed ==> s.dirs[n].covered)
    && (s.proc.Journaled? ==> s.proc.covers) && (s.proc.Copying? ==> s.proc.covers)
  }

  lemma GuardedStepKeeps(s: State, e: Event)
    requires Inv(s) && AllWhole(s) && Guarded(s, e)
    ensures AllWhole(Step(s, e))
  {
    if s.proc == Idle && e.Install? {
      if e.name in s.dirs { WholeIffUndamaged(s.dirs[e.name]); } else { NewIsUndamaged(e.name, s.dirs, e.src); }
    }
    hide Whole, Damage, CopyOk, Overlay;
  }

  lemma NewIsUndamaged(name: string, dirs: map<string, Dir>, src: Tree)
    requires name !in dirs
    ensures Covers(dirs, name, src)
  {
  }

  lemma {:induction false} GuardedStaysWhole(s: State, events: seq<Event>)
    requires Inv(s) && AllWhole(s) && GuardedRun(s, events)
    ensures AllWhole(Run(s, events))
  {
    if events != [] {
      hide Inv, AllWhole, Guarded, Step;
      var init := events[..|events| - 1];
      forall k | 0 <= k < |init| ensures Guarded(Run(s, init[..k]), init[k]) {
        assert init[..k] == events[..k];
      }
      GuardedStaysWhole(s, init);
      InvAlways(s, init);
      GuardedStepKeeps(Run(s, init), events[|events| - 1]);
    }
  }

  /** With the guard, crash safety is unconditional: every directory that remains holds exactly the
      files of completed installs. */
  lemma GuardedCrashSafe(s0: State, events: seq<Event>, recovery: seq<Event>, name: string)
    requires Pristine(s0) && GuardedRun(s0, events) && OnlyRecovery(recovery)
    requires Run(Step(Run(s0, events), Crash), recovery).proc == Idle
    requires name in Run(Step(Run(s0, events), Crash), recovery).dirs
    ensures var dir := Run(Step(Run(s0, events), Crash), recovery).dirs[name];
            dir.mark == Uninstalling || (dir.mark == Installed && Whole(dir))
  {
    CrashSafe(s0, events, recovery, name);
    PristineIsInv(s0);
    GuardedStaysWhole(s0, events);
    CrashIsDown(Run(s0, events));
    hide Run, Step, Whole;
    RecoveryIsExact(Step(Run(s0, events), Crash), recovery);
  }

  lemma CrashIsDown(s: State)
    ensures Step(s, Crash) == s.(proc := Down)
  {
  }

  /** An interrupted overwrite does not roll back: the old version of the skill is gone after
      recovery, even when not one of its files had been touched. */
  lemma OverwriteIsNotRolledBack(s: State, name: string, src: Tree, recovery: seq<Event>)
    requires s.proc == Idle && name in s.dirs && OnlyRecovery(recovery)
    requires Run(Step(Step(s, Install(name, src, true, false)), Crash), recovery).proc == Idle
    ensures name !in Run(Step(Step(s, Install(name, src, true, false)), Crash), recovery).dirs
  {
    var down := Step(Step(s, Install(name, src, true, false)), Crash);
    assert down.journal == s.journal + [name] && name in down.journal;
    RecoveryIsExact(down, recovery);
  }

  lemma RunNothing(s: State)
    ensures Run(s, []) == s
  {
  }

  lemma InstallBegins(s: State, name: string, src: Tree, overwrite: bool)
    requires s.proc == Idle && (name in s.dirs ==> overwrite)
    ensures Run(s, [Install(name, src, overwrite, false)])
            == s.(journal := s.journal + [name], proc := Journaled(name, src, Covers(s.dirs, name, src)))
  {
    RunSnoc(s, [], Install(name, src, overwrite, false));
    assert [] + [Install(name, src, overwrite, false)] == [Install(name, src, overwrite, false)];
    hide Covers;
  }

  lemma MakeDirStep(s: State, events: seq<Event>, t: State, ok: bool)
    requires Run(s, events) == t && t.proc.Journaled?
    ensures var p := t.proc; var d := DirAt(t.dirs, p.name);
            Run(s, events + [MakeDir(ok)])
            == if !ok then t.(proc := Idle)
               else State(t.dirs[p.name := d.(mark := Unfinished)], t.journal,
                          Copying(p.name, p.src, d.files, p.src.Keys, false, p.covers))
  {
    RunSnoc(s, events, MakeDir(ok));
  }

  lemma EndCopyStep(s: State, events: seq<Event>, t: State)
    requires Run(s, events) == t && t.proc.Copying? && t.proc.todo == {} && t.proc.name in t.dirs
    ensures var p := t.proc; var d := t.dirs[p.name];
            Run(s, events + [EndCopy])
            == if p.failed then t.(proc := Idle)
               else State(t.dirs[p.name := Dir(d.files, Installed, d.layers + [p.src], p.covers)], t.journal,
                          Enabling(p.name))
  {
    RunSnoc(s, events, EndCopy);
  }

  lemma FileStep(start: State, events: seq<Event>, s: State, file: string, fails: bool)
    requires Run(start, events) == s && s.proc.Copying? && s.proc.name in s.dirs
    requires file in s.proc.todo && file in s.proc.src
    ensures Run(start, events + [if fails then FailFile(file) else FinishFile(file)]) ==
            var p := s.proc.(todo := s.proc.todo - {file}); var d := s.dirs[p.name];
            if fails then s.(proc := p.(failed := true))
            else s.(dirs := s.dirs[p.name := d.(files := d.files[file := p.src[file]])], proc := p)
  {
    RunSnoc(start, events, if fails then FailFile(file) else FinishFile(file));
  }

  lemma JunkStep(start: State, events: seq<Event>, s: State, file: string, junk: string)
    requires Run(start, events) == s && s.proc.Copying? && s.proc.name in s.dirs && file in s.proc.todo
    ensures Run(start, events + [PartialWrite(file, junk)]) ==
            var d := s.dirs[s.proc.name]; s.(dirs := s.dirs[s.proc.name := d.(files := d.files[file := junk])])
  {
    RunSnoc(start, events, PartialWrite(file, junk));
  }

  lemma StartsIdle(s: State)
    requires s.proc == Down && s.journal == []
    ensures Run(s, [Start, RecoverDone]) == s.(proc := Idle)
  {
    RunSnoc(s, [], Start);
    RunSnoc(s, [Start], RecoverDone);
    assert [] + [Start] == [Start] && [Start] + [RecoverDone] == [Start, RecoverDone];
  }

  /** A copy of a one-file skill that breaks off in the middle of the file, event by event. */
  lemma BrokenCopyRun(s: State, name: string, src: Tree, file: string, junk: string) returns (events: seq<Event>)
    requires s.proc == Idle && name !in s.dirs && src.Keys == {file}
    ensures Run(s, events) == State(s.dirs[name := Dir(map[file := junk], Unfinished, [], true)], s.journal + [name], Idle)
  {
    hide *;
    var none := Dir(map[], Unfinished, [], true);
    NoDirHere(s.dirs, name);
    assert file in src.Keys;
    events := [Install(name, src, false, false)];
    InstallBegins(s, name, src, false);
    var covers := Covers(s.dirs, name, src);
    var s1 := s.(journal := s.journal + [name], proc := Journaled(name, src, covers));
    MakeDirStep(s, events, s1, true);
    events := events + [MakeDir(true)];
    var s2 := State(s.dirs[name := none], s1.journal, Copying(name, src, map[], {file}, false, covers));
    assert Run(s, events) == s2;
    JunkStep(s, events, s2, file, junk);
    events := events + [PartialWrite(file, junk)];
    var d := Dir(map[file := junk], Unfinished, [], true);
    assert map[][file := junk] == d.files;
    var s3 := State(s.dirs[name := d], s1.journal, Copying(name, src, map[], {file}, false, covers));
    assert s2.dirs[name := d] == s3.dirs;
    FileStep(s, events, s3, file, true);
    events := events + [FailFile(file)];
    var s4 := s3.(proc := Copying(name, src, map[], {}, true, covers));
    assert {file} - {file} == {};
    EndCopyStep(s, events, s4);
    events := events + [EndCopy];
  }

  lemma NoDirHere(dirs: map<string, Dir>, name: string)
    requires name !in dirs
    ensures DirAt(dirs, name) == Dir(map[], Unfinished, [], true)
  {
  }

  /** A complete overwrite with a one-file skill, event by event. */
  lemma OverwriteRun(s: State, name: string, src: Tree, file: string) returns (events: seq<Event>)
    requires s.proc == Idle && name in s.dirs && src.Keys == {file}
    ensures var d := s.dirs[name];
            Run(s, events) == State(s.dirs[name := Dir(d.files[file := src[file]], Installed, d.layers + [src],
                                                       Covers(s.dirs, name, src))],
                                    Without(s.journal + [name], name), Idle)
  {
    var d, covers := s.dirs[name], Covers(s.dirs, name, src);
    assert DirAt(s.dirs, name) == d;
    hide *;
    events := [Install(name, src, true, false)];
    InstallBegins(s, name, src, true);
    var journal := s.journal + [name];
    MakeDirStep(s, events, s.(journal := journal, proc := Journaled(name, src, covers)), true);
    events := events + [MakeDir(true)];
    var s1 := State(s.dirs[name := d.(mark := Unfinished)], journal, Copying(name, src, d.files, {file}, false, covers));
    FileStep(s, events, s1, file, false);
    events := events + [FinishFile(file)];
    var e := d.(files := d.files[file := src[file]], mark := Unfinished);
    assert {file} - {file} == {} && s1.dirs[name := e] == s.dirs[name := e];
    var s2 := State(s.dirs[name := e], journal, Copying(name, src, d.files, {}, false, covers));
    EndCopyStep(s, events, s2);
    events := events + [EndCopy];
    var f := Dir(e.files, Installed, d.layers + [src], covers);
    assert s2.dirs[name := f] == s.dirs[name := f];
    events := FinishRun(s, events, State(s.dirs[name := f], journal, Enabling(name)));
  }

  ghost predicate OnlyRemovals(events: seq<Event>, files: seq<string>) {
    |events| == |files| && forall i :: 0 <= i < |events| ==> events[i] == RemoveFile(files[i])
  }

  lemma {:induction false} RemovalGoesOn(s: State, name: string, events: seq<Event>, files: seq<string>)
    requires s.proc == Idle && name in s.dirs && OnlyRemovals(events, files)
    ensures Run(s, [Uninstall(name)] + events) ==
            State(s.dirs[name := s.dirs[name].(files := s.dirs[name].files - FilesOf(files), mark := Uninstalling)],
                  s.journal, Removing(name))
    decreases |events|
  {
    hide Run;
    if events == [] {
      assert [Uninstall(name)] + events == [] + [Uninstall(name)];
      RunSnoc(s, [], Uninstall(name));
      RunNothing(s);
      assert FilesOf(files) == {} && s.dirs[name].files - {} == s.dirs[name].files;
    } else {
      var last := |events| - 1;
      RemovalGoesOn(s, name, events[..last], files[..last]);
      assert [Uninstall(name)] + events == ([Uninstall(name)] + events[..last]) + [events[last]];
      RunSnoc(s, [Uninstall(name)] + events[..last], events[last]);
      assert FilesOf(files) == FilesOf(files[..last]) + {files[last]};
      RemovalStep(s, name, FilesOf(files[..last]), files[last]);
    }
  }

  lemma RemovalStep(s: State, name: string, removed: set<string>, file: string)
    requires name in s.dirs
    ensures var d := s.dirs[name];
            Step(State(s.dirs[name := d.(files := d.files - removed, mark := Uninstalling)], s.journal, Removing(name)),
                 RemoveFile(file)) ==
            State(s.dirs[name := d.(files := d.files - (removed + {file}), mark := Uninstalling)], s.journal, Removing(name))
  {
    var d := s.dirs[name];
    assert d.files - removed - {file} == d.files - (removed + {file});
    var gone := d.(files := d.files - (removed + {file}), mark := Uninstalling);
    assert s.dirs[name := d.(files := d.files - removed, mark := Uninstalling)][name := gone] == s.dirs[name := gone];
  }

  ghost function FilesOf(files: seq<string>): set<string> {
    set f | f in files
  }

  /** Removing a skill, whatever files went first: it ends without the directory and with every other one as
      it was, or, when the removal fails, with the files not yet removed. The journal takes no part. */
  lemma UninstallOutcome(s: State, name: string, events: seq<Event>, files: seq<string>)
    requires s.proc == Idle && name in s.dirs && OnlyRemovals(events, files)
    ensures var end := Run(s, [Uninstall(name)] + events + [RemoveDir]);
            && end.proc == Idle && end.journal == s.journal && end.dirs.Keys == s.dirs.Keys - {name}
            && forall n :: n in end.dirs ==> end.dirs[n] == s.dirs[n]
    ensures var end := Run(s, [Uninstall(name)] + events + [RemovalFails]);
            && end.proc == Idle && end.journal == s.journal && end.dirs.Keys == s.dirs.Keys
            && (forall n :: n in end.dirs && n != name ==> end.dirs[n] == s.dirs[n])
            && end.dirs[name].mark == Uninstalling
            && (forall f :: f in end.dirs[name].files <==> f in s.dirs[name].files && f !in files)
            && (forall f :: f in end.dirs[name].files ==> end.dirs[name].files[f] == s.dirs[name].files[f])
  {
    RemovalGoesOn(s, name, events, files);
    RunSnoc(s, [Uninstall(name)] + events, RemoveDir);
    RunSnoc(s, [Uninstall(name)] + events, RemovalFails);
    hide Run;
  }

  lemma FinishRun(start: State, events: seq<Event>, s: State) returns (all: seq<Event>)
    requires Run(start, events) == s && s.proc.Enabling?
    ensures Run(start, all) == s.(journal := Without(s.journal, s.proc.name), proc := Idle)
  {
    hide *;
    RunSnoc(start, events, Enable(true));
    RunSnoc(start, events + [Enable(true)], Unjournal);
    EnableSteps(s);
    all := events + [Enable(true)] + [Unjournal];
  }

  lemma EnableSteps(s: State)
    requires s.proc.Enabling?
    ensures Step(Step(s, Enable(true)), Unjournal) == s.(journal := Without(s.journal, s.proc.name), proc := Idle)
  {
    hide Without;
  }

  const BARE := State(map[], [], Down)

  /** From an empty disk to the leftovers of a copy that broke off. */
  lemma BrokenFromBare(name: string, src: Tree, file: string, junk: string) returns (events: seq<Event>)
    requires src.Keys == {file}
    ensures Run(BARE, events) == State(map[name := Dir(map[file := junk], Unfinished, [], true)], [name], Idle)
  {
    var idle := State(map[], [], Idle);
    assert BARE.(proc := Idle) == idle && BARE.proc == Down && BARE.journal == [];
    hide *;
    StartsIdle(BARE);
    var rest := BrokenCopyRun(idle, name, src, file, junk);
    RunConcat(BARE, [Start, RecoverDone], rest);
    events := [Start, RecoverDone] + rest;
    assert idle.journal + [name] == [name];
  }

  /** And on to a completed overwrite by a skill without that file. */
  lemma HalfFileRun(name: string, failed: Tree, file: string, junk: string, src: Tree, other: string)
    returns (events: seq<Event>, covers: bool)
    requires failed.Keys == {file} && src.Keys == {other}
    ensures Run(BARE, events) ==
            State(map[name := Dir(map[file := junk][other := src[other]], Installed, [] + [src], covers)], [], Idle)
  {
    hide *;
    var before := BrokenFromBare(name, failed, file, junk);
    var left := State(map[name := Dir(map[file := junk], Unfinished, [], true)], [name], Idle);
    var again := OverwriteRun(left, name, src, other);
    RunConcat(BARE, before, again);
    events := before + again;
    covers := Covers(left.dirs, name, src);
    AllOut([name] + [name], name);
    var whole := Dir(map[file := junk][other := src[other]], Installed, [] + [src], covers);
    assert left.dirs[name := whole] == map[name := whole];
  }

  /** The guard is needed: a half-written file of a failed install survives an overwrite that does not
      bring it, a crash and every recovery, in a directory whose journal entries are gone. */
  lemma HalfFileSurvives(recovery: seq<Event>) returns (s0: State, events: seq<Event>)
    requires OnlyRecovery(recovery)
    ensures Pristine(s0)
    ensures var end := Run(Step(Run(s0, events), Crash), recovery);
            end.proc == Idle ==>
              && "a" in end.dirs && end.dirs["a"].mark == Installed && !Whole(end.dirs["a"]) && end.journal == []
              && "f" in end.dirs["a"].files && end.dirs["a"].files["f"] == "half"
              && forall i :: 0 <= i < |end.dirs["a"].layers| ==> "f" !in end.dirs["a"].layers[i]
  {
    s0 := BARE;
    assert Pristine(s0);
    hide Run, Step, Whole, Pristine, OnlyRecovery, BARE;
    var covers;
    events, covers := HalfFileRun("a", map["f" := "whole"], "f", "half", map["g" := "new"], "g");
    OneLayer(map["g" := "new"]);
    IsNotWhole(Dir(map["f" := "half"]["g" := "new"], Installed, [] + [map["g" := "new"]], covers), "f");
    StaysThrough(Run(s0, events), recovery, "a");
  }

  lemma IsNotWhole(d: Dir, file: string)
    requires file in d.files && file !in Overlay(d.layers)
    ensures !Whole(d)
  {
  }

  /** Recovery with an empty journal changes no directory. */
  lemma StaysThrough(s: State, recovery: seq<Event>, name: string)
    requires OnlyRecovery(recovery) && s.journal == [] && name in s.dirs
    ensures var end := Run(Step(s, Crash), recovery);
            end.proc == Idle ==> end.journal == [] && name in end.dirs && end.dirs[name] == s.dirs[name]
  {
    CrashIsDown(s);
    hide Run, Step;
    var end := Run(Step(s, Crash), recovery);
    if end.proc == Idle { RecoveryIsExact(Step(s, Crash), recovery); }
  }

  lemma OneLayer(t: Tree)
    ensures Overlay([t]) == t
  {
    assert [t][..0] == [] && map[] + t == t;
  }

  lemma {:induction false} AllOut(journal: seq<string>, name: string)
    requires forall n :: n in journal ==> n == name
    ensures Without(journal, name) == []
  {
    if journal != [] {
      assert journal[0] in journal && forall n :: n in journal[1..] ==> n in journal;
      AllOut(journal[1..], name);
    }
  }

  /** What recovery rests on: if the journal file is cut short while a second install adds to it, it
      reads back as empty, and recovery keeps the partial copy of the first. */
  lemma TornJournalKeepsPartialCopy(recovery: seq<Event>) returns (s0: State, events: seq<Event>, torn: State)
    requires OnlyRecovery(recovery)
    ensures Pristine(s0)
    ensures torn == Run(s0, events).(journal := [], proc := Down)
    ensures Run(torn, recovery).proc == Idle ==> !NothingUnfinished(Run(torn, recovery))
  {
    hide Run, Step;
    s0 := State(map[], [], Down);
    StartsIdle(s0);
    var rest := BrokenCopyRun(s0.(proc := Idle), "a", map["SKILL.md" := "text"], "SKILL.md", "te");
    events := [Start, RecoverDone] + rest;
    RunConcat(s0, [Start, RecoverDone], rest);
    torn := Run(s0, events).(journal := [], proc := Down);
    assert torn.dirs["a"].mark == Unfinished;
    if Run(torn, recovery).proc == Idle { RecoveryCleansIff(torn, recovery); }
  }
}
