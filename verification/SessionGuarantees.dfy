/** What a session's input and output promise over whole runs: input that was closed stays closed, and
    nothing a session prints reaches a caller its owner tuple does not accept. */
module SessionGuarantees {
  import opened Options
  import opened SessionRecords
  import opened SessionRuns

  // --- input ---

  /** Attached or ended, and the pipe is gone. */
  ghost predicate InputClosed(r: Rec) {
    !r.stdinOpen && r.phase != Launching
  }

  lemma HappenKeepsClosed(r: Rec, e: Event, now: int)
    requires InputClosed(r)
    ensures InputClosed(Happen(r, e, now))
  {
  }

  lemma PerformKeepsClosed(r: Rec, op: Op)
    requires InputClosed(r)
    ensures InputClosed(Perform(r, op))
  {
  }

  lemma {:induction false} ClosedForGood(m: Manager, steps: seq<Step>, id: nat)
    requires id in m.records && id in Run(m, steps).records && Landed(m, id) && InputClosed(m.records[id])
    ensures InputClosed(Run(m, steps).records[id])
  {
    if steps != [] {
      hide Next, Happen, Perform, InputClosed;
      var before, last := steps[..|steps| - 1], steps[|steps| - 1];
      SurvivorWasThere(m, steps, id);
      ClosedForGood(m, before, id);
      StepShape(Run(m, before), last, id);
      var r := Run(m, before).records[id];
      if last.Internal? { HappenKeepsClosed(r, last.event, last.now); }
      if last.Client? { PerformKeepsClosed(r, last.op); }
    }
  }

  /** No later write reaches the process. */
  ghost predicate NeverWritable(m: Manager, id: nat) {
    forall steps :: id in Run(m, steps).records ==> !Writable(Run(m, steps).records[id])
  }

  lemma ClosedIsNeverWritable(m: Manager, id: nat)
    requires id in m.records && Landed(m, id) && InputClosed(m.records[id])
    ensures NeverWritable(m, id)
  {
    forall steps | id in Run(m, steps).records ensures !Writable(Run(m, steps).records[id]) {
      ClosedForGood(m, steps, id);
    }
  }

  /** A kill cuts the input of a running session off for good if and only if it does not come before
      the process is attached: an attach that follows it opens the pipe again. */
  lemma KillCutsInputIff(m: Manager, id: nat, caller: Owner, at: int)
    requires AllHealthy(m) && id in m.records && m.records[id].status == Running && Allowed(m.records[id], caller, at)
    ensures NeverWritable(Next(m, Client(id, caller, at, KillOp)), id) <==> m.records[id].phase != Launching
  {
    var killed := Next(m, Client(id, caller, at, KillOp));
    assert Landed(killed, id);
    if m.records[id].phase != Launching {
      ClosedIsNeverWritable(killed, id);
    } else {
      var attach := [Internal(id, Spawns, 1)];
      assert attach[..0] == [];
      assert Run(killed, attach) == Next(killed, attach[0]);
      assert Writable(Run(killed, attach).records[id]);
    }
  }

  /** A finished session takes no input ever again. */
  lemma TerminalTakesNoInput(m: Manager, id: nat)
    requires AllHealthy(m) && id in m.records && Terminal(m.records[id].status)
    ensures NeverWritable(m, id)
  {
    ClosedIsNeverWritable(m, id);
  }

  // --- secrecy of output ---

  /** A record without what it printed. */
  ghost function Erased(r: Rec): Rec {
    r.(stdout := [], truncated := false)
  }

  /** The same record but for what it printed. */
  ghost predicate SameButOutput(a: Rec, b: Rec) {
    Erased(a) == Erased(b)
  }

  /** The same managers but for what session `id` printed. */
  ghost predicate AlikeBut(a: Manager, b: Manager, id: nat) {
    && a.nextId == b.nextId && a.retentionMs == b.retentionMs && a.starting == b.starting
    && a.records.Keys == b.records.Keys
    && (forall k :: k in a.records && k != id ==> a.records[k] == b.records[k])
    && (id in a.records ==> SameButOutput(a.records[id], b.records[id]))
  }

  /** The same step, except that session `id` may print something else. */
  ghost predicate SameStepBut(s: Step, t: Step, id: nat) {
    || t == s
    || (s.Internal? && t.Internal? && s.id == t.id == id && s.now == t.now
        && s.event.Arrives? && t.event.Arrives? && s.event.stream == t.event.stream)
  }

  lemma AppendErased(r: Rec, data: seq<byte>)
    ensures Erased(Append(r, data)) == Erased(r)
  {
    AppendEvolves(r, data);
    hide Append;
  }

  lemma FinishErased(r: Rec, status: Status, code: string, exitCode: int, now: int)
    ensures Erased(Finish(r, status, code, exitCode, now)) == Finish(Erased(r), status, code, exitCode, now)
  {
  }

  lemma EndingErased(r: Rec, exit: Option<int>, now: int)
    ensures Erased(ProcessEnded(r, exit, now)) == ProcessEnded(Erased(r), exit, now)
  {
    var closed := r.(stdinOpen := false);
    FinishErased(closed, TimedOut, "command_timeout", r.exitCode, now);
    FinishErased(closed, Killed, "command_killed", r.exitCode, now);
    if exit.Some? { FinishErased(closed, Failed, "nonzero_exit", exit.value, now); }
    hide Finish;
  }

  lemma FailuresErased(r: Rec, code: string, now: int)
    ensures Erased(PrepareFailed(r, code, now)) == PrepareFailed(Erased(r), code, now)
    ensures Erased(StartFailed(r, now)) == StartFailed(Erased(r), now)
  {
    FinishErased(r, Failed, code, r.exitCode, now);
    FinishErased(r, Failed, "command_spawn_failed", r.exitCode, now);
    FinishErased(r, Killed, "command_killed", r.exitCode, now);
    hide Finish;
  }

  lemma ProgressErased(r: Rec, e: Event)
    ensures Erased(Spawned(r)) == Spawned(Erased(r))
    ensures Erased(DeadlinePasses(r)) == DeadlinePasses(Erased(r))
    ensures e.StreamEnds? ==> Erased(StreamClosed(r, e.stream)) == StreamClosed(Erased(r), e.stream)
  {
  }

  lemma HappenErased(r: Rec, e: Event, now: int)
    requires !e.Arrives?
    ensures Erased(Happen(r, e, now)) == Happen(Erased(r), e, now)
  {
    assert Enabled(Erased(r), e) == Enabled(r, e);
    hide Enabled, PrepareFailed, StartFailed, Spawned, StreamClosed, DeadlinePasses, ProcessEnded;
    FailuresErased(r, if e.PrepareFails? then e.code else "", now);
    ProgressErased(r, e);
    if e.ProcessEnds? { EndingErased(r, e.exit, now); }
  }

  lemma ArrivalErased(r: Rec, e: Event, now: int)
    requires e.Arrives?
    ensures Erased(Happen(r, e, now)) == Erased(r)
  {
    AppendErased(r, e.data);
    hide Append;
  }

  lemma HappenAlike(a: Rec, b: Rec, e: Event, now: int)
    requires SameButOutput(a, b)
    ensures SameButOutput(Happen(a, e, now), Happen(b, e, now))
  {
    hide Happen, Erased;
    if e.Arrives? {
      ArrivalErased(a, e, now);
      ArrivalErased(b, e, now);
    } else {
      HappenErased(a, e, now);
      HappenErased(b, e, now);
    }
  }

  lemma PerformErased(r: Rec, op: Op)
    ensures Erased(Perform(r, op)) == Perform(Erased(r), op)
  {
  }

  lemma PerformAlike(a: Rec, b: Rec, op: Op)
    requires SameButOutput(a, b)
    ensures SameButOutput(Perform(a, op), Perform(b, op))
  {
    PerformErased(a, op);
    PerformErased(b, op);
    hide Perform;
  }

  lemma ArrivalsAlike(a: Rec, b: Rec, e: Event, f: Event, now: int)
    requires SameButOutput(a, b) && e.Arrives? && f.Arrives? && e.stream == f.stream
    ensures SameButOutput(Happen(a, e, now), Happen(b, f, now))
  {
    ArrivalErased(a, e, now);
    ArrivalErased(b, f, now);
    hide Happen;
  }

  /** Whatever time and the owner check look at is not output. */
  lemma SameDecisions(a: Rec, b: Rec)
    requires SameButOutput(a, b)
    ensures a.owner == b.owner && a.expiresAt == b.expiresAt && a.status == b.status && a.finishedAt == b.finishedAt
  {
    assert Erased(a).owner == a.owner && Erased(a).expiresAt == a.expiresAt;
    assert Erased(a).status == a.status && Erased(a).finishedAt == a.finishedAt;
  }

  lemma InternalAlike(a: Manager, b: Manager, s: Step, t: Step, id: nat)
    requires AlikeBut(a, b, id) && SameStepBut(s, t, id) && s.Internal?
    ensures AlikeBut(Next(a, s), Next(b, t), id)
  {
    hide Happen, Append, SameButOutput;
    if s.id == id && id in a.records {
      var r, q := a.records[id], b.records[id];
      if s == t { HappenAlike(r, q, s.event, s.now); } else { ArrivalsAlike(r, q, s.event, t.event, s.now); }
    }
  }

  lemma CollectAlike(a: Manager, b: Manager, now: int, id: nat)
    requires AlikeBut(a, b, id)
    ensures AlikeBut(Next(a, Gc(now)), Next(b, Gc(now)), id)
  {
    if id in a.records { SameDecisions(a.records[id], b.records[id]); }
    hide SameButOutput;
  }

  lemma InsertAlike(a: Manager, b: Manager, k: nat, now: int, id: nat)
    requires AlikeBut(a, b, id)
    ensures AlikeBut(Next(a, Insert(k, now)), Next(b, Insert(k, now)), id)
  {
    if id in a.records { SameDecisions(a.records[id], b.records[id]); }
    hide SameButOutput;
    if k in a.starting && k == id { assert SameButOutput(a.starting[k], a.starting[k]) by { SameAsItself(a.starting[k]); } }
  }

  lemma SameAsItself(r: Rec)
    ensures SameButOutput(r, r)
  {
  }

  lemma ClientAlike(a: Manager, b: Manager, step: Step, id: nat)
    requires AlikeBut(a, b, id) && step.Client?
    ensures AlikeBut(Next(a, step), Next(b, step), id)
  {
    if step.id == id && id in a.records {
      SameDecisions(a.records[id], b.records[id]);
      PerformAlike(a.records[id], b.records[id], step.op);
    }
    hide Perform, SameButOutput, EnforceOwner;
  }

  lemma StepAlike(a: Manager, b: Manager, s: Step, t: Step, id: nat)
    requires AlikeBut(a, b, id) && SameStepBut(s, t, id)
    ensures AlikeBut(Next(a, s), Next(b, t), id)
  {
    match s
    case Internal(_, _, _) => InternalAlike(a, b, s, t, id);
    case Client(_, _, _, _) => ClientAlike(a, b, s, id);
    case Gc(now) => CollectAlike(a, b, now, id);
    case Insert(k, now) => InsertAlike(a, b, k, now, id);
    case Draw(_, _, _, _, _) => hide SameButOutput;
  }

  ghost predicate SameStepsBut(s: seq<Step>, t: seq<Step>, id: nat) {
    |s| == |t| && forall i :: 0 <= i < |s| ==> SameStepBut(s[i], t[i], id)
  }

  lemma {:induction false} RunsAlike(m: Manager, s: seq<Step>, t: seq<Step>, id: nat)
    requires SameStepsBut(s, t, id)
    ensures AlikeBut(Run(m, s), Run(m, t), id)
  {
    if s != [] {
      hide Next, AlikeBut, SameStepBut;
      RunsAlike(m, s[..|s| - 1], t[..|t| - 1], id);
      StepAlike(Run(m, s[..|s| - 1]), Run(m, t[..|t| - 1]), s[|s| - 1], t[|t| - 1], id);
    } else {
      assert s == t;
    }
  }

  lemma RefusedAlike(a: Manager, b: Manager, step: Step, id: nat)
    requires AlikeBut(a, b, id) && step.Client? && (id in a.records ==> !OwnerAccepts(a.records[id].owner, step.caller))
    ensures Answered(a, step) == Answered(b, step)
    ensures step.id == id ==> Answered(a, step).Absent? || Answered(a, step).Rejected?
  {
    if id in a.records {
      SameDecisions(a.records[id], b.records[id]);
      OwnerCheckMeaning(a.records[id], step.caller, step.checkedAt);
    }
    hide OwnerAccepts, EnforceOwner, AnswerOf, SameButOutput;
  }

  lemma ListedAlike(a: Manager, b: Manager, caller: Owner, at: int, id: nat)
    requires AlikeBut(a, b, id) && (id in a.records ==> !OwnerAccepts(a.records[id].owner, caller))
    ensures Listed(a, caller, at) == Listed(b, caller, at) && id !in Listed(a, caller, at)
  {
    if id in a.records {
      OwnerCheckMeaning(a.records[id], caller, at);
      OwnerCheckMeaning(b.records[id], caller, at);
    }
    hide OwnerAccepts, EnforceOwner;
  }

  /** Output is secret: take any run and let the process of session `id` print anything else, in the
      same arrivals. No operation on any session, and no listing, by a caller that the owner of `id`
      does not accept answers differently; on `id` itself it is always turned away. */
  lemma OutputIsSecret(m: Manager, s: seq<Step>, t: seq<Step>, id: nat, ask: Step, caller: Owner, at: int)
    requires id in m.records && Landed(m, id) && SameStepsBut(s, t, id)
    requires ask.Client? && ask.caller == caller && !OwnerAccepts(m.records[id].owner, caller)
    ensures Answered(Run(m, s), ask) == Answered(Run(m, t), ask)
    ensures ask.id == id ==> Answered(Run(m, s), ask).Absent? || Answered(Run(m, s), ask).Rejected?
    ensures Listed(Run(m, s), caller, at) == Listed(Run(m, t), caller, at) && id !in Listed(Run(m, s), caller, at)
  {
    if id in Run(m, s).records { FixedAlways(m, s, id); }
    RunsAlike(m, s, t, id);
    hide Run, Answered, Listed, OwnerAccepts, AlikeBut;
    RefusedAlike(Run(m, s), Run(m, t), ask, id);
    ListedAlike(Run(m, s), Run(m, t), caller, at, id);
  }
}
