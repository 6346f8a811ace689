/** How a session ends, and what its record says meanwhile, in terms of the steps of the run alone: which
    kill, signal, deadline, attach or resize came before which end. */
module SessionOutcomes {
  import opened Options
  import opened SessionRecords
  import opened SessionRuns

  // --- steps that matter to a session ---

  /** A client operation on session `id` that its owner may take now, while it runs. */
  ghost predicate Acts(m: Manager, step: Step, id: nat) {
    && step.Client? && step.id == id && id in m.records && m.records[id].status == Running
    && OwnerAccepts(m.records[id].owner, step.caller)
    && (m.records[id].expiresAt <= 0 || step.checkedAt <= m.records[id].expiresAt)
  }

  ghost predicate Kills(m: Manager, step: Step, id: nat) {
    Acts(m, step, id) && step.op == KillOp
  }

  /** A terminate or kill signal while there is a process to take it. */
  ghost predicate Terminates(m: Manager, step: Step, id: nat) {
    Acts(m, step, id) && step.op.SignalOp? && step.op.signal in {Terminate, Kill} && m.records[id].hasProcess
  }

  ghost predicate Resizes(m: Manager, step: Step, id: nat) {
    Acts(m, step, id) && step.op.ResizeOp? && m.records[id].pty && step.op.rows > 0 && step.op.cols > 0
  }

  /** An event of the goroutines of session `id` that can happen now. */
  ghost predicate Occurs(m: Manager, step: Step, id: nat) {
    step.Internal? && step.id == id && id in m.records && Enabled(m.records[id], step.event)
  }

  ghost predicate Attaches(m: Manager, step: Step, id: nat) {
    Occurs(m, step, id) && step.event == Spawns
  }

  ghost predicate HitsDeadline(m: Manager, step: Step, id: nat) {
    Occurs(m, step, id) && step.event == DeadlineHits
  }

  ghost predicate Drains(m: Manager, step: Step, id: nat, stream: Stream) {
    Occurs(m, step, id) && step.event == StreamEnds(stream)
  }

  ghost predicate Ends(m: Manager, step: Step, id: nat) {
    Occurs(m, step, id) && (step.event.PrepareFails? || step.event.StartFails? || step.event.ProcessEnds?)
  }

  // --- what a run has seen of them ---

  ghost predicate KillsAt(m: Manager, steps: seq<Step>, id: nat, k: nat)
    requires k < |steps|
  {
    Kills(Run(m, steps[..k]), steps[k], id)
  }

  ghost predicate TerminatesAt(m: Manager, steps: seq<Step>, id: nat, k: nat)
    requires k < |steps|
  {
    Terminates(Run(m, steps[..k]), steps[k], id)
  }

  ghost predicate AttachesAt(m: Manager, steps: seq<Step>, id: nat, k: nat)
    requires k < |steps|
  {
    Attaches(Run(m, steps[..k]), steps[k], id)
  }

  ghost predicate DeadlineAt(m: Manager, steps: seq<Step>, id: nat, k: nat)
    requires k < |steps|
  {
    HitsDeadline(Run(m, steps[..k]), steps[k], id)
  }

  ghost predicate DrainsAt(m: Manager, steps: seq<Step>, id: nat, stream: Stream, k: nat)
    requires k < |steps|
  {
    Drains(Run(m, steps[..k]), steps[k], id, stream)
  }

  ghost predicate EndsAt(m: Manager, steps: seq<Step>, id: nat, k: nat)
    requires k < |steps|
  {
    Ends(Run(m, steps[..k]), steps[k], id)
  }

  ghost predicate WasKilled(m: Manager, steps: seq<Step>, id: nat) {
    exists k :: 0 <= k < |steps| && KillsAt(m, steps, id, k)
  }

  ghost predicate WasTerminated(m: Manager, steps: seq<Step>, id: nat) {
    exists k :: 0 <= k < |steps| && TerminatesAt(m, steps, id, k)
  }

  ghost predicate WasAttached(m: Manager, steps: seq<Step>, id: nat) {
    exists k :: 0 <= k < |steps| && AttachesAt(m, steps, id, k)
  }

  ghost predicate WasDrained(m: Manager, steps: seq<Step>, id: nat, stream: Stream) {
    exists k :: 0 <= k < |steps| && DrainsAt(m, steps, id, stream, k)
  }

  /** The deadline was hit before anybody killed the session. */
  ghost predicate WasLate(m: Manager, steps: seq<Step>, id: nat) {
    exists k :: 0 <= k < |steps| && DeadlineAt(m, steps, id, k) && forall j :: 0 <= j < k ==> !KillsAt(m, steps, id, j)
  }

  /** The process was attached, and not killed since. */
  ghost predicate StillOpen(m: Manager, steps: seq<Step>, id: nat) {
    exists k :: 0 <= k < |steps| && AttachesAt(m, steps, id, k) && forall j :: k < j < |steps| ==> !KillsAt(m, steps, id, j)
  }

  ghost predicate HasEnded(m: Manager, steps: seq<Step>, id: nat) {
    exists k :: 0 <= k < |steps| && EndsAt(m, steps, id, k)
  }

  /** The last dimensions a client set. */
  ghost function Size(m: Manager, steps: seq<Step>, id: nat): (int, int) {
    if steps == [] then (0, 0)
    else
      var before, last := steps[..|steps| - 1], steps[|steps| - 1];
      if Resizes(Run(m, before), last, id) then (last.op.rows, last.op.cols) else Size(m, before, id)
  }

  datatype Past = Past(killed: bool, terminated: bool, attached: bool, late: bool, open: bool, size: (int, int),
                       outDrained: bool, errDrained: bool)

  ghost function PastOf(m: Manager, steps: seq<Step>, id: nat): Past {
    Past(WasKilled(m, steps, id), WasTerminated(m, steps, id), WasAttached(m, steps, id), WasLate(m, steps, id),
         StillOpen(m, steps, id), Size(m, steps, id), WasDrained(m, steps, id, Out), WasDrained(m, steps, id, Err))
  }

  ghost function PastNext(past: Past, m: Manager, step: Step, id: nat): Past {
    Past(past.killed || Kills(m, step, id), past.terminated || Terminates(m, step, id),
         past.attached || Attaches(m, step, id), past.late || (HitsDeadline(m, step, id) && !past.killed),
         Attaches(m, step, id) || (past.open && !Kills(m, step, id)),
         if Resizes(m, step, id) then (step.op.rows, step.op.cols) else past.size,
         past.outDrained || Drains(m, step, id, Out), past.errDrained || Drains(m, step, id, Err))
  }

  lemma EarlierSteps(m: Manager, steps: seq<Step>, id: nat, k: nat)
    requires k + 1 < |steps|
    ensures var before := steps[..|steps| - 1];
            && (KillsAt(m, steps, id, k) <==> KillsAt(m, before, id, k))
            && (TerminatesAt(m, steps, id, k) <==> TerminatesAt(m, before, id, k))
            && (AttachesAt(m, steps, id, k) <==> AttachesAt(m, before, id, k))
            && (DeadlineAt(m, steps, id, k) <==> DeadlineAt(m, before, id, k))
            && (EndsAt(m, steps, id, k) <==> EndsAt(m, before, id, k))
  {
    hide Kills, Terminates, Attaches, HitsDeadline, Ends, Run;
    assert steps[..|steps| - 1][..k] == steps[..k];
  }

  lemma LastStep(m: Manager, steps: seq<Step>, id: nat)
    requires steps != []
    ensures var k := |steps| - 1; var mid, last := Run(m, steps[..k]), steps[k];
            && (KillsAt(m, steps, id, k) <==> Kills(mid, last, id))
            && (TerminatesAt(m, steps, id, k) <==> Terminates(mid, last, id))
            && (AttachesAt(m, steps, id, k) <==> Attaches(mid, last, id))
            && (DeadlineAt(m, steps, id, k) <==> HitsDeadline(mid, last, id))
            && (EndsAt(m, steps, id, k) <==> Ends(mid, last, id))
  {
    hide Kills, Terminates, Attaches, HitsDeadline, Ends, Run;
  }

  lemma KilledSnoc(m: Manager, steps: seq<Step>, id: nat)
    requires steps != []
    ensures var before, last := steps[..|steps| - 1], steps[|steps| - 1];
            && (WasKilled(m, steps, id) <==> WasKilled(m, before, id) || Kills(Run(m, before), last, id))
            && (WasTerminated(m, steps, id) <==> WasTerminated(m, before, id) || Terminates(Run(m, before), last, id))
            && (WasAttached(m, steps, id) <==> WasAttached(m, before, id) || Attaches(Run(m, before), last, id))
            && (HasEnded(m, steps, id) <==> HasEnded(m, before, id) || Ends(Run(m, before), last, id))
  {
    hide KillsAt, TerminatesAt, AttachesAt, DeadlineAt, EndsAt, Kills, Terminates, Attaches, HitsDeadline, Ends, Run;
    var before := steps[..|steps| - 1];
    LastStep(m, steps, id);
    if WasKilled(m, before, id) {
      var k :| 0 <= k < |before| && KillsAt(m, before, id, k);
      EarlierSteps(m, steps, id, k);
      assert KillsAt(m, steps, id, k);
    }
    if WasKilled(m, steps, id) {
      var k :| 0 <= k < |steps| && KillsAt(m, steps, id, k);
      if k < |before| { EarlierSteps(m, steps, id, k); }
    }
    if WasTerminated(m, before, id) {
      var k :| 0 <= k < |before| && TerminatesAt(m, before, id, k);
      EarlierSteps(m, steps, id, k);
      assert TerminatesAt(m, steps, id, k);
    }
    if WasTerminated(m, steps, id) {
      var k :| 0 <= k < |steps| && TerminatesAt(m, steps, id, k);
      if k < |before| { EarlierSteps(m, steps, id, k); }
    }
    if WasAttached(m, before, id) {
      var k :| 0 <= k < |before| && AttachesAt(m, before, id, k);
      EarlierSteps(m, steps, id, k);
      assert AttachesAt(m, steps, id, k);
    }
    if WasAttached(m, steps, id) {
      var k :| 0 <= k < |steps| && AttachesAt(m, steps, id, k);
      if k < |before| { EarlierSteps(m, steps, id, k); }
    }
    if HasEnded(m, before, id) {
      var k :| 0 <= k < |before| && EndsAt(m, before, id, k);
      EarlierSteps(m, steps, id, k);
      assert EndsAt(m, steps, id, k);
    }
    if HasEnded(m, steps, id) {
      var k :| 0 <= k < |steps| && EndsAt(m, steps, id, k);
      if k < |before| { EarlierSteps(m, steps, id, k); }
    }
  }

  lemma DrainedSnoc(m: Manager, steps: seq<Step>, id: nat, stream: Stream)
    requires steps != []
    ensures var before, last := steps[..|steps| - 1], steps[|steps| - 1];
            WasDrained(m, steps, id, stream) <==>
              WasDrained(m, before, id, stream) || Drains(Run(m, before), last, id, stream)
  {
    hide Drains, Run;
    var before := steps[..|steps| - 1];
    assert DrainsAt(m, steps, id, stream, |before|) <==> Drains(Run(m, before), steps[|before|], id, stream);
    if WasDrained(m, before, id, stream) {
      var k :| 0 <= k < |before| && DrainsAt(m, before, id, stream, k);
      assert before[..k] == steps[..k];
      assert DrainsAt(m, steps, id, stream, k);
    }
    if WasDrained(m, steps, id, stream) {
      var k :| 0 <= k < |steps| && DrainsAt(m, steps, id, stream, k);
      if k < |before| {
        assert before[..k] == steps[..k];
        assert DrainsAt(m, before, id, stream, k);
      }
    }
  }

  lemma LateSnoc(m: Manager, steps: seq<Step>, id: nat)
    requires steps != []
    ensures var before, last := steps[..|steps| - 1], steps[|steps| - 1];
            && (WasLate(m, steps, id) <==>
                  WasLate(m, before, id) || (HitsDeadline(Run(m, before), last, id) && !WasKilled(m, before, id)))
            && (StillOpen(m, steps, id) <==>
                  Attaches(Run(m, before), last, id) || (StillOpen(m, before, id) && !Kills(Run(m, before), last, id)))
  {
    hide KillsAt, AttachesAt, DeadlineAt, Kills, Attaches, HitsDeadline, Run;
    var before := steps[..|steps| - 1];
    forall k | 0 <= k && k + 1 < |steps|
      ensures KillsAt(m, steps, id, k) <==> KillsAt(m, before, id, k)
      ensures AttachesAt(m, steps, id, k) <==> AttachesAt(m, before, id, k)
      ensures DeadlineAt(m, steps, id, k) <==> DeadlineAt(m, before, id, k)
    {
      EarlierSteps(m, steps, id, k);
    }
    LastStep(m, steps, id);
    LateCases(m, steps, id);
    OpenCases(m, steps, id);
  }

  lemma LateCases(m: Manager, steps: seq<Step>, id: nat)
    requires steps != []
    requires var before := steps[..|steps| - 1];
             forall k :: 0 <= k < |before| ==>
               (KillsAt(m, steps, id, k) <==> KillsAt(m, before, id, k))
               && (DeadlineAt(m, steps, id, k) <==> DeadlineAt(m, before, id, k))
    ensures var before := steps[..|steps| - 1];
            WasLate(m, steps, id) <==>
              WasLate(m, before, id) || (DeadlineAt(m, steps, id, |steps| - 1) && !WasKilled(m, before, id))
  {
    hide KillsAt, DeadlineAt;
    var before := steps[..|steps| - 1];
    if WasLate(m, before, id) {
      var k :| 0 <= k < |before| && DeadlineAt(m, before, id, k) && forall j :: 0 <= j < k ==> !KillsAt(m, before, id, j);
      assert DeadlineAt(m, steps, id, k);
    }
    if DeadlineAt(m, steps, id, |steps| - 1) && !WasKilled(m, before, id) {
      forall j | 0 <= j < |before| ensures !KillsAt(m, steps, id, j) { }
    }
    if WasLate(m, steps, id) {
      var k :| 0 <= k < |steps| && DeadlineAt(m, steps, id, k) && forall j :: 0 <= j < k ==> !KillsAt(m, steps, id, j);
      if k < |before| {
        assert DeadlineAt(m, before, id, k);
        forall j | 0 <= j < k ensures !KillsAt(m, before, id, j) { assert !KillsAt(m, steps, id, j); }
      } else {
        forall j | 0 <= j < |before| ensures !KillsAt(m, before, id, j) { assert !KillsAt(m, steps, id, j); }
      }
    }
  }

  lemma OpenCases(m: Manager, steps: seq<Step>, id: nat)
    requires steps != []
    requires var before := steps[..|steps| - 1];
             forall k :: 0 <= k < |before| ==>
               (KillsAt(m, steps, id, k) <==> KillsAt(m, before, id, k))
               && (AttachesAt(m, steps, id, k) <==> AttachesAt(m, before, id, k))
    ensures var before := steps[..|steps| - 1];
            StillOpen(m, steps, id) <==>
              AttachesAt(m, steps, id, |steps| - 1) || (StillOpen(m, before, id) && !KillsAt(m, steps, id, |steps| - 1))
  {
    hide KillsAt, AttachesAt;
    var before := steps[..|steps| - 1];
    if StillOpen(m, before, id) && !KillsAt(m, steps, id, |steps| - 1) {
      var k :| 0 <= k < |before| && AttachesAt(m, before, id, k)
               && forall j :: k < j < |before| ==> !KillsAt(m, before, id, j);
      assert AttachesAt(m, steps, id, k);
      forall j | k < j < |steps| ensures !KillsAt(m, steps, id, j) {
        if j < |before| { assert !KillsAt(m, before, id, j); }
      }
    }
    if StillOpen(m, steps, id) {
      var k :| 0 <= k < |steps| && AttachesAt(m, steps, id, k) && forall j :: k < j < |steps| ==> !KillsAt(m, steps, id, j);
      if k < |before| {
        assert AttachesAt(m, before, id, k) && !KillsAt(m, steps, id, |steps| - 1);
        forall j | k < j < |before| ensures !KillsAt(m, before, id, j) { assert !KillsAt(m, steps, id, j); }
      }
    }
  }

  lemma PastSnoc(m: Manager, steps: seq<Step>, id: nat)
    requires steps != []
    ensures var before, last := steps[..|steps| - 1], steps[|steps| - 1];
            PastOf(m, steps, id) == PastNext(PastOf(m, before, id), Run(m, before), last, id)
  {
    KilledSnoc(m, steps, id);
    LateSnoc(m, steps, id);
    DrainedSnoc(m, steps, id, Out);
    DrainedSnoc(m, steps, id, Err);
    hide WasDrained, Drains, WasKilled, WasTerminated, WasAttached, WasLate, StillOpen, Kills, Terminates, Attaches, HitsDeadline, Resizes, Run;
  }

  // --- the record, told by the past ---

  /** What the record of a running session says. */
  ghost predicate RunningAs(r: Rec, past: Past) {
    && r.status == Running && r.phase != Ended && r.errorCode == "" && r.exitCode == 0 && r.finishedAt == 0
    && (r.killRequested <==> past.killed || past.terminated)
    && (r.context == DeadlineExceeded <==> past.late) && (r.context == Canceled <==> past.killed && !past.late)
    && (r.hasProcess <==> past.attached) && (r.phase == Launching <==> !past.attached)
    && (past.terminated ==> past.attached) && (past.open ==> past.attached)
    && (r.stdinOpen <==> past.open) && (r.rows, r.cols) == past.size
    && (past.attached ==> r.phase == Streaming((if past.outDrained then {} else {Out}) + (if past.errDrained then {} else {Err})))
    && (!past.attached ==> !past.outDrained && !past.errDrained)
  }

  /** What it says once the session has ended with event `e` at time `now`. */
  ghost predicate EndedAs(r: Rec, e: Event, now: int, past: Past) {
    var unharmed := !past.killed && !past.terminated && !past.late;
    && r.phase == Ended && r.finishedAt == now
    && (r.status == Done <==> e == ProcessEnds(None) && unharmed)
    && (r.status == TimedOut <==> e.ProcessEnds? && past.late)
    && (r.status == Killed <==>
          (e.ProcessEnds? && !past.late && (past.killed || past.terminated)) || (e.StartFails? && past.killed))
    && (r.status == Failed <==>
          e.PrepareFails? || (e.StartFails? && !past.killed) || (e.ProcessEnds? && e.exit.Some? && unharmed))
    && r.exitCode == (if e.ProcessEnds? && e.exit.Some? && unharmed then e.exit.value else 0)
    && (r.status == Done ==> r.errorCode == "") && (r.status == TimedOut ==> r.errorCode == "command_timeout")
    && (r.status == Killed ==> r.errorCode == "command_killed")
    && (r.status == Failed ==>
          r.errorCode == match e case PrepareFails(code) => code case StartFails => "command_spawn_failed"
                                 case _ => "nonzero_exit")
    && !r.stdinOpen && r.hasProcess == past.attached && (r.rows, r.cols) == past.size
    && (e.ProcessEnds? <==> past.attached) && (e.ProcessEnds? ==> past.outDrained && past.errDrained)
  }

  lemma MayAct(r: Rec, caller: Owner, at: int)
    ensures Allowed(r, caller, at) <==> OwnerAccepts(r.owner, caller) && (r.expiresAt <= 0 || at <= r.expiresAt)
  {
    OwnerCheckMeaning(r, caller, at);
    hide EnforceOwner, OwnerAccepts;
  }

  lemma EndTells(r: Rec, e: Event, now: int, past: Past)
    requires RunningAs(r, past) && Enabled(r, e) && (e.PrepareFails? || e.StartFails? || e.ProcessEnds?)
    ensures EndedAs(Happen(r, e, now), e, now, past)
  {
  }

  /** What an event that ends nothing adds to the past. */
  ghost function PastAfter(past: Past, e: Event): Past {
    match e
    case Spawns => past.(attached := true, open := true)
    case DeadlineHits => past.(late := past.late || !past.killed)
    case StreamEnds(Out) => past.(outDrained := true)
    case StreamEnds(Err) => past.(errDrained := true)
    case _ => past
  }

  lemma ProgressTells(r: Rec, e: Event, now: int, past: Past)
    requires RunningAs(r, past) && Enabled(r, e) && !(e.PrepareFails? || e.StartFails? || e.ProcessEnds?)
    ensures RunningAs(Happen(r, e, now), PastAfter(past, e))
  {
    if e.Arrives? {
      AppendEvolves(r, e.data);
      hide Append;
    }
  }

  lemma InternalTells(m: Manager, step: Step, id: nat, past: Past)
    requires id in m.records && RunningAs(m.records[id], past) && step.Internal? && step.id == id
    ensures var r := Next(m, step).records[id];
            if Ends(m, step, id) then EndedAs(r, step.event, step.now, past)
            else RunningAs(r, PastNext(past, m, step, id))
  {
    var r := m.records[id];
    assert Next(m, step).records[id] == Happen(r, step.event, step.now);
    if !Enabled(r, step.event) {
      assert PastNext(past, m, step, id) == past;
    } else if Ends(m, step, id) {
      EndTells(r, step.event, step.now, past);
    } else {
      assert PastNext(past, m, step, id) == PastAfter(past, step.event) by { hide Enabled, RunningAs; }
      ProgressTells(r, step.event, step.now, past);
      hide RunningAs, Happen, Next, PastAfter, PastNext;
    }
  }

  lemma ClientTells(m: Manager, step: Step, id: nat, past: Past)
    requires id in m.records && RunningAs(m.records[id], past) && step.Client? && step.id == id
    ensures RunningAs(Next(m, step).records[id], PastNext(past, m, step, id)) && !Ends(m, step, id)
  {
    MayAct(m.records[id], step.caller, step.checkedAt);
    hide OwnerAccepts, EnforceOwner, Allowed;
  }

  lemma OtherStepTells(m: Manager, step: Step, id: nat, past: Past)
    requires id in m.records && id in Next(m, step).records && Landed(m, id) && RunningAs(m.records[id], past)
    requires !((step.Internal? || step.Client?) && step.id == id)
    ensures RunningAs(Next(m, step).records[id], PastNext(past, m, step, id)) && !Ends(m, step, id)
  {
    StepShape(m, step, id);
    hide Next, Happen, Perform, Enabled, OwnerAccepts;
  }

  /** A finished record is never touched again. */
  lemma EndedStays(m: Manager, step: Step, id: nat)
    requires id in m.records && id in Next(m, step).records && Landed(m, id)
    requires m.records[id].status != Running && m.records[id].phase == Ended
    ensures Next(m, step).records[id] == m.records[id] && !Ends(m, step, id)
  {
    StepShape(m, step, id);
    hide Next;
  }

  ghost predicate Untouched(past: Past) {
    past == Past(false, false, false, false, false, (0, 0), false, false)
  }

  /** The run up to any moment tells the record. */
  ghost predicate Told(m: Manager, begun: Manager, steps: seq<Step>, id: nat, origin: Rec) {
    && (id in m.starting ==> id !in m.records && m.starting[id] == origin && Untouched(PastOf(begun, steps, id)))
    && (id in m.starting ==> !HasEnded(begun, steps, id))
    && (id in m.records ==> Landed(m, id) && TellsRecord(m.records[id], begun, steps, id))
  }

  ghost predicate TellsRecord(r: Rec, begun: Manager, steps: seq<Step>, id: nat) {
    || (RunningAs(r, PastOf(begun, steps, id)) && !HasEnded(begun, steps, id))
    || (exists k :: 0 <= k < |steps| && LastEnd(r, begun, steps, id, k))
  }

  /** The session ended at step `k`, once and for all. */
  ghost predicate LastEnd(r: Rec, begun: Manager, steps: seq<Step>, id: nat, k: nat)
    requires k < |steps|
  {
    && r.status != Running && EndsAt(begun, steps, id, k)
    && (forall j :: 0 <= j < |steps| && EndsAt(begun, steps, id, j) ==> j == k)
    && EndedAs(r, steps[k].event, steps[k].now, PastOf(begun, steps[..k], id))
  }

  lemma OriginRuns(draw: Step)
    requires draw.Draw?
    ensures RunningAs(Drawn(draw), Past(false, false, false, false, false, (0, 0), false, false))
  {
  }

  lemma StaysEnded(r: Rec, begun: Manager, steps: seq<Step>, id: nat, k: nat)
    requires steps != [] && k + 1 < |steps| && LastEnd(r, begun, steps[..|steps| - 1], id, k)
    requires !Ends(Run(begun, steps[..|steps| - 1]), steps[|steps| - 1], id)
    ensures LastEnd(r, begun, steps, id, k)
  {
    hide EndsAt, EndedAs, PastOf, Ends, Run;
    var before := steps[..|steps| - 1];
    forall j | 0 <= j < |steps| && EndsAt(begun, steps, id, j) ensures j == k {
      if j + 1 < |steps| { EarlierSteps(begun, steps, id, j); } else { LastStep(begun, steps, id); }
    }
    EarlierSteps(begun, steps, id, k);
    assert steps[..k] == before[..k];
  }

  lemma EndsNow(r: Rec, begun: Manager, steps: seq<Step>, id: nat)
    requires steps != [] && !HasEnded(begun, steps[..|steps| - 1], id)
    requires Ends(Run(begun, steps[..|steps| - 1]), steps[|steps| - 1], id) && r.status != Running
    requires EndedAs(r, steps[|steps| - 1].event, steps[|steps| - 1].now, PastOf(begun, steps[..|steps| - 1], id))
    ensures LastEnd(r, begun, steps, id, |steps| - 1)
  {
    hide EndsAt, EndedAs, PastOf, Ends, Run;
    LastStep(begun, steps, id);
    forall j | 0 <= j < |steps| && EndsAt(begun, steps, id, j) ensures j == |steps| - 1 {
      if j + 1 < |steps| { EarlierSteps(begun, steps, id, j); }
    }
  }

  lemma EndedIsOver(r: Rec, e: Event, now: int, past: Past)
    requires EndedAs(r, e, now, past) && (e.PrepareFails? || e.StartFails? || e.ProcessEnds?)
    ensures r.status != Running && r.phase == Ended
  {
  }

  lemma RecordStep(begun: Manager, steps: seq<Step>, id: nat)
    requires steps != []
    requires var mid := Run(begun, steps[..|steps| - 1]); var m := Run(begun, steps);
             id in mid.records && Landed(mid, id) && id in m.records
             && TellsRecord(mid.records[id], begun, steps[..|steps| - 1], id)
    ensures TellsRecord(Run(begun, steps).records[id], begun, steps, id)
  {
    var before, last := steps[..|steps| - 1], steps[|steps| - 1];
    var mid := Run(begun, before);
    var past := PastOf(begun, before, id);
    assert Run(begun, steps) == Next(mid, last);
    var r := Next(mid, last).records[id];
    hide Run, Next, PastOf, PastNext, RunningAs, EndedAs, HasEnded, Ends, Landed;
    PastSnoc(begun, steps, id);
    KilledSnoc(begun, steps, id);
    if RunningAs(mid.records[id], past) && !HasEnded(begun, before, id) {
      if last.Internal? && last.id == id {
        InternalTells(mid, last, id, past);
        if Ends(mid, last, id) { EndedHere(mid, last, id, r, past); EndsNow(r, begun, steps, id); }
      } else if last.Client? && last.id == id {
        ClientTells(mid, last, id, past);
      } else {
        OtherStepTells(mid, last, id, past);
      }
    } else {
      var k :| 0 <= k < |before| && LastEnd(mid.records[id], begun, before, id, k);
      EndKind(begun, before, id, k);
      EndedIsOver(mid.records[id], before[k].event, before[k].now, PastOf(begun, before[..k], id));
      EndedStays(mid, last, id);
      StaysEnded(r, begun, steps, id, k);
    }
  }

  lemma EndedHere(m: Manager, step: Step, id: nat, r: Rec, past: Past)
    requires Ends(m, step, id) && EndedAs(r, step.event, step.now, past)
    ensures r.status != Running
  {
    hide Enabled;
  }

  lemma EndKind(m: Manager, steps: seq<Step>, id: nat, k: nat)
    requires k < |steps| && EndsAt(m, steps, id, k)
    ensures steps[k].Internal?
    ensures steps[k].event.PrepareFails? || steps[k].event.StartFails? || steps[k].event.ProcessEnds?
  {
    hide Enabled, Run;
  }

  /** Nothing happens to a session that is not in the map. */
  lemma AbsentIsUntouched(m: Manager, step: Step, id: nat, past: Past)
    requires id !in m.records && Untouched(past)
    ensures Untouched(PastNext(past, m, step, id)) && !Ends(m, step, id)
  {
    hide Enabled, OwnerAccepts;
  }

  lemma ToldStep(begun: Manager, steps: seq<Step>, id: nat, draw: Step)
    requires steps != [] && draw.Draw? && 0 < id <= Run(begun, steps[..|steps| - 1]).nextId
    requires Told(Run(begun, steps[..|steps| - 1]), begun, steps[..|steps| - 1], id, Drawn(draw))
    ensures Told(Run(begun, steps), begun, steps, id, Drawn(draw)) && 0 < id <= Run(begun, steps).nextId
  {
    var before, last := steps[..|steps| - 1], steps[|steps| - 1];
    var mid, m := Run(begun, before), Run(begun, steps);
    assert m == Next(mid, last);
    IdsGrow(mid, last);
    if id in mid.records {
      LandedStep(mid, last, id);
      if id in m.records { RecordStep(begun, steps, id); }
    } else if id in mid.starting {
      PastSnoc(begun, steps, id);
      KilledSnoc(begun, steps, id);
      AbsentIsUntouched(mid, last, id, PastOf(begun, before, id));
      OriginRuns(draw);
      hide Run, PastOf, PastNext, RunningAs, EndedAs, HasEnded, Ends, Drawn, LastEnd;
      StartingStep(mid, last, id);
    } else {
      StepNeverReuses(mid, last, id);
    }
  }

  lemma LandedStep(m: Manager, step: Step, id: nat)
    requires Landed(m, id)
    ensures Landed(Next(m, step), id)
  {
  }

  lemma StartingStep(m: Manager, step: Step, id: nat)
    requires id in m.starting && id !in m.records && id <= m.nextId
    ensures var after := Next(m, step);
            || (id in after.starting && id !in after.records && after.starting[id] == m.starting[id])
            || (id !in after.starting && id in after.records && after.records[id] == m.starting[id] && Landed(after, id))
  {
  }

  lemma {:induction false} ToldAlways(m: Manager, draw: Step, steps: seq<Step>)
    requires draw.Draw? && AllHealthy(m)
    ensures var begun := Next(m, draw);
            Told(Run(begun, steps), begun, steps, begun.nextId, Drawn(draw))
            && 0 < begun.nextId <= Run(begun, steps).nextId
  {
    var begun := Next(m, draw);
    if steps == [] {
      ToldBegins(m, draw);
    } else {
      hide Next, Told, Run;
      ToldAlways(m, draw, steps[..|steps| - 1]);
      ToldStep(begun, steps, begun.nextId, draw);
    }
  }

  lemma ToldBegins(m: Manager, draw: Step)
    requires draw.Draw? && AllHealthy(m)
    ensures var begun := Next(m, draw); Told(begun, begun, [], begun.nextId, Drawn(draw)) && begun.nextId > 0
  {
  }

  // --- the results ---

  /** Over any run from the draw of its id, a session is running exactly until one of its ends occurs. */
  lemma RunsUntilItEnds(m: Manager, draw: Step, steps: seq<Step>)
    requires draw.Draw? && AllHealthy(m)
    ensures var begun := Next(m, draw); var id := begun.nextId; var end := Run(begun, steps);
            id in end.records ==>
              (end.records[id].status == Running <==> forall k :: 0 <= k < |steps| ==> !EndsAt(begun, steps, id, k))
  {
    ToldAlways(m, draw, steps);
    hide Next, Run, PastOf, EndedAs, EndsAt;
  }

  /** It ends with its process only after both streams were read to their end, and otherwise before a
      process was attached. How it ended is told by the end and what came before it: done after a clean exit that neither a
      kill, nor a terminating signal, nor an earlier deadline came before; timed out if the deadline came
      before any kill; failed with the exit code the process delivered, or because it never started;
      killed otherwise. */
  lemma FinalStatus(m: Manager, draw: Step, steps: seq<Step>, k: nat)
    requires draw.Draw? && AllHealthy(m) && k < |steps|
    requires var begun := Next(m, draw); EndsAt(begun, steps, begun.nextId, k)
    requires var begun := Next(m, draw); begun.nextId in Run(begun, steps).records
    ensures steps[k].Internal?
    ensures var begun := Next(m, draw); var id := begun.nextId; var r := Run(begun, steps).records[id];
            var before, e := steps[..k], steps[k].event;
            var killed := WasKilled(begun, before, id) || WasTerminated(begun, before, id);
            var late := WasLate(begun, before, id);
            && r.finishedAt == steps[k].now
            && (e.ProcessEnds? <==> WasAttached(begun, before, id))
            && (e.ProcessEnds? ==> WasDrained(begun, before, id, Out) && WasDrained(begun, before, id, Err))
            && (r.status == Done <==> e == ProcessEnds(None) && !killed && !late)
            && (r.status == TimedOut <==> e.ProcessEnds? && late)
            && (r.status == Killed <==>
                  (e.ProcessEnds? && !late && killed) || (e.StartFails? && WasKilled(begun, before, id)))
            && (r.status == Failed <==>
                  || e.PrepareFails? || (e.StartFails? && !WasKilled(begun, before, id))
                  || (e.ProcessEnds? && e.exit.Some? && !killed && !late))
            && r.exitCode == (if e.ProcessEnds? && e.exit.Some? && !killed && !late then e.exit.value else 0)
            && (r.status == Done ==> r.errorCode == "") && (r.status == TimedOut ==> r.errorCode == "command_timeout")
            && (r.status == Killed ==> r.errorCode == "command_killed")
            && (r.status == Failed ==>
                  r.errorCode == match e case PrepareFails(code) => code case StartFails => "command_spawn_failed"
                                         case _ => "nonzero_exit")
  {
    ToldAlways(m, draw, steps);
    var begun := Next(m, draw);
    EndKind(begun, steps, begun.nextId, k);
    hide Next, Run, EndsAt, WasKilled, WasTerminated, WasLate, WasAttached, StillOpen, Size, WasDrained, RunningAs;
  }

  /** While it runs, input reaches the process exactly after it was attached and until a kill; a process is
      there once attached; and the dimensions are the last ones its owner set, on a terminal session. */
  lemma RunningMeans(m: Manager, draw: Step, steps: seq<Step>)
    requires draw.Draw? && AllHealthy(m)
    requires var begun := Next(m, draw); begun.nextId in Run(begun, steps).records
    ensures var begun := Next(m, draw); var id := begun.nextId; var r := Run(begun, steps).records[id];
            r.status == Running ==>
              && (Writable(r) <==> StillOpen(begun, steps, id))
              && (r.hasProcess <==> WasAttached(begun, steps, id))
              && (r.rows, r.cols) == Size(begun, steps, id)
  {
    ToldAlways(m, draw, steps);
    hide Next, Run, EndsAt, WasKilled, WasTerminated, WasLate, WasAttached, StillOpen, Size, WasDrained, EndedAs;
  }

  /** What can happen to it while it runs: its deadline at any time, a failed or a successful start until it is
      attached, output and the end of a stream from then until that stream was read to its end, and the end
      of the process after both were. */
  lemma WhatCanHappen(m: Manager, draw: Step, steps: seq<Step>, e: Event)
    requires draw.Draw? && AllHealthy(m)
    requires var begun := Next(m, draw); begun.nextId in Run(begun, steps).records
    ensures var begun := Next(m, draw); var id := begun.nextId; var r := Run(begun, steps).records[id];
            r.status == Running ==>
              && (e == DeadlineHits ==> Enabled(r, e))
              && (e.PrepareFails? || e.StartFails? || e.Spawns? ==> (Enabled(r, e) <==> !WasAttached(begun, steps, id)))
              && (e.Arrives? || e.StreamEnds? ==>
                    (Enabled(r, e) <==> WasAttached(begun, steps, id) && !WasDrained(begun, steps, id, e.stream)))
              && (e.ProcessEnds? ==>
                    (Enabled(r, e) <==> WasDrained(begun, steps, id, Out) && WasDrained(begun, steps, id, Err)))
  {
    ToldAlways(m, draw, steps);
    hide Next, Run, EndsAt, WasKilled, WasTerminated, WasLate, WasAttached, StillOpen, Size, WasDrained, EndedAs;
    var begun := Next(m, draw);
    var r := Run(begun, steps).records[begun.nextId];
    if r.status == Running { RunningCan(r, PastOf(begun, steps, begun.nextId), e); }
  }

  lemma RunningCan(r: Rec, past: Past, e: Event)
    requires RunningAs(r, past)
    ensures e == DeadlineHits ==> Enabled(r, e)
    ensures e.PrepareFails? || e.StartFails? || e.Spawns? ==> (Enabled(r, e) <==> !past.attached)
    ensures e.Arrives? || e.StreamEnds? ==>
      (Enabled(r, e) <==> past.attached && !(if e.stream == Out then past.outDrained else past.errDrained))
    ensures e.ProcessEnds? ==> (Enabled(r, e) <==> past.outDrained && past.errDrained)
  {
    if past.attached {
      var open := (if past.outDrained then {} else {Out}) + (if past.errDrained then {} else {Err});
      assert r.phase == Streaming(open);
      assert open == {} <==> past.outDrained && past.errDrained by {
        if !past.outDrained { assert Out in open; }
        if !past.errDrained { assert Err in open; }
      }
    }
  }
}
