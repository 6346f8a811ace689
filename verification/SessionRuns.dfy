/** All interleavings of the exec session manager: any order of session starts, garbage
    collections, lifecycle events and client operations, each step one lock-held section. */
module SessionRuns {
  import opened Options
  import opened Text
  import opened SessionRecords

  /** `starting` holds the sessions whose id is drawn but whose record is not yet in the map. */
  datatype Manager = Manager(records: map<nat, Rec>, starting: map<nat, Rec>, nextId: nat, retentionMs: int)

  /** What the lifecycle goroutine, the two streamers and the context do. */
  datatype Event = PrepareFails(code: string) | StartFails | Spawns | Arrives(stream: Stream, data: seq<byte>)
    | StreamEnds(stream: Stream) | DeadlineHits | ProcessEnds(exit: Option<int>)

  /** What a client asks for, with what the operating system makes of it: whether it delivers the signal,
      how many bytes the pipe takes and whether it breaks. */
  datatype Op = KillOp | SignalOp(signal: Signal, osAccepts: bool) | ResizeOp(rows: int, cols: int)
    | WriteOp(piped: nat, broken: bool) | ReadOp(cursor: int, maxBytes: int) | GetOp

  /** A start draws its id from the atomic counter first and inserts the record later, under the lock.
      A client operation is a collection at its own time (`Gc`, once or twice), an owner check
      at `checkedAt`, and the record section itself (`Client`), with anything in between. */
  datatype Step =
    | Draw(caller: Owner, now: int, timeoutSec: int, maxOutput: int, pty: bool)
    | Insert(id: nat, now: int)
    | Gc(now: int)
    | Internal(id: nat, event: Event, now: int)
    | Client(id: nat, caller: Owner, checkedAt: int, op: Op)

  predicate Enabled(r: Rec, e: Event) {
    match e
    case PrepareFails(_) => r.phase == Launching
    case StartFails => r.phase == Launching
    case Spawns => r.phase == Launching
    case Arrives(s, _) => r.phase.Streaming? && s in r.phase.open
    case StreamEnds(s) => r.phase.Streaming? && s in r.phase.open
    case DeadlineHits => r.phase != Ended
    case ProcessEnds(_) => r.phase == Streaming({})
  }

  function Happen(r: Rec, e: Event, now: int): Rec {
    if !Enabled(r, e) then r
    else
      match e
      case PrepareFails(code) => PrepareFailed(r, code, now)
      case StartFails => StartFailed(r, now)
      case Spawns => Spawned(r)
      case Arrives(_, data) => Append(r, data)
      case StreamEnds(s) => StreamClosed(r, s)
      case DeadlineHits => DeadlinePasses(r)
      case ProcessEnds(exit) => ProcessEnded(r, exit, now)
  }

  function Perform(r: Rec, op: Op): Rec {
    match op
    case KillOp => KillRec(r)
    case SignalOp(s, _) => SignalRec(r, s)
    case ResizeOp(rows, cols) => ResizeRec(r, rows, cols)
    case WriteOp(_, _) => r
    case ReadOp(_, _) => r
    case GetOp => r
  }

  predicate Expired(r: Rec, now: int, retentionMs: int) {
    Terminal(r.status) && r.finishedAt > 0 && now - r.finishedAt > retentionMs
  }

  function Collect(records: map<nat, Rec>, now: int, retentionMs: int): map<nat, Rec> {
    if retentionMs <= 0 then records
    else map id | id in records && !Expired(records[id], now, retentionMs) :: records[id]
  }

  predicate Allowed(r: Rec, caller: Owner, now: int) {
    EnforceOwner(r.owner, r.expiresAt, caller, now) == None
  }

  function Next(m: Manager, step: Step): Manager {
    match step
    case Draw(caller, now, timeoutSec, maxOutput, pty) =>
      m.(starting := m.starting[m.nextId + 1 := NewRec(caller, now, timeoutSec, maxOutput, pty)], nextId := m.nextId + 1)
    case Insert(id, now) =>
      if id in m.starting then
        m.(records := Collect(m.records, now, m.retentionMs)[id := m.starting[id]], starting := m.starting - {id})
      else m
    case Gc(now) => m.(records := Collect(m.records, now, m.retentionMs))
    case Internal(id, e, now) =>
      if id in m.records then m.(records := m.records[id := Happen(m.records[id], e, now)]) else m
    case Client(id, caller, at, op) =>
      if id in m.records && Allowed(m.records[id], caller, at) then
        m.(records := m.records[id := Perform(m.records[id], op)])
      else m
  }

  /** How the owner check in front of a client operation ends. */
  datatype Verdict = NoSuchSession | Refused(error: OwnerError) | Granted

  /** Collect, look up, check the owner, collect and look up again. */
  function Prologue(m: Manager, id: nat, caller: Owner, now: int, checkedAt: int, later: int): (Manager, Verdict) {
    var first := Next(m, Gc(now));
    if id !in first.records then (first, NoSuchSession)
    else
      var error := EnforceOwner(first.records[id].owner, first.records[id].expiresAt, caller, checkedAt);
      if error.Some? then (first, Refused(error.value))
      else
        var second := Next(first, Gc(later));
        (second, if id in second.records then Granted else NoSuchSession)
  }

  /** An operation is granted exactly to a caller the record's owner accepts, before it expires, on a
      record that survives both collections. */
  lemma GrantedIff(m: Manager, id: nat, caller: Owner, now: int, checkedAt: int, later: int)
    ensures Prologue(m, id, caller, now, checkedAt, later).1 == Granted <==>
            && id in m.records && OwnerAccepts(m.records[id].owner, caller)
            && (m.records[id].expiresAt <= 0 || checkedAt <= m.records[id].expiresAt)
            && (m.retentionMs <= 0
                || m.records[id].status == Running || m.records[id].finishedAt <= 0
                || (now - m.records[id].finishedAt <= m.retentionMs && later - m.records[id].finishedAt <= m.retentionMs))
  {
    if id in m.records { OwnerCheckMeaning(m.records[id], caller, checkedAt); }
    hide EnforceOwner, OwnerAccepts;
  }

  // --- what clients are told ---

  datatype Answer = Absent | Rejected(error: OwnerError) | KillTaken(killed: bool) | Code(code: string)
    | Written(written: nat, code: string) | Data(chunk: Chunk) | Snapshot(rec: Rec)

  function AnswerOf(r: Rec, op: Op): Answer {
    match op
    case KillOp => KillTaken(r.status == Running)
    case SignalOp(s, osAccepts) => Code(SignalCode(r, s, osAccepts))
    case ResizeOp(rows, cols) => Code(ResizeCode(r, rows, cols))
    case WriteOp(piped, broken) => Written(WriteAnswer(r, piped, broken).0, WriteAnswer(r, piped, broken).1)
    case ReadOp(cursor, maxBytes) => Data(ReadRec(r, cursor, maxBytes))
    case GetOp => Snapshot(r)
  }

  function Answered(m: Manager, step: Step): Answer
    requires step.Client?
  {
    if step.id !in m.records then Absent
    else
      var r := m.records[step.id];
      match EnforceOwner(r.owner, r.expiresAt, step.caller, step.checkedAt)
      case Some(error) => Rejected(error)
      case None => AnswerOf(r, step.op)
  }

  function Listed(m: Manager, caller: Owner, at: int): map<nat, Rec> {
    map id | id in m.records && Allowed(m.records[id], caller, at) :: m.records[id]
  }

  /** The answer behind a verdict. */
  function Reported(verdict: Verdict, granted: Answer): Answer {
    match verdict
    case NoSuchSession => Absent
    case Refused(error) => Rejected(error)
    case Granted => granted
  }

  /** The prologue's verdict is what the record section would say at its end. */
  lemma PrologueAnswers(m: Manager, id: nat, caller: Owner, now: int, checkedAt: int, later: int, op: Op)
    ensures var (after, verdict) := Prologue(m, id, caller, now, checkedAt, later);
            && (verdict == Granted ==> id in after.records)
            && Answered(after, Client(id, caller, checkedAt, op))
               == Reported(verdict, if id in after.records then AnswerOf(after.records[id], op) else Absent)
  {
    hide EnforceOwner, Expired, AnswerOf;
  }

  function Run(m: Manager, steps: seq<Step>): Manager {
    if steps == [] then m else Next(Run(m, steps[..|steps| - 1]), steps[|steps| - 1])
  }

  lemma {:induction false} RunConcat(m: Manager, a: seq<Step>, b: seq<Step>)
    ensures Run(m, a + b) == Run(Run(m, a), b)
  {
    if b == [] {
      assert a + b == a;
    } else {
      RunConcat(m, a, b[..|b| - 1]);
      assert (a + b)[..|a + b| - 1] == a + b[..|b| - 1];
    }
  }

  /** The clock reads positive times. */
  ghost predicate ClockPositive(steps: seq<Step>) {
    forall i :: 0 <= i < |steps| && steps[i].Internal? ==> steps[i].now > 0
  }

  // --- what every interleaving keeps of a record ---

  ghost predicate Healthy(r: Rec) {
    && (Terminal(r.status) <==> r.finishedAt > 0)
    && (Terminal(r.status) <==> r.phase == Ended)
    && (Terminal(r.status) ==> !r.stdinOpen)
    && (Terminal(r.status) && r.killRequested ==> r.status != Done)
    && (r.phase == Launching ==> !r.stdinOpen && !r.hasProcess)
  }

  ghost predicate AllHealthy(m: Manager) {
    && (forall id :: id in m.records ==> Healthy(m.records[id]) && 0 < id <= m.nextId)
    && (forall id :: id in m.starting ==>
          && Healthy(m.starting[id]) && m.starting[id].stdout == [] && !m.starting[id].truncated
          && 0 < id <= m.nextId && id !in m.records)
  }

  /** The id has been given out and its session is no longer on the way into the map. */
  predicate Landed(m: Manager, id: nat) {
    id <= m.nextId && id !in m.starting
  }

  /** How a record may change in one step, whoever takes it. */
  ghost predicate Evolves(before: Rec, after: Rec) {
    && (Terminal(before.status) ==> after == before)
    && (before.killRequested ==> after.killRequested)
    && before.stdout <= after.stdout
    && (before.truncated ==> after.truncated)
    && after.owner == before.owner && after.maxOutput == before.maxOutput
    && after.expiresAt == before.expiresAt && after.pty == before.pty
  }

  lemma HappenEvolves(r: Rec, e: Event, now: int)
    requires Healthy(r) && now > 0
    ensures Healthy(Happen(r, e, now)) && Evolves(r, Happen(r, e, now))
  {
    if Enabled(r, e) {
      match e
      case Arrives(_, data) => AppendEvolves(r, data);
      case ProcessEnds(exit) => EndingEvolves(r, exit, now);
      case StartFails => StartFailureEvolves(r, now);
      case _ =>
    }
  }

  lemma EndingEvolves(r: Rec, exit: Option<int>, now: int)
    requires Healthy(r) && now > 0 && r.status == Running
    ensures Healthy(ProcessEnded(r, exit, now)) && Evolves(r, ProcessEnded(r, exit, now))
  {
    EndingStaysHealthy(r, exit, now);
    hide Healthy;
  }

  lemma EndingStaysHealthy(r: Rec, exit: Option<int>, now: int)
    requires Healthy(r) && now > 0 && r.status == Running
    ensures Healthy(ProcessEnded(r, exit, now))
  {
  }

  lemma StartFailureEvolves(r: Rec, now: int)
    requires Healthy(r) && now > 0 && r.phase == Launching
    ensures Healthy(StartFailed(r, now)) && Evolves(r, StartFailed(r, now))
  {
  }

  lemma AppendEvolves(r: Rec, data: seq<byte>)
    ensures r.stdout <= Append(r, data).stdout
    ensures Append(r, data) == r.(stdout := Append(r, data).stdout, truncated := Append(r, data).truncated)
    ensures r.truncated ==> Append(r, data) == r
  {
  }

  lemma PerformEvolves(r: Rec, op: Op)
    requires Healthy(r)
    ensures Healthy(Perform(r, op)) && Evolves(r, Perform(r, op))
  {
  }

  /** A step leaves a surviving record alone, or is one section on that record. */
  lemma StepShape(m: Manager, step: Step, id: nat)
    requires id in m.records && id in Next(m, step).records && Landed(m, id)
    ensures var before, after := m.records[id], Next(m, step).records[id];
            || after == before
            || (step.Internal? && step.id == id && after == Happen(before, step.event, step.now))
            || (step.Client? && step.id == id && after == Perform(before, step.op))
  {
  }

  lemma StepEvolves(m: Manager, step: Step, id: nat)
    requires AllHealthy(m) && (step.Internal? ==> step.now > 0)
    requires id in m.records && id in Next(m, step).records
    ensures Healthy(Next(m, step).records[id]) && Evolves(m.records[id], Next(m, step).records[id])
  {
    StepShape(m, step, id);
    if step.Internal? && step.id == id { HappenEvolves(m.records[id], step.event, step.now); }
    if step.Client? && step.id == id { PerformEvolves(m.records[id], step.op); }
  }

  lemma DrawnIsHealthy(draw: Step)
    requires draw.Draw?
    ensures var r := NewRec(draw.caller, draw.now, draw.timeoutSec, draw.maxOutput, draw.pty);
            Healthy(r) && r.stdout == [] && !r.truncated
  {
  }

  lemma HealthyKept(m: Manager, step: Step)
    requires AllHealthy(m) && (step.Internal? ==> step.now > 0)
    ensures AllHealthy(Next(m, step))
  {
    forall id | id in Next(m, step).records
      ensures Healthy(Next(m, step).records[id]) && 0 < id <= Next(m, step).nextId
    {
      if id in m.records { StepEvolves(m, step, id); }
    }
    if step.Draw? { DrawnIsHealthy(step); }
  }

  /** An id that was given out and is gone never comes back. */
  lemma StepNeverReuses(m: Manager, step: Step, id: nat)
    requires Landed(m, id) && id !in m.records
    ensures Landed(Next(m, step), id) && id !in Next(m, step).records
  {
  }

  /** From the moment the record of an id is gone, the id is gone for good, however many starts draw
      and insert in any order. */
  lemma {:induction false} IdsNeverReused(m: Manager, steps: seq<Step>, id: nat)
    requires Landed(m, id) && id !in m.records
    ensures Landed(Run(m, steps), id) && id !in Run(m, steps).records
  {
    if steps != [] {
      var before := steps[..|steps| - 1];
      IdsNeverReused(m, before, id);
      StepNeverReuses(Run(m, before), steps[|steps| - 1], id);
    }
  }

  lemma {:induction false} HealthyAlways(m: Manager, steps: seq<Step>)
    requires AllHealthy(m) && ClockPositive(steps)
    ensures AllHealthy(Run(m, steps))
  {
    if steps != [] {
      HealthyAlways(m, steps[..|steps| - 1]);
      HealthyKept(Run(m, steps[..|steps| - 1]), steps[|steps| - 1]);
    }
  }

  lemma {:induction false} StaysLanded(m: Manager, steps: seq<Step>, id: nat)
    requires Landed(m, id)
    ensures Landed(Run(m, steps), id)
  {
    if steps != [] { StaysLanded(m, steps[..|steps| - 1], id); }
  }

  /** Main lifecycle result, over every interleaving: invariants hold in every reachable state,
      a terminal record is frozen, a kill request is never forgotten, output only grows by
      extension, and the owner tuple never changes. */
  lemma {:induction false} Lifecycle(m: Manager, steps: seq<Step>, id: nat)
    requires AllHealthy(m) && ClockPositive(steps)
    requires id in m.records && id in Run(m, steps).records
    ensures AllHealthy(Run(m, steps))
    ensures Evolves(m.records[id], Run(m, steps).records[id])
  {
    HealthyAlways(m, steps);
    if steps != [] {
      var before := steps[..|steps| - 1];
      var mid := Run(m, before);
      HealthyAlways(m, before);
      if id !in mid.records {
        StaysLanded(m, before, id);
        StepNeverReuses(mid, steps[|steps| - 1], id);
      } else {
        Lifecycle(m, before, id);
        StepEvolves(mid, steps[|steps| - 1], id);
      }
    }
  }

  /** After a kill that reported success, or a terminate or kill signal that reached a process,
      the session never ends "done". */
  lemma KilledNeverDone(m: Manager, id: nat, caller: Owner, at: int, op: Op, steps: seq<Step>)
    requires AllHealthy(m) && ClockPositive(steps) && id in m.records
    requires Allowed(m.records[id], caller, at) && m.records[id].status == Running
    requires op == KillOp || (m.records[id].hasProcess && op.SignalOp? && (op.signal == Terminate || op.signal == Kill))
    ensures var end := Run(Next(m, Client(id, caller, at, op)), steps);
            id in end.records ==> end.records[id].killRequested && end.records[id].status != Done
  {
    var killed := Next(m, Client(id, caller, at, op));
    HealthyKept(m, Client(id, caller, at, op));
    if id in Run(killed, steps).records { Lifecycle(killed, steps, id); }
  }

  /** A record disappears only through a collection that found it finished and past retention. */
  lemma {:induction false} RemovalExplained(m: Manager, steps: seq<Step>, id: nat) returns (k: nat)
    requires id in m.records && id !in Run(m, steps).records && Landed(m, id)
    ensures k < |steps| && (steps[k].Gc? || steps[k].Insert?)
    ensures var at := Run(m, steps[..k]);
            && id in at.records && at.retentionMs > 0 && at.records[id].status != Running
            && at.records[id].finishedAt > 0 && steps[k].now - at.records[id].finishedAt > at.retentionMs
  {
    var before, last := steps[..|steps| - 1], steps[|steps| - 1];
    if id in Run(m, before).records {
      k := |steps| - 1;
      StaysLanded(m, before, id);
      assert steps[..k] == before;
    } else {
      k := RemovalExplained(m, before, id);
      assert steps[..k] == before[..k];
    }
  }

  // --- output capture ---

  function Take(s: seq<byte>, n: nat): seq<byte> {
    if |s| <= n then s else s[..n]
  }

  /** The bytes one step delivers to session `id`. */
  function Delivered(m: Manager, step: Step, id: nat): seq<byte> {
    if step.Internal? && step.id == id && id in m.records && step.event.Arrives? && Enabled(m.records[id], step.event)
    then step.event.data else []
  }

  /** The bytes both streams delivered to session `id`, in arrival order. */
  function Arrived(m: Manager, steps: seq<Step>, id: nat): seq<byte> {
    if steps == [] then []
    else
      var before := steps[..|steps| - 1];
      Arrived(m, before, id) + Delivered(Run(m, before), steps[|steps| - 1], id)
  }

  /** The specification of capture: the first `maxOutput` bytes, and a flag for anything beyond. */
  ghost predicate Captures(r: Rec, bytes: seq<byte>) {
    && r.stdout == Take(bytes, Cap(r.maxOutput))
    && (r.truncated <==> |bytes| > Cap(r.maxOutput))
  }

  lemma AppendCaptures(r: Rec, bytes: seq<byte>, chunk: seq<byte>)
    requires Captures(r, bytes)
    ensures Captures(Append(r, chunk), bytes + chunk)
  {
    var n := Cap(r.maxOutput);
    if chunk == [] {
      assert bytes + chunk == bytes;
    } else if |bytes| > n {
      assert Take(bytes + chunk, n) == Take(bytes, n);
    } else {
      assert r.stdout == bytes;
      if |bytes| + |chunk| > n { assert (bytes + chunk)[..n] == bytes + chunk[..n - |bytes|]; }
    }
  }

  /** Fields nothing ever writes. */
  ghost predicate SameFixed(before: Rec, after: Rec) {
    before.owner == after.owner && before.maxOutput == after.maxOutput
  }

  ghost predicate SameOutput(before: Rec, after: Rec) {
    SameFixed(before, after) && after.stdout == before.stdout && after.truncated == before.truncated
  }

  lemma HappenKeepsOutput(r: Rec, e: Event, now: int)
    ensures SameFixed(r, Happen(r, e, now))
    ensures !(e.Arrives? && Enabled(r, e)) ==> SameOutput(r, Happen(r, e, now))
  {
    hide Append, PrepareFailed, StartFailed, Spawned, StreamClosed, DeadlinePasses, ProcessEnded;
    match e
    case Arrives(_, data) => AppendEvolves(r, data);
    case ProcessEnds(exit) => EndingKeepsOutput(r, exit, now);
    case _ => LifecycleKeepsOutput(r, e, now);
  }

  lemma LifecycleKeepsOutput(r: Rec, e: Event, now: int)
    ensures e.PrepareFails? ==> SameOutput(r, PrepareFailed(r, e.code, now))
    ensures SameOutput(r, StartFailed(r, now)) && SameOutput(r, Spawned(r)) && SameOutput(r, DeadlinePasses(r))
    ensures e.StreamEnds? ==> SameOutput(r, StreamClosed(r, e.stream))
  {
  }

  lemma EndingKeepsOutput(r: Rec, exit: Option<int>, now: int)
    ensures SameOutput(r, ProcessEnded(r, exit, now))
  {
    var closed := r.(stdinOpen := false);
    assert SameOutput(r, closed);
    FinishKeepsOutput(closed, TimedOut, "command_timeout", r.exitCode, now);
    FinishKeepsOutput(closed, Killed, "command_killed", r.exitCode, now);
    if exit.Some? { FinishKeepsOutput(closed, Failed, "nonzero_exit", exit.value, now); }
    hide Finish;
  }

  lemma FinishKeepsOutput(r: Rec, status: Status, code: string, exitCode: int, now: int)
    ensures SameOutput(r, Finish(r, status, code, exitCode, now))
  {
  }

  lemma PerformKeepsOutput(r: Rec, op: Op)
    ensures SameOutput(r, Perform(r, op))
  {
  }

  lemma OtherStepsKeepOutput(m: Manager, step: Step, id: nat)
    requires id in m.records && id in Next(m, step).records && Landed(m, id)
    ensures SameFixed(m.records[id], Next(m, step).records[id])
    ensures !(step.Internal? && step.id == id && step.event.Arrives? && Enabled(m.records[id], step.event)) ==>
      SameOutput(m.records[id], Next(m, step).records[id])
  {
    hide Happen, Perform;
    StepShape(m, step, id);
    if step.Internal? { HappenKeepsOutput(m.records[id], step.event, step.now); }
    if step.Client? { PerformKeepsOutput(m.records[id], step.op); }
  }

  lemma {:induction false} FixedAlways(m: Manager, steps: seq<Step>, id: nat)
    requires id in m.records && id in Run(m, steps).records && Landed(m, id)
    ensures SameFixed(m.records[id], Run(m, steps).records[id])
  {
    if steps != [] {
      var before, last := steps[..|steps| - 1], steps[|steps| - 1];
      SurvivorWasThere(m, steps, id);
      FixedAlways(m, before, id);
      OtherStepsKeepOutput(Run(m, before), last, id);
    }
  }

  lemma SurvivorWasThere(m: Manager, steps: seq<Step>, id: nat)
    requires steps != [] && Landed(m, id) && id in Run(m, steps).records
    ensures id in Run(m, steps[..|steps| - 1]).records && Landed(Run(m, steps[..|steps| - 1]), id)
  {
    var before := steps[..|steps| - 1];
    StaysLanded(m, before, id);
    if id !in Run(m, before).records { StepNeverReuses(Run(m, before), steps[|steps| - 1], id); }
  }

  /** Output capture refines its specification under every interleaving of the two streams. */
  lemma {:induction false} CaptureRefines(m: Manager, steps: seq<Step>, id: nat, earlier: seq<byte>)
    requires id in m.records && id in Run(m, steps).records && Landed(m, id)
    requires Captures(m.records[id], earlier)
    ensures Captures(Run(m, steps).records[id], earlier + Arrived(m, steps, id))
  {
    hide Next, Captures, Delivered;
    if steps == [] {
      assert earlier + [] == earlier;
    } else {
      var before, last := steps[..|steps| - 1], steps[|steps| - 1];
      SurvivorWasThere(m, steps, id);
      CaptureRefines(m, before, id, earlier);
      CaptureStep(Run(m, before), last, id, earlier + Arrived(m, before, id));
      var data := Delivered(Run(m, before), last, id);
      assert (earlier + Arrived(m, before, id)) + data == earlier + (Arrived(m, before, id) + data);
    }
  }

  lemma CaptureStep(m: Manager, step: Step, id: nat, bytes: seq<byte>)
    requires id in m.records && id in Next(m, step).records && Landed(m, id)
    requires Captures(m.records[id], bytes)
    ensures Captures(Next(m, step).records[id], bytes + Delivered(m, step, id))
  {
    OtherStepsKeepOutput(m, step, id);
    if Delivered(m, step, id) == [] { assert bytes + [] == bytes; }
    if step.Internal? && step.id == id && step.event.Arrives? && Enabled(m.records[id], step.event) {
      AppendCaptures(m.records[id], bytes, step.event.data);
    }
  }

  function Drawn(draw: Step): Rec
    requires draw.Draw?
  {
    NewRec(draw.caller, draw.now, draw.timeoutSec, draw.maxOutput, draw.pty)
  }

  /** Where a session is between its draw and any later moment. */
  ghost predicate OnTrack(m: Manager, id: nat, origin: Rec, bytes: seq<byte>) {
    && 0 < id <= m.nextId
    && (id in m.starting ==> id !in m.records && m.starting[id] == origin && bytes == [])
    && (id in m.records ==> id !in m.starting && Captures(m.records[id], bytes) && SameFixed(origin, m.records[id]))
  }

  lemma TrackStep(m: Manager, step: Step, id: nat, origin: Rec, bytes: seq<byte>)
    requires OnTrack(m, id, origin, bytes) && origin.stdout == [] && !origin.truncated
    ensures OnTrack(Next(m, step), id, origin, bytes + Delivered(m, step, id))
  {
    assert bytes + [] == bytes;
    if id in m.records {
      if id in Next(m, step).records {
        CaptureStep(m, step, id, bytes);
        OtherStepsKeepOutput(m, step, id);
      }
    } else if id !in m.starting {
      StepNeverReuses(m, step, id);
    }
  }

  lemma {:induction false} TrackedAlways(m: Manager, draw: Step, steps: seq<Step>)
    requires draw.Draw? && AllHealthy(m)
    ensures var begun := Next(m, draw); var id := begun.nextId;
            OnTrack(Run(begun, steps), id, Drawn(draw), Arrived(begun, steps, id))
  {
    hide Captures, OnTrack, Delivered;
    var begun := Next(m, draw);
    var id := begun.nextId;
    if steps == [] {
      TrackBegins(m, draw);
    } else {
      var before := steps[..|steps| - 1];
      TrackedAlways(m, draw, before);
      TrackStep(Run(begun, before), steps[|steps| - 1], id, Drawn(draw), Arrived(begun, before, id));
    }
  }

  lemma TrackBegins(m: Manager, draw: Step)
    requires draw.Draw? && AllHealthy(m)
    ensures OnTrack(Next(m, draw), m.nextId + 1, Drawn(draw), [])
  {
  }

  /** The output of a session, from the draw of its id to any later moment. */
  lemma SessionOutput(m: Manager, draw: Step, steps: seq<Step>)
    requires draw.Draw? && AllHealthy(m)
    ensures var begun := Next(m, draw); var id := begun.nextId; var end := Run(begun, steps);
            id in end.records ==>
              && end.records[id].stdout == Take(Arrived(begun, steps, id), Cap(draw.maxOutput))
              && (end.records[id].truncated <==> |Arrived(begun, steps, id)| > Cap(draw.maxOutput))
  {
    hide Run, Arrived;
    TrackedAlways(m, draw, steps);
  }

  // --- cursor reads ---

  /** A client that starts at cursor 0 and feeds each NextCursor back. */
  datatype Reader = Reader(buffer: seq<byte>, cursor: nat)

  datatype Action = Manage(step: Step) | Poll(maxBytes: int)

  function PollOnce(m: Manager, id: nat, reader: Reader, maxBytes: int): Reader {
    if id !in m.records then reader
    else
      var c := ReadRec(m.records[id], reader.cursor, maxBytes);
      Reader(reader.buffer + c.data, c.next)
  }

  function Steps(actions: seq<Action>): seq<Step> {
    if actions == [] then []
    else
      Steps(actions[..|actions| - 1])
      + if actions[|actions| - 1].Manage? then [actions[|actions| - 1].step] else []
  }

  function Read(m: Manager, id: nat, reader: Reader, actions: seq<Action>): Reader {
    if actions == [] then reader
    else
      var before, last := actions[..|actions| - 1], actions[|actions| - 1];
      var r := Read(m, id, reader, before);
      if last.Poll? then PollOnce(Run(m, Steps(before)), id, r, last.maxBytes) else r
  }

  ghost predicate InSync(reader: Reader, r: Rec) {
    reader.cursor <= |r.stdout| && reader.buffer == r.stdout[..reader.cursor]
  }

  /** One poll keeps the buffer a prefix of the output and makes progress while bytes remain. */
  lemma PollProgress(r: Rec, reader: Reader, maxBytes: int)
    requires InSync(reader, r)
    ensures var c := ReadRec(r, reader.cursor, maxBytes);
            && c.cursor == reader.cursor
            && InSync(Reader(reader.buffer + c.data, c.next), r)
            && c.next == reader.cursor + |c.data|
            && (reader.cursor < |r.stdout| ==> c.next > reader.cursor)
            && (|c.data| < EffectiveMax(maxBytes) <==> c.next == |r.stdout| && reader.cursor + EffectiveMax(maxBytes) > |r.stdout|)
  {
    var c := ReadRec(r, reader.cursor, maxBytes);
    assert r.stdout[..reader.cursor] + r.stdout[reader.cursor..c.next] == r.stdout[..c.next];
  }

  /** The reader matches the session: nothing read before the record exists, a prefix while it does. */
  ghost predicate Following(m: Manager, id: nat, reader: Reader) {
    && (id in m.starting ==> id !in m.records && reader == Reader([], 0))
    && (id in m.records ==> InSync(reader, m.records[id]))
  }

  lemma FollowingPoll(m: Manager, id: nat, reader: Reader, maxBytes: int)
    requires Following(m, id, reader)
    ensures Following(m, id, PollOnce(m, id, reader, maxBytes))
  {
    if id in m.records { PollProgress(m.records[id], reader, maxBytes); }
  }

  lemma FollowingStep(m: Manager, id: nat, reader: Reader, step: Step)
    requires AllHealthy(m) && (step.Internal? ==> step.now > 0) && 0 < id <= m.nextId && Following(m, id, reader)
    ensures Following(Next(m, step), id, reader)
  {
    if id in m.records {
      if id in Next(m, step).records {
        hide Next;
        StepEvolves(m, step, id);
        StepNeverReturns(m, step, id);
      }
    } else if id !in m.starting {
      StepNeverReuses(m, step, id);
    }
  }

  /** A session that is in the map never starts again. */
  lemma StepNeverReturns(m: Manager, step: Step, id: nat)
    requires AllHealthy(m) && id in m.records
    ensures id !in Next(m, step).starting
  {
  }

  /** Interleaved with anything, the reader always holds a prefix of the output. */
  lemma {:induction false} ReaderHoldsPrefix(m: Manager, id: nat, reader: Reader, actions: seq<Action>)
    requires AllHealthy(m) && ClockPositive(Steps(actions)) && 0 < id <= m.nextId && Following(m, id, reader)
    ensures Following(Run(m, Steps(actions)), id, Read(m, id, reader, actions))
    ensures id <= Run(m, Steps(actions)).nextId
  {
    if actions != [] {
      hide Following, AllHealthy, Next;
      var before, last := actions[..|actions| - 1], actions[|actions| - 1];
      var mid := Run(m, Steps(before));
      if last.Poll? {
        assert Steps(actions) == Steps(before) + [];
        assert Steps(actions) == Steps(before);
        ReaderHoldsPrefix(m, id, reader, before);
        FollowingPoll(mid, id, Read(m, id, reader, before), last.maxBytes);
      } else {
        assert Steps(actions) == Steps(before) + [last.step];
        assert Steps(actions)[..|Steps(actions)| - 1] == Steps(before);
        assert Steps(actions)[|Steps(before)|] == last.step;
        assert ClockPositive(Steps(before));
        HealthyAlways(m, Steps(before));
        ReaderHoldsPrefix(m, id, reader, before);
        FollowingStep(mid, id, Read(m, id, reader, before), last.step);
        IdsGrow(mid, last.step);
      }
    }
  }

  lemma IdsGrow(m: Manager, step: Step)
    ensures m.nextId <= Next(m, step).nextId
  {
  }

  /** A poll that shows a terminal status and a short chunk completes the output: the buffer
      holds everything the session captured, and no later step can add to it. */
  lemma TerminalShortReadCompletes(m: Manager, draw: Step, actions: seq<Action>, maxBytes: int, more: seq<Step>)
    requires draw.Draw? && AllHealthy(m) && ClockPositive(Steps(actions)) && ClockPositive(more)
    requires var begun := Next(m, draw); var id := begun.nextId;
             var now := Run(begun, Steps(actions));
             && id in now.records
             && (var c := ReadRec(now.records[id], Read(begun, id, Reader([], 0), actions).cursor, maxBytes);
                 Terminal(c.status) && |c.data| < EffectiveMax(maxBytes))
    ensures var begun := Next(m, draw); var id := begun.nextId;
            var now := Run(begun, Steps(actions)); var later := Run(now, more);
            var buffer := PollOnce(now, id, Read(begun, id, Reader([], 0), actions), maxBytes).buffer;
            && buffer == Take(Arrived(begun, Steps(actions), id), Cap(draw.maxOutput))
            && (id in later.records ==> buffer == later.records[id].stdout)
  {
    hide Run, Arrived, Read, Steps, AllHealthy, ClockPositive, Healthy;
    var begun := Next(m, draw);
    var id := begun.nextId;
    var now := Run(begun, Steps(actions));
    HealthyKept(m, draw);
    DrawnFollows(m, draw);
    HealthyAlways(begun, Steps(actions));
    ReaderHoldsPrefix(begun, id, Reader([], 0), actions);
    PollProgress(now.records[id], Read(begun, id, Reader([], 0), actions), maxBytes);
    SessionOutput(m, draw, Steps(actions));
    if id in Run(now, more).records { Lifecycle(now, more, id); }
  }

  lemma DrawnFollows(m: Manager, draw: Step)
    requires draw.Draw? && AllHealthy(m)
    ensures Following(Next(m, draw), m.nextId + 1, Reader([], 0))
  {
  }

  // --- owner non-interference ---

  /** A client step by someone the owner tuple does not accept. */
  predicate Foreign(step: Step, owner: Owner) {
    step.Client? && !OwnerAccepts(owner, step.caller)
  }

  /** The run without the record operations of foreign callers; their collections stay. */
  function Purge(steps: seq<Step>, owner: Owner): seq<Step> {
    if steps == [] then []
    else
      Purge(steps[..|steps| - 1], owner)
      + if Foreign(steps[|steps| - 1], owner) then [] else [steps[|steps| - 1]]
  }

  /** Two managers that agree on session `id` (its presence and every field) and on the counter. */
  ghost predicate Agree(a: Manager, b: Manager, id: nat) {
    && a.nextId == b.nextId && a.retentionMs == b.retentionMs && a.starting == b.starting
    && (id in a.records <==> id in b.records)
    && (id in a.records ==> a.records[id] == b.records[id])
  }

  lemma SameStepAgrees(a: Manager, b: Manager, step: Step, id: nat)
    requires Agree(a, b, id)
    ensures Agree(Next(a, step), Next(b, step), id)
  {
  }

  lemma ForeignStepInvisible(m: Manager, step: Step, id: nat, owner: Owner)
    requires Foreign(step, owner) && (id in m.records ==> m.records[id].owner == owner)
    ensures Agree(Next(m, step), m, id)
  {
  }

  /** Non-interference: removing every record operation of foreign callers from a run changes
      neither the presence nor any field of the session. */
  lemma {:induction false} OwnerNonInterference(m: Manager, steps: seq<Step>, id: nat)
    requires id in m.records && Landed(m, id)
    ensures Agree(Run(m, steps), Run(m, Purge(steps, m.records[id].owner)), id)
  {
    if steps != [] {
      var owner := m.records[id].owner;
      var before, last := steps[..|steps| - 1], steps[|steps| - 1];
      OwnerNonInterference(m, before, id);
      var kept := Purge(before, owner);
      if Foreign(last, owner) {
        assert Purge(steps, owner) == kept;
        if id in Run(m, before).records { FixedAlways(m, before, id); }
        ForeignStepInvisible(Run(m, before), last, id, owner);
      } else {
        assert Purge(steps, owner) == kept + [last];
        assert Purge(steps, owner)[..|kept|] == kept;
        SameStepAgrees(Run(m, before), Run(m, kept), last, id);
      }
    }
  }
}
