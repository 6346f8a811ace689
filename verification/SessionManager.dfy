/** The manager object: a map of shared records behind one lock. Every method is shown to be
    exactly the steps of `SessionRuns` that its lock-held sections take, so the results about
    all interleavings speak about these methods. */
module SessionManagers {
  import opened Options
  import opened SessionRecords
  import opened SessionRuns

  /** How the `*ForOwner` prologue ends. */
  datatype Admission = NotFound | Denied(error: OwnerError) | Admitted(rec: SessionRecord)

  function VerdictOf(a: Admission): Verdict {
    match a
    case NotFound => NoSuchSession
    case Denied(error) => Refused(error)
    case Admitted(_) => Granted
  }

  /** The section of record `rec` for an event of its goroutines. */
  method Section(rec: SessionRecord, e: Event, now: int)
    requires Enabled(rec.View(), e)
    modifies rec
    ensures rec.View() == Happen(old(rec.View()), e, now)
  {
    hide Append, PrepareFailed, StartFailed, Spawned, StreamClosed, DeadlinePasses, ProcessEnded;
    match e {
      case PrepareFails(code) => rec.FailPrepare(code, now);
      case StartFails => rec.FailStart(now);
      case Spawns => rec.AttachProcess();
      case Arrives(_, data) => rec.AppendOutput(data);
      case StreamEnds(stream) => rec.CloseStream(stream);
      case DeadlineHits => rec.PassDeadline();
      case ProcessEnds(exit) => rec.EndProcess(exit, now);
    }
  }

  lemma InsertShape(m: Manager, id: nat, now: int)
    requires id in m.starting
    ensures var collected := Next(m, Gc(now));
            Next(m, Insert(id, now))
            == collected.(records := collected.records[id := m.starting[id]], starting := m.starting - {id})
  {
  }

  class SessionManager {
    var sessions: map<nat, SessionRecord>
    var nextId: nat
    const retentionMs: int
    /** The records of starts that have drawn an id and not yet taken the lock. */
    ghost var starting: map<nat, Rec>

    /** No record is shared by two ids. */
    ghost predicate Valid()
      reads this
    {
      && (forall a, b :: a in sessions && b in sessions && a != b ==> sessions[a] != sessions[b])
      && (forall id :: id in sessions ==> id <= nextId)
      && (forall id :: id in starting ==> id <= nextId && id !in sessions)
    }

    ghost function View(): Manager
      reads this, sessions.Values
    {
      Manager(map id | id in sessions :: sessions[id].View(), starting, nextId, retentionMs)
    }

    constructor (retentionSec: int)
      ensures Valid() && sessions == map[] && starting == map[] && nextId == 0
      ensures retentionMs == if retentionSec > 0 then retentionSec * 1000 else 1800000
    {
      sessions, starting, nextId := map[], map[], 0;
      retentionMs := if retentionSec * 1000 <= 0 then 1800 * 1000 else retentionSec * 1000;
    }

    method GcExpired(now: int)
      requires Valid()
      modifies this`sessions
      ensures Valid() && View() == Next(old(View()), Gc(now))
      ensures forall id :: id in sessions ==> id in old(sessions) && sessions[id] == old(sessions)[id]
      ensures forall id :: id in old(sessions) ==>
        (id !in sessions <==>
           && retentionMs > 0 && old(sessions[id].status) != Running && old(sessions[id].finishedAt) > 0
           && now - old(sessions[id].finishedAt) > retentionMs)
    {
      hide Next, Collect, Expired;
      ghost var before := View();
      forall id | id in sessions
        ensures Expired(before.records[id], now, retentionMs) <==>
                sessions[id].status != Running && sessions[id].finishedAt > 0 && now - sessions[id].finishedAt > retentionMs
      {
        ExpiredMeans(before.records[id], now, retentionMs);
        assert sessions[id].View() == before.records[id];
      }
      if retentionMs <= 0 {
        CollectedView(before, now);
        return;
      }
      var todo := sessions.Keys;
      while todo != {}
        invariant todo <= sessions.Keys <= old(sessions).Keys
        invariant forall id :: id in sessions ==> sessions[id] == old(sessions)[id]
        invariant forall id :: id in old(sessions) ==>
          (id in sessions <==> id in todo || !Expired(before.records[id], now, retentionMs))
        decreases todo
      {
        var id :| id in todo;
        var rec := sessions[id];
        todo := todo - {id};
        ExpiredMeans(before.records[id], now, retentionMs);
        assert rec.View() == before.records[id];
        if rec.status != Running && rec.finishedAt > 0 && now - rec.finishedAt > retentionMs {
          sessions := sessions - {id};
        }
      }
      CollectedView(before, now);
    }

    lemma ExpiredMeans(rec: Rec, now: int, retentionMs: int)
      ensures Expired(rec, now, retentionMs) <==> rec.status != Running && rec.finishedAt > 0 && now - rec.finishedAt > retentionMs
    {
    }

    lemma CollectedView(before: Manager, now: int)
      requires before.nextId == nextId && before.retentionMs == retentionMs && before.starting == starting
      requires sessions.Keys <= before.records.Keys
      requires forall id :: id in sessions ==> sessions[id].View() == before.records[id]
      requires forall id :: id in before.records ==>
        (id in sessions <==> retentionMs <= 0 || !Expired(before.records[id], now, retentionMs))
      ensures View() == Next(before, Gc(now))
    {
      hide Expired;
      assert View().records == Collect(before.records, now, retentionMs);
    }

    /** The atomic counter moves before the lock is taken. */
    method DrawId(caller: Owner, now: int, timeoutSec: int, maxOutput: int, pty: bool)
      returns (id: nat, rec: SessionRecord)
      requires Valid()
      modifies this`nextId, this`starting
      ensures Valid() && View() == Next(old(View()), Draw(caller, now, timeoutSec, maxOutput, pty))
      ensures id == nextId == old(nextId) + 1 && fresh(rec) && id in starting && starting[id] == rec.View()
    {
      ghost var records := View().records;
      nextId := nextId + 1;
      id := nextId;
      rec := new SessionRecord(caller, now, timeoutSec, maxOutput, pty);
      starting := starting[id := rec.View()];
      assert View().records == records;
    }

    /** The section under the manager's lock: collect, then insert the new record. */
    method Register(id: nat, rec: SessionRecord, now: int)
      requires Valid() && id in starting && starting[id] == rec.View() && rec !in sessions.Values
      modifies this`sessions, this`starting
      ensures Valid() && id in sessions && sessions[id] == rec
      ensures View() == Next(old(View()), Insert(id, now))
      ensures forall k :: k in old(sessions) ==>
        (k !in sessions <==>
           && retentionMs > 0 && old(sessions[k].status) != Running && old(sessions[k].finishedAt) > 0
           && now - old(sessions[k].finishedAt) > retentionMs)
    {
      InsertShape(View(), id, now);
      hide Next, Collect;
      GcExpired(now);
      assert forall k :: k in sessions ==> sessions[k] != rec;
      PutRecord(id, rec);
    }

    method PutRecord(id: nat, rec: SessionRecord)
      requires Valid() && id in starting && starting[id] == rec.View()
      requires forall k :: k in sessions ==> sessions[k] != rec
      modifies this`sessions, this`starting
      ensures Valid() && id in sessions && sessions[id] == rec && sessions == old(sessions)[id := rec]
      ensures View() == old(View()).(records := old(View()).records[id := rec.View()], starting := old(starting) - {id})
    {
      ghost var before := View();
      sessions := sessions[id := rec];
      starting := starting - {id};
      InsertedView(before.(starting := starting), id, rec.View());
    }

    /** `start`: other sections can run between the two steps. */
    method StartSession(caller: Owner, now: int, timeoutSec: int, maxOutput: int, pty: bool) returns (id: nat)
      requires Valid()
      modifies this`sessions, this`nextId, this`starting
      ensures Valid() && id == nextId && id in sessions && fresh(sessions[id])
      ensures View() == Next(Next(old(View()), Draw(caller, now, timeoutSec, maxOutput, pty)), Insert(id, now))
    {
      hide Next;
      var rec;
      id, rec := DrawId(caller, now, timeoutSec, maxOutput, pty);
      Register(id, rec, now);
    }

    lemma InsertedView(before: Manager, id: nat, rec: Rec)
      requires id in sessions && sessions[id].View() == rec
      requires before.nextId == nextId && before.retentionMs == retentionMs && before.starting == starting
      requires sessions.Keys == before.records.Keys + {id}
      requires forall k :: k in sessions && k != id ==> sessions[k].View() == before.records[k]
      ensures View() == before.(records := before.records[id := rec])
    {
    }

    method GetForOwner(id: nat, caller: Owner, now: int, checkedAt: int) returns (found: bool, ghost snapshot: Option<Rec>)
      requires Valid()
      modifies this`sessions
      ensures Valid() && View() == Next(old(View()), Gc(now))
      ensures found <==> id in View().records && Allowed(View().records[id], caller, checkedAt)
      ensures snapshot == if found then Some(View().records[id]) else None
      ensures var answer := Answered(View(), Client(id, caller, checkedAt, GetOp));
              if found then answer == Snapshot(View().records[id]) else answer.Absent? || answer.Rejected?
    {
      hide Next, Collect, EnforceOwner, OwnerAccepts;
      GcExpired(now);
      if id !in sessions { return false, None; }
      assert View().records[id] == sessions[id].View();
      var error := sessions[id].CheckOwner(caller, checkedAt);
      if error.Some? { return false, None; }
      return true, Some(sessions[id].View());
    }

    /** The listing holds exactly the caller's unexpired sessions. */
    method ListForOwner(caller: Owner, now: int, checkedAt: int) returns (ids: set<nat>)
      requires Valid()
      modifies this`sessions
      ensures Valid() && View() == Next(old(View()), Gc(now))
      ensures forall id :: id in ids <==>
        id in View().records && OwnerAccepts(View().records[id].owner, caller)
        && (View().records[id].expiresAt <= 0 || checkedAt <= View().records[id].expiresAt)
      ensures ids == Listed(View(), caller, checkedAt).Keys
    {
      hide Next, OwnerAccepts, EnforceOwner;
      GcExpired(now);
      ids := AllowedIds(caller, checkedAt);
      forall id | id in View().records
        ensures Allowed(View().records[id], caller, checkedAt) <==>
                OwnerAccepts(View().records[id].owner, caller)
                && (View().records[id].expiresAt <= 0 || checkedAt <= View().records[id].expiresAt)
      {
        OwnerCheckMeaning(View().records[id], caller, checkedAt);
      }
    }

    method AllowedIds(caller: Owner, checkedAt: int) returns (ids: set<nat>)
      requires Valid()
      ensures forall id :: id in ids <==> id in View().records && Allowed(View().records[id], caller, checkedAt)
    {
      hide OwnerAccepts, EnforceOwner;
      ids := {};
      var todo := sessions.Keys;
      ghost var records := View().records;
      while todo != {}
        invariant todo <= sessions.Keys
        invariant forall id :: id in ids <==> id in records && id !in todo && Allowed(records[id], caller, checkedAt)
        decreases todo
      {
        var id :| id in todo;
        todo := todo - {id};
        assert sessions[id].View() == records[id];
        var error := sessions[id].CheckOwner(caller, checkedAt);
        if error == None { ids := ids + {id}; }
      }
    }

    /** The prologue of write, read, signal and resize: collect, look up, check the owner,
        collect again, look up again. */
    method Admit(id: nat, caller: Owner, now: int, checkedAt: int, later: int) returns (a: Admission)
      requires Valid()
      modifies this`sessions
      ensures Valid()
      ensures (View(), VerdictOf(a)) == Prologue(old(View()), id, caller, now, checkedAt, later)
      ensures a.Admitted? ==> id in sessions && sessions[id] == a.rec && Allowed(a.rec.View(), caller, checkedAt)
      ensures forall k :: k in sessions ==> k in old(sessions) && sessions[k] == old(sessions)[k]
    {
      hide Collect, EnforceOwner;
      GcExpired(now);
      if id !in sessions { return NotFound; }
      var error := sessions[id].CheckOwner(caller, checkedAt);
      if error.Some? { return Denied(error.value); }
      GcExpired(later);
      if id !in sessions { return NotFound; }
      return Admitted(sessions[id]);
    }

    /** One record section seen from the manager. */
    lemma SectionView(before: Manager, id: nat, after: Rec)
      requires Valid() && id in sessions
      requires before.nextId == nextId && before.retentionMs == retentionMs && before.starting == starting
      requires before.records.Keys == sessions.Keys
      requires forall k :: k in sessions && k != id ==> sessions[k].View() == before.records[k]
      requires sessions[id].View() == after
      ensures View() == before.(records := before.records[id := after])
    {
    }

    /** Kill does not collect first. */
    method KillForOwner(id: nat, caller: Owner, checkedAt: int) returns (killed: bool, found: bool)
      requires Valid()
      modifies sessions.Values
      ensures Valid() && View() == Next(old(View()), Client(id, caller, checkedAt, KillOp))
      ensures found <==> id in old(View()).records && Allowed(old(View()).records[id], caller, checkedAt)
      ensures killed <==> found && old(View()).records[id].status == Running
      ensures var answer := Answered(old(View()), Client(id, caller, checkedAt, KillOp));
              if found then answer == KillTaken(killed) else answer.Absent? || answer.Rejected?
    {
      hide Collect, EnforceOwner, OwnerAccepts, KillRec;
      if id !in sessions { return false, false; }
      ghost var before := View();
      assert before.records[id] == sessions[id].View();
      var error := sessions[id].CheckOwner(caller, checkedAt);
      if error.Some? { return false, false; }
      killed := sessions[id].RequestKill();
      found := true;
      SectionView(before, id, KillRec(before.records[id]));
    }

    method SignalRecord(id: nat, s: Signal, osAccepts: bool) returns (delivered: bool, code: string)
      requires Valid() && id in sessions
      modifies sessions[id]
      ensures Valid() && View() == old(View()).(records := old(View()).records[id := SignalRec(old(sessions[id].View()), s)])
      ensures code == SignalCode(old(sessions[id].View()), s, osAccepts) && delivered == (code == "")
    {
      hide SignalRec, SignalCode;
      ghost var before := View();
      assert before.records[id] == sessions[id].View();
      delivered, code := sessions[id].SendSignal(s, osAccepts);
      SectionView(before, id, SignalRec(before.records[id], s));
    }

    method ResizeRecord(id: nat, rows: int, cols: int) returns (applied: bool, code: string)
      requires Valid() && id in sessions
      modifies sessions[id]
      ensures Valid() && View() == old(View()).(records := old(View()).records[id := ResizeRec(old(sessions[id].View()), rows, cols)])
      ensures code == ResizeCode(old(sessions[id].View()), rows, cols) && applied == (code == "")
    {
      hide ResizeRec, ResizeCode;
      ghost var before := View();
      assert before.records[id] == sessions[id].View();
      applied, code := sessions[id].Resize(rows, cols);
      SectionView(before, id, ResizeRec(before.records[id], rows, cols));
    }

    /** A granted record section is the client step of the run model. */
    lemma GrantedStep(m: Manager, id: nat, caller: Owner, checkedAt: int, op: Op)
      requires id in m.records && Allowed(m.records[id], caller, checkedAt)
      ensures Next(m, Client(id, caller, checkedAt, op)) == m.(records := m.records[id := Perform(m.records[id], op)])
      ensures op.SignalOp? ==> Perform(m.records[id], op) == SignalRec(m.records[id], op.signal)
      ensures op.ResizeOp? ==> Perform(m.records[id], op) == ResizeRec(m.records[id], op.rows, op.cols)
      ensures op.SignalOp? ==> AnswerOf(m.records[id], op) == Code(SignalCode(m.records[id], op.signal, op.osAccepts))
      ensures op.ResizeOp? ==> AnswerOf(m.records[id], op) == Code(ResizeCode(m.records[id], op.rows, op.cols))
    {
      hide Allowed, SignalRec, ResizeRec, SignalCode, ResizeCode;
    }

    method SignalForOwner(id: nat, s: Signal, osAccepts: bool, caller: Owner, now: int, checkedAt: int, later: int)
      returns (a: Admission, delivered: bool, code: string)
      requires Valid()
      modifies this`sessions, sessions.Values
      ensures Valid()
      ensures var (m, verdict) := Prologue(old(View()), id, caller, now, checkedAt, later);
              && VerdictOf(a) == verdict
              && (verdict == Granted ==> id in m.records && code == SignalCode(m.records[id], s, osAccepts))
              && View() == (if verdict == Granted then Next(m, Client(id, caller, checkedAt, SignalOp(s, osAccepts))) else m)
              && Answered(m, Client(id, caller, checkedAt, SignalOp(s, osAccepts))) == Reported(verdict, Code(code))
      ensures a.Admitted? ==> id in View().records && Allowed(View().records[id], caller, checkedAt)
      ensures !a.Admitted? ==> code == ""
      ensures delivered <==> a.Admitted? && code == ""
    {
      hide Prologue, Next, Collect, EnforceOwner, OwnerAccepts, Answered, SignalCode, AnswerOf;
      delivered, code := false, "";
      PrologueAnswers(View(), id, caller, now, checkedAt, later, SignalOp(s, osAccepts));
      a := Admit(id, caller, now, checkedAt, later);
      if a.Admitted? {
        GrantedStep(View(), id, caller, checkedAt, SignalOp(s, osAccepts));
        delivered, code := SignalRecord(id, s, osAccepts);
      }
    }

    method ResizeForOwner(id: nat, rows: int, cols: int, caller: Owner, now: int, checkedAt: int, later: int)
      returns (a: Admission, applied: bool, code: string)
      requires Valid()
      modifies this`sessions, sessions.Values
      ensures Valid()
      ensures var (m, verdict) := Prologue(old(View()), id, caller, now, checkedAt, later);
              && VerdictOf(a) == verdict
              && (verdict == Granted ==> id in m.records && code == ResizeCode(m.records[id], rows, cols))
              && View() == (if verdict == Granted then Next(m, Client(id, caller, checkedAt, ResizeOp(rows, cols))) else m)
              && Answered(m, Client(id, caller, checkedAt, ResizeOp(rows, cols))) == Reported(verdict, Code(code))
      ensures a.Admitted? ==> id in View().records && Allowed(View().records[id], caller, checkedAt)
      ensures !a.Admitted? ==> code == ""
      ensures applied <==> a.Admitted? && code == ""
    {
      hide Prologue, Next, Collect, EnforceOwner, OwnerAccepts, Answered, ResizeCode, AnswerOf;
      applied, code := false, "";
      PrologueAnswers(View(), id, caller, now, checkedAt, later, ResizeOp(rows, cols));
      a := Admit(id, caller, now, checkedAt, later);
      if a.Admitted? {
        GrantedStep(View(), id, caller, checkedAt, ResizeOp(rows, cols));
        applied, code := ResizeRecord(id, rows, cols);
      }
    }

    method ReadForOwner(id: nat, cursor: int, maxBytes: int, caller: Owner, now: int, checkedAt: int, later: int)
      returns (a: Admission, chunk: Option<Chunk>)
      requires Valid()
      modifies this`sessions
      ensures Valid()
      ensures (View(), VerdictOf(a)) == Prologue(old(View()), id, caller, now, checkedAt, later)
      ensures a.Admitted? ==> id in View().records && Allowed(View().records[id], caller, checkedAt)
      ensures chunk == if a.Admitted? then Some(ReadRec(View().records[id], cursor, maxBytes)) else None
      ensures Answered(View(), Client(id, caller, checkedAt, ReadOp(cursor, maxBytes)))
           == Reported(VerdictOf(a), if chunk.Some? then Data(chunk.value) else Absent)
    {
      hide Prologue, Allowed, ReadRec, Answered;
      chunk := None;
      PrologueAnswers(View(), id, caller, now, checkedAt, later, ReadOp(cursor, maxBytes));
      a := Admit(id, caller, now, checkedAt, later);
      if a.Admitted? {
        assert View().records[id] == a.rec.View();
        var c := a.rec.ReadChunk(cursor, maxBytes);
        chunk := Some(c);
      }
    }

    method WriteForOwner(id: nat, input: seq<byte>, piped: nat, broken: bool, caller: Owner,
                         now: int, checkedAt: int, later: int)
      returns (a: Admission, written: nat, code: string)
      requires Valid() && piped <= |input| && (!broken ==> piped == |input|)
      modifies this`sessions
      ensures Valid()
      ensures (View(), VerdictOf(a)) == Prologue(old(View()), id, caller, now, checkedAt, later)
      ensures a.Admitted? ==> id in View().records && Allowed(View().records[id], caller, checkedAt)
      ensures !a.Admitted? ==> written == 0 && code == ""
      ensures a.Admitted? && !Writable(View().records[id]) ==> written == 0 && code != ""
      ensures a.Admitted? && Writable(View().records[id]) ==>
        written == piped && code == (if broken then "stdin_write_failed" else "")
      ensures Answered(View(), Client(id, caller, checkedAt, WriteOp(piped, broken)))
           == Reported(VerdictOf(a), Written(written, code))
    {
      hide Prologue, Allowed, Answered;
      written, code := 0, "";
      PrologueAnswers(View(), id, caller, now, checkedAt, later, WriteOp(piped, broken));
      a := Admit(id, caller, now, checkedAt, later);
      if a.Admitted? {
        assert View().records[id] == a.rec.View();
        written, code := a.rec.WriteInput(input, piped, broken);
      }
    }

    /** Every section of the lifecycle goroutine, the streamers and the context is the step of that
        name: what happens to session `id` happens to its own record and no other. */
    method Advance(id: nat, e: Event, now: int)
      requires Valid() && id in sessions && Enabled(sessions[id].View(), e)
      modifies sessions.Values
      ensures Valid() && View() == Next(old(View()), Internal(id, e, now))
    {
      hide Collect, Happen, Enabled;
      ghost var before := View();
      assert before.records[id] == sessions[id].View();
      Section(sessions[id], e, now);
      SectionView(before, id, Happen(before.records[id], e, now));
    }

    /** The streamer of session `id` hands over a chunk. */
    method Deliver(id: nat, stream: Stream, data: seq<byte>, ghost now: int)
      requires Valid() && id in sessions && Enabled(sessions[id].View(), Arrives(stream, data))
      modifies sessions.Values
      ensures Valid() && View() == Next(old(View()), Internal(id, Arrives(stream, data), now))
    {
      Advance(id, Arrives(stream, data), 0);
    }

    /** The lifecycle goroutine of session `id` records how the process ended. */
    method RecordExit(id: nat, exit: Option<int>, now: int)
      requires Valid() && id in sessions && Enabled(sessions[id].View(), ProcessEnds(exit))
      modifies sessions.Values
      ensures Valid() && View() == Next(old(View()), Internal(id, ProcessEnds(exit), now))
    {
      Advance(id, ProcessEnds(exit), now);
    }
  }
}
