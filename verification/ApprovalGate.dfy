/** The approval gate for sensitive tool calls (zen_claw/agent/approval_gate.py): an ordered
    dictionary of approval records, written through to one file after every change. */
module ApprovalGates {
  import opened Options
  import opened Text
  import Sorting

  datatype Status = Pending | Approved | Denied | Expired

  /** `args` is the sorted-keys JSON text of the arguments, which is what the gate compares. */
  datatype Approval = Approval(id: string, session: string, tool: string, args: string, createdAt: int, status: Status)

  /** The store file: the last complete write, or what an interrupted write left behind. */
  datatype Disk = Intact(content: seq<Approval>) | Torn

  /** `_load`: anything unreadable counts as no approvals. */
  function Load(d: Disk): seq<Approval> {
    if d.Intact? then d.content else []
  }

  predicate Usable(a: Approval, session: string, tool: string, args: string) {
    a.status == Approved && a.session == session && a.tool == tool && a.args == args
  }

  ghost predicate DistinctIds(s: seq<Approval>) {
    forall i, j :: 0 <= i < j < |s| ==> s[i].id != s[j].id
  }

  ghost function Ids(s: seq<Approval>): set<string> {
    set i | 0 <= i < |s| :: s[i].id
  }

  function IndexOf(s: seq<Approval>, id: string): (i: nat)
    ensures i <= |s|
    ensures i < |s| ==> s[i].id == id
    ensures forall k :: 0 <= k < i ==> s[k].id != id
  {
    if s == [] || s[0].id == id then 0 else 1 + IndexOf(s[1..], id)
  }

  function Decided(s: seq<Approval>, id: string, status: Status): (t: seq<Approval>)
    ensures |t| == |s|
  {
    var i := IndexOf(s, id);
    if i < |s| && s[i].status == Pending then s[i := s[i].(status := status)] else s
  }

  function Aged(a: Approval, now: int, ttl: int): Approval {
    if a.status == Pending && now - a.createdAt > ttl then a.(status := Expired) else a
  }

  function ExpiredAt(s: seq<Approval>, now: int, ttl: int): (t: seq<Approval>)
    ensures |t| == |s| && forall i :: 0 <= i < |s| ==> t[i] == Aged(s[i], now, ttl)
  {
    if s == [] then [] else [Aged(s[0], now, ttl)] + ExpiredAt(s[1..], now, ttl)
  }

  /** Position of the first usable record, in insertion order. */
  function FirstUsable(s: seq<Approval>, session: string, tool: string, args: string): (i: nat)
    ensures i <= |s|
    ensures i < |s| ==> Usable(s[i], session, tool, args)
    ensures forall k :: 0 <= k < i ==> !Usable(s[k], session, tool, args)
  {
    if s == [] || Usable(s[0], session, tool, args) then 0 else 1 + FirstUsable(s[1..], session, tool, args)
  }

  function Without(s: seq<Approval>, i: nat): seq<Approval>
    requires i < |s|
  {
    s[..i] + s[i + 1..]
  }

  class ApprovalGate {
    var pending: seq<Approval>
    var disk: Disk
    const ttl: int

    ghost predicate Valid()
      reads this
    {
      DistinctIds(pending) && Load(disk) == pending
    }

    /** Starting up, or restarting, on an existing store. */
    constructor (disk: Disk, ttl: int)
      requires DistinctIds(Load(disk))
      ensures Valid() && this.disk == disk && pending == Load(disk) && this.ttl == ttl
    {
      this.disk, this.ttl := disk, ttl;
      pending := if disk.Intact? then disk.content else [];
    }

    method Save()
      modifies this`disk
      ensures disk == Intact(pending)
    {
      disk := Intact(pending);
    }

    /** `id` is the fresh random identifier. */
    method RequestApproval(id: string, session: string, tool: string, args: string, now: int) returns (rec: Approval)
      requires Valid() && id !in Ids(pending)
      modifies this
      ensures Valid() && disk == Intact(pending)
      ensures rec == Approval(id, session, tool, args, now, Pending)
      ensures pending == old(pending) + [rec]
    {
      rec := Approval(id, session, tool, args, now, Pending);
      pending := pending + [rec];
      Save();
    }

    method Decide(rawId: string, status: Status) returns (rec: Option<Approval>)
      requires Valid()
      modifies this
      ensures Valid() && pending == Decided(old(pending), Upper(Trim(rawId)), status)
      ensures rec.Some? <==> exists a :: a in old(pending) && a.id == Upper(Trim(rawId)) && a.status == Pending
      ensures rec.Some? ==> rec.value in pending && rec.value.status == status
      ensures |pending| == |old(pending)| && forall i :: 0 <= i < |pending| ==>
        if old(pending)[i].id == Upper(Trim(rawId)) && old(pending)[i].status == Pending
        then pending[i] == old(pending)[i].(status := status) else pending[i] == old(pending)[i]
    {
      var i := IndexOf(pending, Upper(Trim(rawId)));
      if i == |pending| || pending[i].status != Pending { return None; }
      pending := pending[i := pending[i].(status := status)];
      Save();
      return Some(pending[i]);
    }

    method ExpireOld(now: int)
      requires Valid()
      modifies this
      ensures Valid() && pending == ExpiredAt(old(pending), now, ttl)
      ensures |pending| == |old(pending)| && forall i :: 0 <= i < |pending| ==>
        && pending[i] == old(pending)[i].(status := pending[i].status)
        && (pending[i].status != old(pending)[i].status <==>
              old(pending)[i].status == Pending && now > old(pending)[i].createdAt + ttl)
        && (pending[i].status != old(pending)[i].status ==> pending[i].status == Expired)
    {
      var changed := false;
      for i := 0 to |pending|
        invariant |pending| == |old(pending)| && disk == old(disk)
        invariant forall k :: 0 <= k < i ==> pending[k] == Aged(old(pending)[k], now, ttl)
        invariant forall k :: i <= k < |pending| ==> pending[k] == old(pending)[k]
        invariant !changed ==> pending == old(pending)
      {
        if pending[i].status == Pending && now - pending[i].createdAt > ttl {
          pending := pending[i := pending[i].(status := Expired)];
          changed := true;
        }
      }
      if changed { Save(); }
    }

    method Get(rawId: string, now: int) returns (rec: Option<Approval>)
      requires Valid()
      modifies this
      ensures Valid() && pending == ExpiredAt(old(pending), now, ttl)
      ensures rec.Some? ==> rec.value in pending && rec.value.id == Upper(Trim(rawId))
      ensures rec == None ==> Upper(Trim(rawId)) !in Ids(pending)
    {
      ExpireOld(now);
      var i := IndexOf(pending, Upper(Trim(rawId)));
      if i == |pending| { return None; }
      return Some(pending[i]);
    }

    /** Find and remove the first approved record for exactly this call: the one session, the one tool
        and the same arguments. */
    method ConsumeApproved(session: string, tool: string, args: string) returns (rec: Option<Approval>)
      requires Valid()
      modifies this
      ensures Valid()
      ensures var i := FirstUsable(old(pending), session, tool, args);
              if i < |old(pending)| then rec == Some(old(pending)[i]) && pending == Without(old(pending), i)
              else rec == None && pending == old(pending)
      ensures rec.Some? <==>
        exists k :: 0 <= k < |old(pending)| && old(pending)[k].status == Approved && old(pending)[k].session == session
                    && old(pending)[k].tool == tool && old(pending)[k].args == args
      ensures rec.Some? ==>
        && rec.value.status == Approved && rec.value.session == session && rec.value.tool == tool && rec.value.args == args
        && rec.value in old(pending) && rec.value !in pending && |pending| == |old(pending)| - 1
      ensures rec == None ==> pending == old(pending)
    {
      for i := 0 to |pending|
        invariant pending == old(pending) && disk == old(disk)
        invariant forall k :: 0 <= k < i ==> !Usable(pending[k], session, tool, args)
      {
        var candidate := pending[i];
        if Usable(candidate, session, tool, args) {
          pending := Without(pending, i);
          Save();
          return Some(candidate);
        }
      }
      return None;
    }
  }

  // --- the gate over whole runs, with crashes at any point ---

  datatype Change =
    | Request(rec: Approval)
    | Decision(id: string, status: Status)
    | Tick(now: int)
    | Consume(session: string, tool: string, args: string)

  /** Between changes, or a change made in memory whose write has not completed. */
  datatype Control = Idle | Unsaved(before: seq<Approval>, change: Change, granted: Option<Approval>)

  /** The process, its store, and the history a run is judged by: `known` is every record ever
      requested, `approvals` the ids ever approved, `consumed` the ids handed to a tool call,
      `executed` the tool executions in order, `lost` the records only a crash removed. */
  datatype World = World(
    memory: seq<Approval>, disk: Disk, control: Control, grants: seq<Approval>,
    known: map<string, Approval>, approvals: set<string>, consumed: set<string>,
    executed: seq<Approval>, lost: set<string>)

  const FRESH := World([], Intact([]), Idle, [], map[], {}, {}, [], {})

  datatype Step = Mutate(change: Change) | WriteThrough | Execute(slot: nat) | Crash(torn: bool)

  function Changed(s: seq<Approval>, c: Change, ttl: int): seq<Approval> {
    match c
    case Request(rec) => s + [rec]
    case Decision(id, status) => Decided(s, id, status)
    case Tick(now) => ExpiredAt(s, now, ttl)
    case Consume(session, tool, args) =>
      var i := FirstUsable(s, session, tool, args);
      if i < |s| then Without(s, i) else s
  }

  function Granted(s: seq<Approval>, c: Change): Option<Approval> {
    if c.Consume? && FirstUsable(s, c.session, c.tool, c.args) < |s| then
      Some(s[FirstUsable(s, c.session, c.tool, c.args)])
    else None
  }

  /** The decision finds a pending record and approves it. */
  predicate Approves(s: seq<Approval>, c: Change) {
    && c.Decision? && c.status == Approved
    && IndexOf(s, c.id) < |s| && s[IndexOf(s, c.id)].status == Pending
  }

  /** Requests are pending and carry a never-used id; decisions approve or deny. */
  predicate Sensible(w: World, c: Change) {
    && (c.Request? ==> c.rec.id !in w.known && c.rec.status == Pending)
    && (c.Decision? ==> c.status == Approved || c.status == Denied)
  }

  predicate Possible(w: World, step: Step) {
    match step
    case Mutate(c) => w.control == Idle && Sensible(w, c)
    case WriteThrough => w.control.Unsaved?
    case Execute(slot) => w.control == Idle && slot < |w.grants|
    case Crash(torn) => torn ==> w.control.Unsaved?
  }

  ghost function Next(w: World, step: Step, ttl: int): World
    requires Possible(w, step)
  {
    match step
    case Mutate(c) =>
      w.(memory := Changed(w.memory, c, ttl), control := Unsaved(w.memory, c, Granted(w.memory, c)),
         known := if c.Request? then w.known[c.rec.id := c.rec] else w.known,
         approvals := if Approves(w.memory, c) then w.approvals + {c.id} else w.approvals)
    case WriteThrough =>
      w.(disk := Intact(w.memory), control := Idle,
         grants := if w.control.granted.Some? then w.grants + [w.control.granted.value] else w.grants,
         consumed := if w.control.granted.Some? then w.consumed + {w.control.granted.value.id} else w.consumed)
    case Execute(slot) =>
      w.(grants := Without(w.grants, slot), executed := w.executed + [w.grants[slot]])
    case Crash(torn) =>
      var disk := if torn then Torn else w.disk;
      w.(disk := disk, memory := Load(disk), control := Idle, grants := [],
         lost := w.lost + (w.known.Keys - w.consumed - Ids(Load(disk))))
  }

  ghost predicate PossibleRun(w: World, steps: seq<Step>, ttl: int)
    decreases |steps|
  {
    steps == [] || (Possible(w, steps[0]) && PossibleRun(Next(w, steps[0], ttl), steps[1..], ttl))
  }

  ghost function Run(w: World, steps: seq<Step>, ttl: int): World
    requires PossibleRun(w, steps, ttl)
    decreases |steps|
  {
    if steps == [] then w else Run(Next(w, steps[0], ttl), steps[1..], ttl)
  }

  // --- invariants ---

  predicate SameRequest(a: Approval, b: Approval) {
    a.id == b.id && a.session == b.session && a.tool == b.tool && a.args == b.args
  }

  /** A record list agrees with the requests that were made, and approved means approved. */
  ghost predicate Traceable(s: seq<Approval>, w: World) {
    && DistinctIds(s)
    && (forall i :: 0 <= i < |s| ==> s[i].id in w.known && SameRequest(s[i], w.known[s[i].id]))
    && (forall i :: 0 <= i < |s| && s[i].status == Approved ==> s[i].id in w.approvals)
  }

  ghost function InFlight(w: World): set<string> {
    if w.control.Unsaved? && w.control.granted.Some? then {w.control.granted.value.id} else {}
  }

  /** Every known id is in exactly one place: the dictionary, a hand-over in progress,
      consumed, or lost. */
  ghost predicate Partitioned(w: World) {
    && w.known.Keys == Ids(w.memory) + InFlight(w) + w.consumed + w.lost
    && Ids(w.memory) !! InFlight(w) !! w.consumed !! w.lost
  }

  ghost function Asked(c: Change): set<string> {
    if c.Request? then {c.rec.id} else {}
  }

  ghost predicate StoreFollows(w: World) {
    && (w.control == Idle ==> Load(w.disk) == w.memory)
    && (w.control.Unsaved? ==> Load(w.disk) == w.control.before)
    && (w.control.Unsaved? ==> Traceable(w.control.before, w))
    && (w.control.Unsaved? ==>
          Ids(w.memory) + InFlight(w) == Ids(w.control.before) + Asked(w.control.change))
    && (w.control.Unsaved? ==> Ids(w.control.before) !! w.consumed && Ids(w.control.before) !! w.lost)
    && (w.control.Unsaved? && w.control.granted.Some? ==> Authorised(w.control.granted.value, w))
  }

  ghost predicate Authorised(a: Approval, w: World) {
    a.id in w.known && SameRequest(a, w.known[a.id]) && a.id in w.approvals
  }

  /** Hand-overs that became tool calls: authorised, consumed, and each at most once. */
  ghost predicate OncePerRecord(w: World) {
    && DistinctIds(w.grants) && DistinctIds(w.executed) && Ids(w.grants) !! Ids(w.executed)
    && Ids(w.grants) <= w.consumed && Ids(w.executed) <= w.consumed
    && (forall i :: 0 <= i < |w.grants| ==> Authorised(w.grants[i], w))
    && (forall i :: 0 <= i < |w.executed| ==> Authorised(w.executed[i], w))
  }

  ghost predicate Inv(w: World) {
    Traceable(w.memory, w) && Partitioned(w) && StoreFollows(w) && OncePerRecord(w)
  }

  lemma IdsMembership(s: seq<Approval>, id: string)
    ensures id in Ids(s) <==> exists i :: 0 <= i < |s| && s[i].id == id
  {
  }

  lemma IdsAppend(s: seq<Approval>, a: Approval)
    ensures Ids(s + [a]) == Ids(s) + {a.id}
    ensures DistinctIds(s) && a.id !in Ids(s) ==> DistinctIds(s + [a])
  {
    var t := s + [a];
    assert t[|s|] == a;
    forall i | 0 <= i < |s| ensures t[i] == s[i] { }
    forall id | id in Ids(s) ensures id in Ids(t) {
      var i :| 0 <= i < |s| && s[i].id == id;
      assert t[i].id == id;
    }
  }

  lemma SameIdsPointwise(s: seq<Approval>, t: seq<Approval>)
    requires |s| == |t| && forall i :: 0 <= i < |s| ==> s[i].id == t[i].id
    ensures Ids(s) == Ids(t) && (DistinctIds(s) ==> DistinctIds(t))
  {
    forall id ensures id in Ids(s) <==> id in Ids(t) {
      IdsMembership(s, id);
      IdsMembership(t, id);
    }
  }

  lemma WithoutAt(s: seq<Approval>, i: nat, k: nat)
    requires i < |s| && k < |s| - 1
    ensures |Without(s, i)| == |s| - 1 && Without(s, i)[k] == s[if k < i then k else k + 1]
  {
  }

  lemma WithoutShorter(s: seq<Approval>, i: nat)
    requires i < |s|
    ensures |Without(s, i)| == |s| - 1
  {
  }

  lemma WithoutDistinct(s: seq<Approval>, i: nat)
    requires i < |s| && DistinctIds(s)
    ensures DistinctIds(Without(s, i))
  {
    hide Without;
    WithoutShorter(s, i);
    forall j, k | 0 <= j < k < |Without(s, i)| ensures Without(s, i)[j].id != Without(s, i)[k].id {
      WithoutAt(s, i, j);
      WithoutAt(s, i, k);
    }
  }

  lemma WithoutIds(s: seq<Approval>, i: nat)
    requires i < |s| && DistinctIds(s)
    ensures var t := Without(s, i);
            && DistinctIds(t)
            && s[i].id in Ids(s)
            && Ids(t) == Ids(s) - {s[i].id}
            && (forall k :: 0 <= k < |t| ==> t[k] == s[if k < i then k else k + 1])
  {
    WithoutDistinct(s, i);
    WithoutShorter(s, i);
    IdsMembership(s, s[i].id);
    hide Without, Ids, DistinctIds;
    forall id ensures id in Ids(Without(s, i)) <==> id in Ids(s) && id != s[i].id { WithoutId(s, i, id); }
    forall k | 0 <= k < |s| - 1 ensures Without(s, i)[k] == s[if k < i then k else k + 1] { WithoutAt(s, i, k); }
  }

  lemma WithoutId(s: seq<Approval>, i: nat, id: string)
    requires i < |s| && DistinctIds(s)
    ensures id in Ids(Without(s, i)) <==> id in Ids(s) && id != s[i].id
  {
    IdsMembership(Without(s, i), id);
    IdsMembership(s, id);
    WithoutShorter(s, i);
    hide Without, Ids;
    if k :| 0 <= k < |Without(s, i)| && Without(s, i)[k].id == id { WithoutAt(s, i, k); }
    if k :| 0 <= k < |s| && s[k].id == id && k != i { WithoutAt(s, i, if k < i then k else k - 1); }
  }

  /** History only accumulates. */
  ghost predicate Extends(w: World, v: World) {
    && (forall id :: id in w.known ==> id in v.known && v.known[id] == w.known[id])
    && w.approvals <= v.approvals
  }

  lemma TraceableExtends(s: seq<Approval>, w: World, v: World)
    requires Traceable(s, w) && Extends(w, v)
    ensures Traceable(s, v)
  {
  }

  /** Keeping ids, calls and earlier approvals, and approving only what `v` records. */
  lemma RestatusTraceable(s: seq<Approval>, t: seq<Approval>, v: World)
    requires Traceable(s, v) && |t| == |s|
    requires forall i :: 0 <= i < |s| ==>
      SameRequest(t[i], s[i]) && (t[i].status == Approved ==> s[i].status == Approved || s[i].id in v.approvals)
    ensures Traceable(t, v) && Ids(t) == Ids(s)
  {
    SameIdsPointwise(s, t);
    forall i | 0 <= i < |t| ensures t[i].id in v.known && SameRequest(t[i], v.known[t[i].id]) {
      assert SameRequest(s[i], v.known[s[i].id]);
    }
  }

  lemma RequestTraceable(s: seq<Approval>, rec: Approval, w: World, v: World)
    requires Traceable(s, w) && Extends(w, v) && rec.id !in w.known && rec.status == Pending
    requires rec.id in v.known && v.known[rec.id] == rec
    ensures Traceable(s + [rec], v) && Ids(s + [rec]) == Ids(s) + {rec.id}
  {
    IdsAppend(s, rec);
    forall i | 0 <= i < |s + [rec]|
      ensures var a := (s + [rec])[i];
              a.id in v.known && SameRequest(a, v.known[a.id]) && (a.status == Approved ==> a.id in v.approvals)
    {
      if i < |s| { assert (s + [rec])[i] == s[i]; }
    }
  }

  lemma WithoutTraceable(s: seq<Approval>, i: nat, w: World)
    requires Traceable(s, w) && i < |s|
    ensures Traceable(Without(s, i), w) && Ids(Without(s, i)) == Ids(s) - {s[i].id} && s[i].id in Ids(s)
  {
    WithoutIds(s, i);
  }

  /** Every change keeps the records traceable; only a consumption takes one out. */
  lemma ChangeKeepsTraceable(w: World, c: Change, v: World, ttl: int)
    requires Traceable(w.memory, w) && Sensible(w, c) && Extends(w, v)
    requires c.Request? ==> c.rec.id in v.known && v.known[c.rec.id] == c.rec
    requires Approves(w.memory, c) ==> c.id in v.approvals
    ensures Traceable(Changed(w.memory, c, ttl), v)
    ensures Ids(Changed(w.memory, c, ttl)) ==
      if c.Request? then Ids(w.memory) + {c.rec.id}
      else if Granted(w.memory, c).Some? then Ids(w.memory) - {Granted(w.memory, c).value.id}
      else Ids(w.memory)
    ensures Granted(w.memory, c).Some? ==> Granted(w.memory, c).value.id in Ids(w.memory)
  {
    TraceableExtends(w.memory, w, v);
    match c
    case Request(rec) => RequestTraceable(w.memory, rec, w, v);
    case Decision(id, status) => RestatusTraceable(w.memory, Decided(w.memory, id, status), v);
    case Tick(now) => RestatusTraceable(w.memory, ExpiredAt(w.memory, now, ttl), v);
    case Consume(session, tool, args) =>
      var i := FirstUsable(w.memory, session, tool, args);
      if i < |w.memory| { WithoutTraceable(w.memory, i, v); }
  }

  lemma MutateKeepsPartition(w: World, c: Change, ttl: int)
    requires Inv(w) && Possible(w, Mutate(c))
    ensures var v := Next(w, Mutate(c), ttl);
            && Traceable(v.memory, v) && Partitioned(v)
            && Ids(v.memory) + InFlight(v) == Ids(w.memory) + Asked(c)
  {
    var v := Next(w, Mutate(c), ttl);
    ChangeKeepsTraceable(w, c, v, ttl);
    assert InFlight(w) == {};
  }

  lemma AuthorisedExtends(a: Approval, w: World, v: World)
    requires Authorised(a, w) && Extends(w, v)
    ensures Authorised(a, v)
  {
  }

  lemma HistoryKeepsOnce(w: World, v: World)
    requires OncePerRecord(w) && Extends(w, v)
    requires v.grants == w.grants && v.executed == w.executed && v.consumed == w.consumed
    ensures OncePerRecord(v)
  {
    forall i | 0 <= i < |w.grants| ensures Authorised(w.grants[i], v) { AuthorisedExtends(w.grants[i], w, v); }
    forall i | 0 <= i < |w.executed| ensures Authorised(w.executed[i], v) { AuthorisedExtends(w.executed[i], w, v); }
    hide Authorised, DistinctIds, Ids;
  }

  lemma GrantedIsAuthorised(w: World, c: Change, v: World)
    requires Traceable(w.memory, w) && Extends(w, v) && Granted(w.memory, c).Some?
    ensures Authorised(Granted(w.memory, c).value, v)
  {
    var i := FirstUsable(w.memory, c.session, c.tool, c.args);
    assert Authorised(w.memory[i], w);
  }

  lemma MutateKeepsInv(w: World, c: Change, ttl: int)
    requires Inv(w) && Possible(w, Mutate(c))
    ensures Inv(Next(w, Mutate(c), ttl))
  {
    var v := Next(w, Mutate(c), ttl);
    MutateKeepsPartition(w, c, ttl);
    TraceableExtends(w.memory, w, v);
    HistoryKeepsOnce(w, v);
    if Granted(w.memory, c).Some? { GrantedIsAuthorised(w, c, v); }
    hide Changed, Partitioned, Traceable, Authorised, Granted, Ids, Approves, OncePerRecord, Sensible;
    assert StoreFollows(v);
  }

  /** A completed write hands the taken record over, once. */
  lemma HandOverKeepsOnce(w: World, v: World, a: Approval)
    requires OncePerRecord(w) && Authorised(a, w) && a.id !in w.consumed
    requires v.known == w.known && v.approvals == w.approvals && v.executed == w.executed
    requires v.grants == w.grants + [a] && v.consumed == w.consumed + {a.id}
    ensures OncePerRecord(v)
  {
    IdsAppend(w.grants, a);
    hide Ids, DistinctIds;
    forall i | 0 <= i < |v.grants| ensures Authorised(v.grants[i], v) {
      AuthorisedExtends(if i < |w.grants| then w.grants[i] else a, w, v);
    }
    forall i | 0 <= i < |v.executed| ensures Authorised(v.executed[i], v) { AuthorisedExtends(w.executed[i], w, v); }
  }

  lemma WriteKeepsInv(w: World, ttl: int)
    requires Inv(w) && Possible(w, WriteThrough)
    ensures Inv(Next(w, WriteThrough, ttl))
  {
    var after := Next(w, WriteThrough, ttl);
    TraceableExtends(w.memory, w, after);
    if w.control.granted.Some? {
      HandOverKeepsOnce(w, after, w.control.granted.value);
    } else {
      HistoryKeepsOnce(w, after);
    }
    hide OncePerRecord, Traceable, Authorised, Ids;
    assert Partitioned(after);
  }

  lemma ExecuteKeepsInv(w: World, slot: nat, ttl: int)
    requires Inv(w) && Possible(w, Execute(slot))
    ensures Inv(Next(w, Execute(slot), ttl))
  {
    WithoutIds(w.grants, slot);
    IdsAppend(w.executed, w.grants[slot]);
  }

  lemma CrashKeepsInv(w: World, torn: bool, ttl: int)
    requires Inv(w) && Possible(w, Crash(torn))
    ensures Inv(Next(w, Crash(torn), ttl))
  {
    var after := Next(w, Crash(torn), ttl);
    assert Ids([]) == {};
    assert Traceable(after.memory, after);
    assert Ids(after.memory) !! w.consumed;
    assert Ids(after.memory) <= w.known.Keys;
    assert Partitioned(after);
  }

  /** Whatever happens — requests, decisions, expiry, consumption, executions, crashes between
      any two of these or in the middle of a write — the invariant holds. */
  lemma {:induction false} InvAlways(w: World, steps: seq<Step>, ttl: int)
    requires Inv(w) && PossibleRun(w, steps, ttl)
    ensures Inv(Run(w, steps, ttl))
    decreases |steps|
  {
    if steps != [] {
      match steps[0] {
        case Mutate(c) => MutateKeepsInv(w, c, ttl);
        case WriteThrough => WriteKeepsInv(w, ttl);
        case Execute(slot) => ExecuteKeepsInv(w, slot, ttl);
        case Crash(torn) => CrashKeepsInv(w, torn, ttl);
      }
      InvAlways(Next(w, steps[0], ttl), steps[1..], ttl);
    }
  }

  // --- what the invariant means ---

  /** One approval, one execution: over any run from an empty store, no approval record
      authorises two tool executions, and each execution has the session, tool and arguments of
      a request that was approved before it and is no longer in the dictionary. */
  lemma OneApprovalOneExecution(steps: seq<Step>, ttl: int)
    requires PossibleRun(FRESH, steps, ttl)
    ensures var w := Run(FRESH, steps, ttl);
            && (forall i, j :: 0 <= i < j < |w.executed| ==> w.executed[i].id != w.executed[j].id)
            && (forall i :: 0 <= i < |w.executed| ==>
                  && w.executed[i].id in w.known
                  && (var asked := w.known[w.executed[i].id];
                      w.executed[i].session == asked.session && w.executed[i].tool == asked.tool
                      && w.executed[i].args == asked.args)
                  && w.executed[i].id in w.approvals && w.executed[i].id !in Ids(w.memory))
  {
    assert Ids([]) == {};
    InvAlways(FRESH, steps, ttl);
    var w := Run(FRESH, steps, ttl);
    forall i | 0 <= i < |w.executed| ensures w.executed[i].id in w.consumed {
      assert w.executed[i].id in Ids(w.executed);
    }
  }

  // --- what a run must have contained ---

  lemma RunStep(w: World, steps: seq<Step>, ttl: int, n: nat)
    requires steps != [] && PossibleRun(w, steps, ttl) && n < |steps|
    requires PossibleRun(Next(w, steps[0], ttl), steps[1..][..n], ttl)
    ensures PossibleRun(w, steps[..n + 1], ttl)
    ensures Run(w, steps[..n + 1], ttl) == Run(Next(w, steps[0], ttl), steps[1..][..n], ttl)
  {
    hide Next, Possible;
    assert steps[..n + 1][1..] == steps[1..][..n];
  }

  lemma {:induction false} RunsConcat(w: World, a: seq<Step>, b: seq<Step>, ttl: int)
    requires PossibleRun(w, a, ttl) && PossibleRun(Run(w, a, ttl), b, ttl)
    ensures PossibleRun(w, a + b, ttl) && Run(w, a + b, ttl) == Run(Run(w, a, ttl), b, ttl)
    decreases |a|
  {
    hide Next, Possible;
    if a == [] {
      assert a + b == b;
    } else {
      assert (a + b)[0] == a[0] && (a + b)[1..] == a[1..] + b;
      RunsConcat(Next(w, a[0], ttl), a[1..], b, ttl);
    }
  }

  /** An id that became known was requested, with the record it is known by. */
  lemma {:induction false} RequestOf(w: World, steps: seq<Step>, ttl: int, id: string) returns (k: nat)
    requires PossibleRun(w, steps, ttl) && id in Run(w, steps, ttl).known && id !in w.known
    ensures k < |steps| && steps[k] == Mutate(Request(Run(w, steps, ttl).known[id]))
    decreases |steps|
  {
    var v := Next(w, steps[0], ttl);
    if id in v.known {
      k := 0;
      KnownForGood(v, steps[1..], ttl, id);
    } else {
      hide Next, Possible;
      var j := RequestOf(v, steps[1..], ttl, id);
      k := j + 1;
    }
  }

  lemma {:induction false} KnownForGood(w: World, steps: seq<Step>, ttl: int, id: string)
    requires PossibleRun(w, steps, ttl) && id in w.known
    ensures id in Run(w, steps, ttl).known && Run(w, steps, ttl).known[id] == w.known[id]
    decreases |steps|
  {
    if steps != [] { KnownForGood(Next(w, steps[0], ttl), steps[1..], ttl, id); }
  }

  /** An id that became approved was decided so while it was a known request. */
  lemma {:induction false} ApprovalOf(w: World, steps: seq<Step>, ttl: int, id: string) returns (k: nat)
    requires Inv(w) && PossibleRun(w, steps, ttl) && id in Run(w, steps, ttl).approvals && id !in w.approvals
    ensures k < |steps| && steps[k] == Mutate(Decision(id, Approved))
    ensures PossibleRun(w, steps[..k], ttl) && id in Run(w, steps[..k], ttl).known
    decreases |steps|
  {
    var v := Next(w, steps[0], ttl);
    if id in v.approvals {
      k := 0;
      assert steps[..0] == [];
      hide Inv, Traceable;
      DecidedIsKnown(w, steps[0].change, id);
    } else {
      InvAlways(w, [steps[0]], ttl);
      assert [steps[0]][1..] == [] && PossibleRun(v, [], ttl) && Run(w, [steps[0]], ttl) == v;
      hide Next, Possible, Inv;
      var j := ApprovalOf(v, steps[1..], ttl, id);
      RunStep(w, steps, ttl, j);
      k := j + 1;
    }
  }

  lemma DecidedIsKnown(w: World, c: Change, id: string)
    requires Inv(w) && Approves(w.memory, c) && c.id == id
    ensures id in w.known
  {
    assert w.memory[IndexOf(w.memory, id)].id == id;
  }

  /** An execution used up an approved record that a consumption for exactly its call took out. */
  lemma {:induction false} ConsumptionOf(w: World, steps: seq<Step>, ttl: int, a: Approval) returns (k: nat)
    requires Inv(w) && PossibleRun(w, steps, ttl) && a in Run(w, steps, ttl).executed
    requires a !in w.executed && a !in w.grants && (w.control.Unsaved? ==> w.control.granted != Some(a))
    ensures k < |steps| && steps[k] == Mutate(Consume(a.session, a.tool, a.args))
    ensures PossibleRun(w, steps[..k], ttl)
    ensures var at := Run(w, steps[..k], ttl); a in at.memory && a.id in at.approvals
    decreases |steps|
  {
    var v := Next(w, steps[0], ttl);
    if v.control.Unsaved? && v.control.granted == Some(a) {
      k := 0;
      assert steps[..0] == [];
      TakenWasThere(w, steps[0].change, a);
    } else {
      InvAlways(w, [steps[0]], ttl);
      assert [steps[0]][1..] == [] && PossibleRun(v, [], ttl) && Run(w, [steps[0]], ttl) == v;
      hide Possible, Inv, Changed, Granted, Approves;
      assert a !in v.executed && a !in v.grants;
      hide Next;
      var j := ConsumptionOf(v, steps[1..], ttl, a);
      RunStep(w, steps, ttl, j);
      k := j + 1;
    }
  }

  lemma TakenWasThere(w: World, c: Change, a: Approval)
    requires Inv(w) && Granted(w.memory, c) == Some(a)
    ensures c == Consume(a.session, a.tool, a.args) && a in w.memory && a.id in w.approvals
  {
    var i := FirstUsable(w.memory, c.session, c.tool, c.args);
    assert w.memory[i] == a;
  }

  lemma StillAsRequested(steps: seq<Step>, ttl: int, a: Approval, k: nat, n: nat)
    requires k <= n <= |steps| && PossibleRun(FRESH, steps[..k], ttl) && PossibleRun(FRESH, steps[..n], ttl)
    requires PossibleRun(Run(FRESH, steps[..k], ttl), steps[k..n], ttl)
    requires a.id in Run(FRESH, steps[..k], ttl).known && a in Run(FRESH, steps[..n], ttl).memory
    requires Traceable(Run(FRESH, steps[..n], ttl).memory, Run(FRESH, steps[..n], ttl))
    ensures SameRequest(a, Run(FRESH, steps[..k], ttl).known[a.id])
  {
    hide Next, Possible;
    assert steps[..k] + steps[k..n] == steps[..n];
    RunsConcat(FRESH, steps[..k], steps[k..n], ttl);
    KnownForGood(Run(FRESH, steps[..k], ttl), steps[k..n], ttl, a.id);
  }

  lemma {:induction false} RestIsPossible(w: World, a: seq<Step>, b: seq<Step>, ttl: int)
    requires PossibleRun(w, a + b, ttl) && PossibleRun(w, a, ttl)
    ensures PossibleRun(Run(w, a, ttl), b, ttl)
    decreases |a|
  {
    if a == [] {
      assert a + b == b;
    } else {
      hide Next, Possible;
      assert (a + b)[0] == a[0] && (a + b)[1..] == a[1..] + b;
      RestIsPossible(Next(w, a[0], ttl), a[1..], b, ttl);
    }
  }

  /** Every execution goes back to three steps of the run, in this order: a request with its session, tool
      and arguments, an approval of that request, and a consumption for the same three. */
  lemma ExecutionsAreTraced(steps: seq<Step>, ttl: int, i: nat) returns (asked: nat, approved: nat, taken: nat)
    requires PossibleRun(FRESH, steps, ttl) && i < |Run(FRESH, steps, ttl).executed|
    ensures asked < approved < taken < |steps|
    ensures var a := Run(FRESH, steps, ttl).executed[i];
            && steps[asked].Mutate? && steps[asked].change.Request?
            && (var rec := steps[asked].change.rec;
                rec.id == a.id && rec.session == a.session && rec.tool == a.tool && rec.args == a.args)
            && steps[approved] == Mutate(Decision(a.id, Approved))
            && steps[taken] == Mutate(Consume(a.session, a.tool, a.args))
  {
    var a := Run(FRESH, steps, ttl).executed[i];
    assert Inv(FRESH) by { assert Ids([]) == {}; }
    taken := ConsumptionOf(FRESH, steps, ttl, a);
    approved := ApprovalOf(FRESH, steps[..taken], ttl, a.id);
    assert steps[..taken][..approved] == steps[..approved];
    asked := RequestOf(FRESH, steps[..approved], ttl, a.id);
    InvAlways(FRESH, steps[..taken], ttl);
    assert steps[..approved] + steps[approved..taken] == steps[..taken];
    RestIsPossible(FRESH, steps[..approved], steps[approved..taken], ttl);
    hide Next, Possible, PossibleRun, Run, SameRequest;
    StillAsRequested(steps, ttl, a, approved, taken);
    SameFields(a, Run(FRESH, steps[..approved], ttl).known[a.id]);
  }

  lemma SameFields(a: Approval, b: Approval)
    requires SameRequest(a, b)
    ensures a.id == b.id && a.session == b.session && a.tool == b.tool && a.args == b.args
  {
  }

  /** A hand-over does not survive a crash: after one, nothing executes before another consumption. */
  lemma CrashDropsHandOvers(w: World, torn: bool, steps: seq<Step>, ttl: int)
    requires PossibleRun(w, [Crash(torn)] + steps, ttl)
    requires forall k :: 0 <= k < |steps| && steps[k].Mutate? ==> !steps[k].change.Consume?
    ensures forall k :: 0 <= k < |steps| ==> !steps[k].Execute?
  {
    assert ([Crash(torn)] + steps)[1..] == steps;
    EmptyHanded(Next(w, Crash(torn), ttl), steps, ttl);
  }

  lemma {:induction false} EmptyHanded(w: World, steps: seq<Step>, ttl: int)
    requires PossibleRun(w, steps, ttl) && w.grants == [] && (w.control.Unsaved? ==> w.control.granted == None)
    requires forall k :: 0 <= k < |steps| && steps[k].Mutate? ==> !steps[k].change.Consume?
    ensures forall k :: 0 <= k < |steps| ==> !steps[k].Execute?
    decreases |steps|
  {
    if steps != [] {
      forall k | 0 <= k < |steps[1..]| ensures steps[1..][k] == steps[k + 1] { }
      EmptyHanded(Next(w, steps[0], ttl), steps[1..], ttl);
    }
  }

  ghost function CallIds(w: World, ids: set<string>, session: string, tool: string, args: string): set<string> {
    set id | id in ids && id in w.known && w.known[id].session == session && w.known[id].tool == tool
             && w.known[id].args == args
  }

  ghost function StatusIds(s: seq<Approval>, status: Status, session: string, tool: string, args: string): set<string> {
    set i | 0 <= i < |s| && s[i].status == status && s[i].session == session && s[i].tool == tool
            && s[i].args == args :: s[i].id
  }

  lemma StatusesSplitMemory(w: World, session: string, tool: string, args: string)
    requires Traceable(w.memory, w)
    ensures var ids := (status: Status) => StatusIds(w.memory, status, session, tool, args);
            && CallIds(w, Ids(w.memory), session, tool, args) == ids(Pending) + ids(Approved) + ids(Denied) + ids(Expired)
            && ids(Pending) !! ids(Approved) !! ids(Denied) !! ids(Expired)
  {
    var s := w.memory;
    forall i | 0 <= i < |s| ensures SameRequest(s[i], w.known[s[i].id]) { }
    forall id | id in CallIds(w, Ids(s), session, tool, args)
      ensures exists status :: id in StatusIds(s, status, session, tool, args)
    {
      var i :| 0 <= i < |s| && s[i].id == id;
      assert id in StatusIds(s, s[i].status, session, tool, args);
    }
  }

  ghost predicate Conserved(w: World, session: string, tool: string, args: string) {
    |CallIds(w, w.known.Keys, session, tool, args)| ==
      |StatusIds(w.memory, Pending, session, tool, args)| + |StatusIds(w.memory, Approved, session, tool, args)|
      + |StatusIds(w.memory, Denied, session, tool, args)| + |StatusIds(w.memory, Expired, session, tool, args)|
      + |CallIds(w, w.consumed + InFlight(w), session, tool, args)|
      + |CallIds(w, w.lost, session, tool, args)|
  }

  lemma DisjointSizes(all: set<string>, a: set<string>, b: set<string>, c: set<string>)
    requires all == a + b + c && a !! b !! c
    ensures |all| == |a| + |b| + |c|
  {
    assert |a + b| == |a| + |b|;
  }

  lemma CallIdsSplit(w: World, a: set<string>, b: set<string>, session: string, tool: string, args: string)
    requires a !! b
    ensures |CallIds(w, a + b, session, tool, args)|
            == |CallIds(w, a, session, tool, args)| + |CallIds(w, b, session, tool, args)|
  {
    assert CallIds(w, a + b, session, tool, args) == CallIds(w, a, session, tool, args) + CallIds(w, b, session, tool, args);
  }

  lemma FourSizes(all: set<string>, a: set<string>, b: set<string>, c: set<string>, d: set<string>)
    requires all == a + b + c + d && a !! b !! c !! d
    ensures |all| == |a| + |b| + |c| + |d|
  {
    DisjointSizes(a + b + c, a, b, c);
    assert |all| == |a + b + c| + |d|;
  }

  lemma PartitionConserves(w: World, session: string, tool: string, args: string)
    requires Traceable(w.memory, w) && Partitioned(w)
    ensures Conserved(w, session, tool, args)
  {
    var memory, used := Ids(w.memory), w.consumed + InFlight(w);
    assert w.known.Keys == memory + used + w.lost && (memory + used) !! w.lost && memory !! used;
    StatusesSplitMemory(w, session, tool, args);
    hide Traceable, Partitioned, Ids, InFlight, CallIds, StatusIds;
    CallIdsSplit(w, memory + used, w.lost, session, tool, args);
    CallIdsSplit(w, memory, used, session, tool, args);
    FourSizes(CallIds(w, memory, session, tool, args),
              StatusIds(w.memory, Pending, session, tool, args), StatusIds(w.memory, Approved, session, tool, args),
              StatusIds(w.memory, Denied, session, tool, args), StatusIds(w.memory, Expired, session, tool, args));
  }

  /** Conservation per (session, tool, arguments): every request is pending, approved, denied,
      expired, consumed (or being handed over), or was lost to a crash. */
  lemma RequestsConserved(steps: seq<Step>, ttl: int, session: string, tool: string, args: string)
    requires PossibleRun(FRESH, steps, ttl)
    ensures Conserved(Run(FRESH, steps, ttl), session, tool, args)
  {
    assert Ids([]) == {};
    InvAlways(FRESH, steps, ttl);
    PartitionConserves(Run(FRESH, steps, ttl), session, tool, args);
  }

  /** Exactly what a crash loses: an untorn crash only the request it interrupts, a torn write
      everything the store held. */
  lemma CrashLoss(w: World, torn: bool, ttl: int)
    requires Inv(w) && Possible(w, Crash(torn))
    ensures Next(w, Crash(torn), ttl).lost - w.lost ==
      if torn then Ids(w.memory) + InFlight(w)
      else if w.control.Unsaved? then Asked(w.control.change) - Ids(w.control.before)
      else {}
  {
    assert Ids([]) == {};
  }

  /** Decisions and expiry are final: a change never alters a record that is not pending,
      except that a consumption removes the one it hands over. */
  lemma DecidedStaysDecided(s: seq<Approval>, c: Change, ttl: int, i: nat)
    requires DistinctIds(s) && i < |s| && s[i].status != Pending
    ensures s[i] in Changed(s, c, ttl) || Granted(s, c) == Some(s[i])
  {
    match c
    case Request(rec) => assert (s + [rec])[i] == s[i];
    case Decision(id, status) => assert Decided(s, id, status)[i] == s[i];
    case Tick(now) => assert ExpiredAt(s, now, ttl)[i] == s[i];
    case Consume(session, tool, args) =>
      var k := FirstUsable(s, session, tool, args);
      if k < |s| && k != i { assert Without(s, k)[if i < k then i else i - 1] == s[i]; }
  }
}
