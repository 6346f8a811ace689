/** The execute/reflect loop (zen_claw/agent/loop.py): bounded provider calls, a contract check
    and an approval check in front of every tool execution, and a tally of what happened. Wherever the
    loop awaits, the rest of the program may use the gate. */
module ExecuteLoop {
  import opened Options
  import opened Text
  import opened ApprovalGates

  // --- the intent contract ---

  datatype Contract = Contract(allowed: set<string>, denied: set<string>, escalation: bool)

  datatype Violation = DeniedByContract | OutsideOneShotScope | OutsideContract

  /** `_evaluate_intent_contract_tool_use`. */
  function ContractViolation(contract: Option<Contract>, toolName: string, oneShot: set<string>): Option<Violation> {
    var tool := Lower(Trim(toolName));
    if contract == None || tool == "" then None
    else if tool in contract.value.denied && tool !in oneShot then Some(DeniedByContract)
    else if tool in oneShot || tool in contract.value.allowed then None
    else if contract.value.escalation then Some(OutsideOneShotScope)
    else Some(OutsideContract)
  }

  /** `_contract_with_one_shot_approval`. */
  function WithOneShot(c: Contract, approved: set<string>): Contract {
    c.(allowed := c.allowed + approved, denied := c.denied - approved)
  }

  /** Whom a contract lets through, in terms of its two sets alone. */
  predicate Inside(contract: Option<Contract>, name: string, oneShot: set<string>) {
    || contract == None || name == ""
    || name in oneShot
    || (name in contract.value.allowed && name !in contract.value.denied)
  }

  /** The check refuses exactly what is not inside, and says which of three reasons it has. */
  lemma ViolationMeans(contract: Option<Contract>, toolName: string, oneShot: set<string>)
    ensures var name := Lower(Trim(toolName)); var violation := ContractViolation(contract, toolName, oneShot);
            && (violation == None <==> Inside(contract, name, oneShot))
            && (violation == Some(DeniedByContract) ==> name in contract.value.denied)
            && (violation == Some(OutsideOneShotScope) ==>
                  name !in contract.value.denied + contract.value.allowed && contract.value.escalation)
            && (violation == Some(OutsideContract) ==>
                  name !in contract.value.denied + contract.value.allowed && !contract.value.escalation)
  {
  }

  /** A contract widened by a one-shot approval admits exactly the approved tools, denied before or not, and
      the tools it allowed and did not deny; which agrees with passing the approval along. */
  lemma OneShotWidensExactly(c: Contract, approved: set<string>, toolName: string)
    requires Lower(Trim(toolName)) != ""
    ensures ContractViolation(Some(WithOneShot(c, approved)), toolName, {}) == None <==>
            Lower(Trim(toolName)) in approved
            || (Lower(Trim(toolName)) in c.allowed && Lower(Trim(toolName)) !in c.denied)
    ensures ContractViolation(Some(WithOneShot(c, approved)), toolName, {}) == None <==>
            ContractViolation(Some(c), toolName, approved) == None
  {
  }

  // --- what the loop cannot decide itself ---

  datatype Call = Call(id: string, tool: string, args: string)

  datatype Reply = Reply(error: bool, content: Option<string>, calls: seq<Call>) | ChatRaises

  datatype Outcome = Success | Failure(code: string) | Raises

  datatype Policy = NoPolicy | Allows | Denies(code: string)

  /** Where, besides the tool itself, the handling of a call can raise. */
  datatype Point = Rewriting | Auditing | Deciding | Publishing | Appending

  /** What others do with the gate: a person decides, time passes, another session asks or consumes. */
  datatype Other =
    | Decides(rawId: string, approve: bool)
    | Ages(now: int)
    | Asks(session: string, tool: string, args: string, now: int)
    | Takes(session: string, tool: string, args: string)

  /** The provider's replies and the tools' outcomes, by how many came before; the policy; the rewriting
      of arguments; which calls raise where; the identifiers the gate draws; what others do at each
      await; and the gate's configuration. */
  datatype Env = Env(chat: nat -> Reply, run: nat -> Outcome, policy: string -> Policy, rewrite: (string, string) -> string,
                     raises: (nat, Point) -> bool, freshId: nat -> string, meanwhile: nat -> seq<Other>,
                     gateEnabled: bool, sensitive: set<string>)

  predicate Sensitive(env: Env, tool: string) {
    Lower(Trim(tool)) in env.sensitive
  }

  predicate NeedsApproval(env: Env, tool: string, oneShot: set<string>) {
    env.gateEnabled && Sensitive(env, tool) && tool !in oneShot
  }

  // --- the record of a run ---

  /** A tool execution, with the arguments it got and the approval it used up. */
  datatype Executed = Executed(call: Call, approval: Option<Approval>)

  /** One entry per answered call. */
  datatype Result = Result(callId: string, ok: bool, code: string)

  function Oks(results: seq<Result>): nat {
    if results == [] then 0
    else Oks(results[..|results| - 1]) + (if results[|results| - 1].ok then 1 else 0)
  }

  lemma NoOks()
    ensures Oks([]) == 0
  {
  }

  lemma OksAppend(results: seq<Result>, r: Result)
    ensures Oks(results + [r]) == Oks(results) + (if r.ok then 1 else 0)
  {
    assert (results + [r])[..|results|] == results;
  }

  /** `drawn` counts the identifiers drawn by anyone, `awaits` the points where others ran. */
  datatype Tally = Tally(toolCalls: nat, successes: nat, failures: nat, aborted: nat, drawn: nat, awaits: nat,
                         executed: seq<Executed>)

  /** A batch stops early when the gate is asked, when a tool reports that it needs approval,
      or when an exception escapes. */
  datatype BatchEnd = Completed | GateAsked | ToolAsked | Aborted

  /** The session, contract and one-shot tools a run works under. */
  datatype Scope = Scope(session: string, contract: Option<Contract>, oneShot: set<string>)

  /** An execution the rules allow. */
  predicate Permitted(e: Executed, scope: Scope, env: Env) {
    && ContractViolation(scope.contract, e.call.tool, scope.oneShot) == None
    && (NeedsApproval(env, e.call.tool, scope.oneShot) ==>
          && e.approval.Some? && e.approval.value.status == Approved && e.approval.value.session == scope.session
          && e.approval.value.tool == e.call.tool && e.approval.value.args == e.call.args)
    && (!NeedsApproval(env, e.call.tool, scope.oneShot) ==> e.approval == None)
  }

  // --- the run of the gate behind a run of the loop ---

  ghost predicate Reaches(w: World, v: World, ttl: int) {
    exists steps :: PossibleRun(w, steps, ttl) && Run(w, steps, ttl) == v
  }

  lemma ReachesItself(w: World, ttl: int)
    ensures Reaches(w, w, ttl)
  {
    assert PossibleRun(w, [], ttl);
  }

  lemma ReachesOn(w: World, v: World, u: World, ttl: int)
    requires Reaches(w, v, ttl) && Reaches(v, u, ttl)
    ensures Reaches(w, u, ttl)
  {
    hide Next, Possible, PossibleRun, Run;
    var a :| PossibleRun(w, a, ttl) && Run(w, a, ttl) == v;
    var b :| PossibleRun(v, b, ttl) && Run(v, b, ttl) == u;
    RunsConcat(w, a, b, ttl);
  }

  lemma ReachesKnown(w: World, v: World, ttl: int)
    requires Reaches(w, v, ttl)
    ensures forall id :: id in w.known ==> id in v.known && v.known[id] == w.known[id]
  {
    hide Next, Possible, PossibleRun, Run;
    var steps :| PossibleRun(w, steps, ttl) && Run(w, steps, ttl) == v;
    forall id | id in w.known ensures id in v.known && v.known[id] == w.known[id] {
      KnownForGood(w, steps, ttl, id);
    }
  }

  lemma OneStep(w: World, step: Step, ttl: int)
    requires Possible(w, step)
    ensures Reaches(w, Next(w, step, ttl), ttl)
  {
    var steps := [step];
    assert PossibleRun(Next(w, step, ttl), steps[1..], ttl);
    assert PossibleRun(w, steps, ttl) && Run(w, steps, ttl) == Next(w, step, ttl);
  }

  /** The gate after a change and its write. */
  ghost function Settled(w: World, c: Change, ttl: int): World {
    var granted := Granted(w.memory, c);
    w.(memory := Changed(w.memory, c, ttl), disk := Intact(Changed(w.memory, c, ttl)),
       known := if c.Request? then w.known[c.rec.id := c.rec] else w.known,
       approvals := if Approves(w.memory, c) then w.approvals + {c.id} else w.approvals,
       grants := if granted.Some? then w.grants + [granted.value] else w.grants,
       consumed := if granted.Some? then w.consumed + {granted.value.id} else w.consumed)
  }

  lemma ChangeReaches(w: World, c: Change, ttl: int)
    requires Inv(w) && w.control == Idle && Sensible(w, c)
    ensures Reaches(w, Settled(w, c, ttl), ttl) && Inv(Settled(w, c, ttl))
  {
    hide Changed, Granted, Approves, Inv;
    var mutated := Next(w, Mutate(c), ttl);
    assert Possible(w, Mutate(c)) && Possible(mutated, WriteThrough);
    assert Next(mutated, WriteThrough, ttl) == Settled(w, c, ttl);
    hide Next, Settled, Possible;
    OneStep(w, Mutate(c), ttl);
    OneStep(mutated, WriteThrough, ttl);
    ReachesOn(w, mutated, Settled(w, c, ttl), ttl);
    MutateKeepsInv(w, c, ttl);
    WriteKeepsInv(mutated, ttl);
  }

  ghost function Ran(w: World, slot: nat): World
    requires slot < |w.grants|
  {
    w.(grants := Without(w.grants, slot), executed := w.executed + [w.grants[slot]])
  }

  lemma ExecuteReaches(w: World, slot: nat, ttl: int)
    requires Inv(w) && w.control == Idle && slot < |w.grants|
    ensures Reaches(w, Ran(w, slot), ttl) && Inv(Ran(w, slot))
  {
    assert Possible(w, Execute(slot)) && Next(w, Execute(slot), ttl) == Ran(w, slot);
    hide Next, Possible, Inv, Ran;
    OneStep(w, Execute(slot), ttl);
    ExecuteKeepsInv(w, slot, ttl);
  }

  /** No identifier still to be drawn has been used, and no two are the same. */
  ghost predicate FreshIds(env: Env, drawn: nat, w: World) {
    && (forall k :: k >= drawn ==> env.freshId(k) !in w.known)
    && (forall j, k :: drawn <= j < k ==> env.freshId(j) != env.freshId(k))
  }

  /** The executions of the loop are permitted, each approval was executed in the gate's own run, and no
      approval served twice. */
  ghost predicate Backed(executed: seq<Executed>, scope: Scope, env: Env, w: World) {
    && (forall i :: 0 <= i < |executed| ==> Permitted(executed[i], scope, env))
    && (forall i :: 0 <= i < |executed| && executed[i].approval.Some? ==> executed[i].approval.value in w.executed)
    && (forall i, j :: 0 <= i < j < |executed| && executed[i].approval.Some? && executed[j].approval.Some? ==>
          executed[i].approval.value.id != executed[j].approval.value.id)
  }

  /** The gate object is in the state of its run `w`. */
  ghost predicate Tracks(pending: seq<Approval>, w: World) {
    Inv(w) && w.control == Idle && w.memory == pending
  }

  ghost predicate Sound(t: Tally, scope: Scope, env: Env, pending: seq<Approval>, w: World) {
    && Tracks(pending, w) && Backed(t.executed, scope, env, w) && FreshIds(env, t.drawn, w)
    && t.toolCalls == t.successes + t.failures + t.aborted
  }

  lemma MoreExecutedIsBacked(executed: seq<Executed>, scope: Scope, env: Env, w: World, v: World)
    requires Backed(executed, scope, env, w) && w.executed <= v.executed
    ensures Backed(executed, scope, env, v)
  {
    hide Permitted;
    forall a | a in w.executed ensures a in v.executed {
      var i :| 0 <= i < |w.executed| && w.executed[i] == a;
      assert v.executed[i] == a;
    }
  }

  lemma RequestKeepsSound(t: Tally, scope: Scope, env: Env, w: World, rec: Approval, ttl: int)
    requires Sound(t, scope, env, w.memory, w) && rec.id == env.freshId(t.drawn) && rec.status == Pending
    ensures Sensible(w, Request(rec))
    ensures var v := Settled(w, Request(rec), ttl);
            Reaches(w, v, ttl) && Sound(t.(drawn := t.drawn + 1), scope, env, w.memory + [rec], v)
            && v.grants == w.grants && v.executed == w.executed && v.known == w.known[rec.id := rec]
  {
    ChangeReaches(w, Request(rec), ttl);
    hide Permitted, Inv, Reaches;
    var v := Settled(w, Request(rec), ttl);
    MoreExecutedIsBacked(t.executed, scope, env, w, v);
    assert v.known.Keys == w.known.Keys + {rec.id};
  }

  /** A decision, or the passing of time. */
  lemma UpdateKeepsSound(t: Tally, scope: Scope, env: Env, w: World, c: Change, ttl: int)
    requires Sound(t, scope, env, w.memory, w)
    requires c.Tick? || (c.Decision? && (c.status == Approved || c.status == Denied))
    ensures var v := Settled(w, c, ttl);
            Reaches(w, v, ttl) && Sound(t, scope, env, Changed(w.memory, c, ttl), v)
            && v.grants == w.grants && v.executed == w.executed
  {
    ChangeReaches(w, c, ttl);
    hide Permitted, Inv, Reaches, Changed;
    MoreExecutedIsBacked(t.executed, scope, env, w, Settled(w, c, ttl));
  }

  /** A consumption hands its record over. */
  lemma ConsumeKeepsSound(t: Tally, scope: Scope, env: Env, w: World, c: Change, ttl: int)
    requires Sound(t, scope, env, w.memory, w) && c.Consume?
    ensures var v := Settled(w, c, ttl); var granted := Granted(w.memory, c);
            && Reaches(w, v, ttl) && Sound(t, scope, env, Changed(w.memory, c, ttl), v) && v.executed == w.executed
            && v.grants == (if granted.Some? then w.grants + [granted.value] else w.grants)
  {
    ChangeReaches(w, c, ttl);
    hide Permitted, Inv, Reaches, Changed, Granted;
    MoreExecutedIsBacked(t.executed, scope, env, w, Settled(w, c, ttl));
  }

  /** Somebody executes what was handed over last. */
  lemma HandOverKeepsSound(t: Tally, scope: Scope, env: Env, w: World, ttl: int)
    requires Sound(t, scope, env, w.memory, w) && w.grants != []
    ensures var v := Ran(w, |w.grants| - 1);
            && Reaches(w, v, ttl) && Sound(t, scope, env, w.memory, v)
            && v.grants == w.grants[..|w.grants| - 1] && v.executed == w.executed + [w.grants[|w.grants| - 1]]
  {
    ExecuteReaches(w, |w.grants| - 1, ttl);
    hide Permitted, Inv, Reaches;
    MoreExecutedIsBacked(t.executed, scope, env, w, Ran(w, |w.grants| - 1));
  }

  /** Executing with an approval that the gate handed over to this call. */
  lemma ApprovedExecutionKeepsSound(t: Tally, scope: Scope, env: Env, w: World, call: Call, ttl: int)
    requires Sound(t, scope, env, w.memory, w) && w.grants != []
    requires Usable(w.grants[|w.grants| - 1], scope.session, call.tool, call.args)
    requires NeedsApproval(env, call.tool, scope.oneShot)
    requires ContractViolation(scope.contract, call.tool, scope.oneShot) == None
    ensures var v := Ran(w, |w.grants| - 1); var approval := w.grants[|w.grants| - 1];
            && Reaches(w, v, ttl)
            && Sound(t.(executed := t.executed + [Executed(call, Some(approval))]), scope, env, w.memory, v)
            && v.grants == w.grants[..|w.grants| - 1]
  {
    var approval := w.grants[|w.grants| - 1];
    NeverExecutedBefore(w, approval);
    HandOverKeepsSound(t, scope, env, w, ttl);
    hide Inv, Reaches, NeedsApproval, ContractViolation, FreshIds;
    var v := Ran(w, |w.grants| - 1);
    forall i | 0 <= i < |t.executed| && t.executed[i].approval.Some?
      ensures t.executed[i].approval.value.id != approval.id { }
    assert approval in v.executed;
  }

  lemma NeverExecutedBefore(w: World, approval: Approval)
    requires Inv(w) && approval in w.grants
    ensures forall a :: a in w.executed ==> a.id != approval.id
  {
    var i :| 0 <= i < |w.grants| && w.grants[i] == approval;
    assert w.grants[i].id in Ids(w.grants);
    forall a | a in w.executed ensures a.id != approval.id {
      var j :| 0 <= j < |w.executed| && w.executed[j] == a;
      assert w.executed[j].id in Ids(w.executed);
    }
  }

  lemma PlainExecutionKeepsSound(t: Tally, scope: Scope, env: Env, pending: seq<Approval>, w: World, call: Call)
    requires Sound(t, scope, env, pending, w) && !NeedsApproval(env, call.tool, scope.oneShot)
    requires ContractViolation(scope.contract, call.tool, scope.oneShot) == None
    ensures Sound(t.(executed := t.executed + [Executed(call, None)]), scope, env, pending, w)
  {
    hide Tracks, FreshIds, NeedsApproval, ContractViolation;
  }

  /** How a call ends in the tally. */
  datatype Count = Good | Bad | Lost

  function Counted(t: Tally, n: Count): Tally {
    match n
    case Good => t.(toolCalls := t.toolCalls + 1, successes := t.successes + 1)
    case Bad => t.(toolCalls := t.toolCalls + 1, failures := t.failures + 1)
    case Lost => t.(toolCalls := t.toolCalls + 1, aborted := t.aborted + 1)
  }

  lemma CountedKeepsSound(t: Tally, scope: Scope, env: Env, pending: seq<Approval>, w: World, n: Count)
    requires Sound(t, scope, env, pending, w)
    ensures Sound(Counted(t, n), scope, env, pending, w)
  {
    hide Tracks, FreshIds, Backed;
  }

  lemma WaitedKeepsSound(t: Tally, scope: Scope, env: Env, pending: seq<Approval>, w: World)
    requires Sound(t, scope, env, pending, w)
    ensures Sound(t.(awaits := t.awaits + 1), scope, env, pending, w)
  {
    hide Tracks, FreshIds, Backed;
  }

  // --- the loop ---

  /** One action of the rest of the program on the gate. */
  method Interfere(gate: ApprovalGate, other: Other, scope: Scope, env: Env, start: Tally, ghost w: World)
    returns (t: Tally, ghost v: World)
    requires gate.Valid() && Sound(start, scope, env, gate.pending, w)
    modifies gate
    ensures gate.Valid() && Sound(t, scope, env, gate.pending, v) && Reaches(w, v, gate.ttl)
    ensures v.grants == w.grants && t == start.(drawn := t.drawn)
    ensures other.Decides? ==>
      |gate.pending| == |old(gate.pending)| && forall i :: 0 <= i < |gate.pending| ==>
        gate.pending[i] ==
        if old(gate.pending)[i].id == Upper(Trim(other.rawId)) && old(gate.pending)[i].status == Pending
        then old(gate.pending)[i].(status := if other.approve then Approved else Denied) else old(gate.pending)[i]
    ensures other.Asks? ==>
      gate.pending == old(gate.pending)
                      + [Approval(env.freshId(start.drawn), other.session, other.tool, other.args, other.now, Pending)]
    ensures other.Takes? ==>
      if exists k :: 0 <= k < |old(gate.pending)| && old(gate.pending)[k].status == Approved
                     && old(gate.pending)[k].session == other.session && old(gate.pending)[k].tool == other.tool
                     && old(gate.pending)[k].args == other.args
      then |gate.pending| == |old(gate.pending)| - 1 else gate.pending == old(gate.pending)
    ensures other.Ages? ==>
      |gate.pending| == |old(gate.pending)| && forall i :: 0 <= i < |gate.pending| ==>
        gate.pending[i] ==
        if old(gate.pending)[i].status == Pending && other.now > old(gate.pending)[i].createdAt + gate.ttl
        then old(gate.pending)[i].(status := Expired) else old(gate.pending)[i]
  {
    hide *;
    TracksMeans(gate.pending, w, start, scope, env);
    t := start;
    match other {
      case Decides(rawId, approve) =>
        var status := if approve then Approved else Denied;
        ghost var c := Decision(Upper(Trim(rawId)), status);
        ChangedIs(gate.pending, c, gate.ttl);
        UpdateKeepsSound(t, scope, env, w, c, gate.ttl);
        var _ := gate.Decide(rawId, status);
        v := Settled(w, c, gate.ttl);
      case Ages(now) =>
        ChangedIs(gate.pending, Tick(now), gate.ttl);
        UpdateKeepsSound(t, scope, env, w, Tick(now), gate.ttl);
        gate.ExpireOld(now);
        v := Settled(w, Tick(now), gate.ttl);
      case Asks(session, tool, args, now) =>
        ghost var rec := Approval(env.freshId(t.drawn), session, tool, args, now, Pending);
        RequestKeepsSound(t, scope, env, w, rec, gate.ttl);
        var _ := gate.RequestApproval(env.freshId(t.drawn), session, tool, args, now);
        v := Settled(w, Request(rec), gate.ttl);
        t := t.(drawn := t.drawn + 1);
      case Takes(session, tool, args) =>
        ghost var c := Consume(session, tool, args);
        ChangedIs(gate.pending, c, gate.ttl);
        ConsumeKeepsSound(t, scope, env, w, c, gate.ttl);
        var taken := gate.ConsumeApproved(session, tool, args);
        v := Settled(w, c, gate.ttl);
        if taken.Some? {
          TracksMeans(gate.pending, v, t, scope, env);
          HandOverKeepsSound(t, scope, env, v, gate.ttl);
          ReachesOn(w, v, Ran(v, |v.grants| - 1), gate.ttl);
          v := Ran(v, |v.grants| - 1);
        }
    }
  }

  lemma TracksMeans(pending: seq<Approval>, w: World, t: Tally, scope: Scope, env: Env)
    requires Sound(t, scope, env, pending, w)
    ensures w.memory == pending && env.freshId(t.drawn) !in Ids(pending) && env.freshId(t.drawn) !in w.known
  {
    assert forall i :: 0 <= i < |pending| ==> pending[i].id in w.known;
  }

  /** What the gate's methods do, change by change. */
  lemma ChangedIs(pending: seq<Approval>, c: Change, ttl: int)
    ensures c.Decision? ==> Changed(pending, c, ttl) == Decided(pending, c.id, c.status)
    ensures c.Tick? ==> Changed(pending, c, ttl) == ExpiredAt(pending, c.now, ttl)
    ensures c.Consume? ==>
      var i := FirstUsable(pending, c.session, c.tool, c.args);
      && Changed(pending, c, ttl) == (if i < |pending| then Without(pending, i) else pending)
      && Granted(pending, c) == (if i < |pending| then Some(pending[i]) else None)
  {
  }

  /** An await: others run. */
  method Await(gate: ApprovalGate, scope: Scope, env: Env, start: Tally, ghost w: World)
    returns (t: Tally, ghost v: World)
    requires gate.Valid() && Sound(start, scope, env, gate.pending, w)
    modifies gate
    ensures gate.Valid() && Sound(t, scope, env, gate.pending, v) && Reaches(w, v, gate.ttl)
    ensures v.grants == w.grants && t == start.(drawn := t.drawn, awaits := start.awaits + 1)
  {
    hide *;
    var others := env.meanwhile(start.awaits);
    t, v := start.(awaits := start.awaits + 1), w;
    WaitedKeepsSound(start, scope, env, gate.pending, w);
    ReachesItself(w, gate.ttl);
    for i := 0 to |others|
      invariant gate.Valid() && Sound(t, scope, env, gate.pending, v) && Reaches(w, v, gate.ttl)
      invariant v.grants == w.grants && t == start.(drawn := t.drawn, awaits := start.awaits + 1)
    {
      ghost var u := v;
      t, v := Interfere(gate, others[i], scope, env, t, v);
      ReachesOn(w, u, v, gate.ttl);
    }
  }

  /** An approval for exactly this call is waiting. */
  ghost predicate ApprovalWaits(scope: Scope, call: Call, pending: seq<Approval>) {
    exists k :: 0 <= k < |pending| && pending[k].status == Approved && pending[k].session == scope.session
                && pending[k].tool == call.tool && pending[k].args == call.args
  }

  /** How the approval step in front of a sensitive call ends. */
  datatype Clearance = Cleared | Refused(result: Result) | Asked(result: Result) | Broken

  lemma WaitingIs(scope: Scope, call: Call, pending: seq<Approval>)
    ensures ApprovalWaits(scope, call, pending) <==>
            exists k :: 0 <= k < |pending| && pending[k].status == Approved && pending[k].session == scope.session
                        && pending[k].tool == call.tool && pending[k].args == call.args
  {
  }

  /** The approval step in front of a sensitive call: take a matching approval out of the gate and use it
      up for this call, or be refused by policy, or leave a request behind. */
  method SeekApproval(gate: ApprovalGate, scope: Scope, env: Env, call: Call, start: Tally, now: int, ghost w: World)
    returns (t: Tally, clearance: Clearance, ghost v: World)
    requires gate.Valid() && Sound(start, scope, env, gate.pending, w)
    requires NeedsApproval(env, call.tool, scope.oneShot)
    requires ContractViolation(scope.contract, call.tool, scope.oneShot) == None
    modifies gate
    ensures gate.Valid() && Sound(t, scope, env, gate.pending, v) && Reaches(w, v, gate.ttl)
    ensures t.toolCalls == start.toolCalls && t.successes == start.successes && t.failures == start.failures
    ensures t.aborted == start.aborted
    ensures !clearance.Cleared? ==> t.executed == start.executed
    ensures clearance.Cleared? ==>
      |t.executed| == |start.executed| + 1 && start.executed <= t.executed && t.executed[|start.executed|].call == call
    ensures ApprovalWaits(scope, call, old(gate.pending)) ==> clearance.Cleared? || clearance.Broken?
    ensures clearance.Cleared? ==> ApprovalWaits(scope, call, old(gate.pending))
    ensures clearance.Refused? ==> env.policy(call.tool).Denies? && clearance.result == Result(call.id, false, env.policy(call.tool).code)
    ensures clearance.Asked? ==> !env.policy(call.tool).Denies? && clearance.result == Result(call.id, false, "approval_required")
    ensures clearance.Asked? ==>
      var id := env.freshId(start.drawn);
      && id !in w.known && id in v.known
      && v.known[id] == Approval(id, scope.session, call.tool, call.args, now, Pending)
  {
    hide *;
    var number := start.toolCalls;
    ghost var taking := Consume(scope.session, call.tool, call.args);
    TracksMeans(gate.pending, w, start, scope, env);
    ChangedIs(gate.pending, taking, gate.ttl);
    ConsumeKeepsSound(start, scope, env, w, taking, gate.ttl);
    WaitingIs(scope, call, gate.pending);
    var approval := gate.ConsumeApproved(scope.session, call.tool, call.args);
    v := Settled(w, taking, gate.ttl);
    if approval.Some? {
      ghost var u := v;
      t, v := Await(gate, scope, env, start, v);
      ReachesOn(w, u, v, gate.ttl);
      if env.raises(number, Auditing) { return t, Broken, v; }
      TracksMeans(gate.pending, v, t, scope, env);
      ApprovedExecutionKeepsSound(t, scope, env, v, call, gate.ttl);
      t := t.(executed := t.executed + [Executed(call, approval)]);
      ReachesOn(w, v, Ran(v, |v.grants| - 1), gate.ttl);
      return t, Cleared, Ran(v, |v.grants| - 1);
    }
    if env.raises(number, Deciding) { return start, Broken, v; }
    var policy := env.policy(call.tool);
    ghost var u := v;
    if policy.Denies? {
      t, v := Await(gate, scope, env, start, v);
      ReachesOn(w, u, v, gate.ttl);
      return t, Refused(Result(call.id, false, policy.code)), v;
    }
    TracksMeans(gate.pending, v, start, scope, env);
    ghost var rec := Approval(env.freshId(start.drawn), scope.session, call.tool, call.args, now, Pending);
    RequestKeepsSound(start, scope, env, v, rec, gate.ttl);
    var _ := gate.RequestApproval(env.freshId(start.drawn), scope.session, call.tool, call.args, now);
    v := Settled(v, Request(rec), gate.ttl);
    ReachesOn(w, u, v, gate.ttl);
    u := v;
    t, v := Await(gate, scope, env, start.(drawn := start.drawn + 1), v);
    ReachesKnown(u, v, gate.ttl);
    ReachesOn(w, u, v, gate.ttl);
    if env.raises(number, Publishing) { return t, Broken, v; }
    return t, Asked(Result(call.id, false, "approval_required")), v;
  }

  /** A counted result on its way into the transcript; appending it can raise, too. */
  method Answer(gate: ApprovalGate, scope: Scope, env: Env, start: Tally, number: nat, r: Result, end: BatchEnd, ghost w: World)
    returns (t: Tally, result: Option<Result>, ended: BatchEnd)
    requires gate.Valid() && Sound(start, scope, env, gate.pending, w) && end != Aborted
    ensures Sound(t, scope, env, gate.pending, w) && t == Counted(start, if r.ok then Good else Bad)
    ensures result == (if env.raises(number, Appending) then None else Some(r))
    ensures ended == (if env.raises(number, Appending) then Aborted else end)
  {
    CountedKeepsSound(start, scope, env, gate.pending, w, if r.ok then Good else Bad);
    t := Counted(start, if r.ok then Good else Bad);
    if env.raises(number, Appending) { return t, None, Aborted; }
    return t, Some(r), end;
  }

  method Abort(gate: ApprovalGate, scope: Scope, env: Env, start: Tally, ghost w: World)
    returns (t: Tally)
    requires Sound(start, scope, env, gate.pending, w)
    ensures Sound(t, scope, env, gate.pending, w) && t == Counted(start, Lost)
  {
    CountedKeepsSound(start, scope, env, gate.pending, w, Lost);
    t := Counted(start, Lost);
  }

  /** The call as it is executed. */
  function Rewritten(env: Env, call: Call): Call {
    call.(args := env.rewrite(call.tool, call.args))
  }

  /** The call is one of those the gate watches. */
  predicate Guarded(scope: Scope, env: Env, call: Call) {
    env.gateEnabled && Lower(Trim(call.tool)) in env.sensitive && call.tool !in scope.oneShot
  }

  lemma NeedsMeans(scope: Scope, env: Env, call: Call)
    ensures NeedsApproval(env, call.tool, scope.oneShot) <==> Guarded(scope, env, call)
  {
  }

  /** What happens to an answered call: it runs if and only if the contract admits it and, when the gate
      watches it, an approval waits; and what a call that does not run is told. */
  ghost predicate Judged(scope: Scope, env: Env, call: Call, pending: seq<Approval>, ran: bool, r: Result, asks: bool) {
    var inside := Inside(scope.contract, Lower(Trim(call.tool)), scope.oneShot);
    && (ran <==> inside && (Guarded(scope, env, call) ==> ApprovalWaits(scope, call.(args := env.rewrite(call.tool, call.args)), pending)))
    && (!inside ==> r == Result(call.id, false, "intent_contract_denied"))
    && (inside && !ran ==>
          r == Result(call.id, false, if env.policy(call.tool).Denies? then env.policy(call.tool).code else "approval_required"))
    && (asks <==> inside && !ran && !env.policy(call.tool).Denies?)
  }

  /** The part of it that does not depend on what the gate holds at the moment. */
  ghost predicate Ruled(scope: Scope, env: Env, call: Call, ran: bool, r: Result, asks: bool) {
    var inside := Inside(scope.contract, Lower(Trim(call.tool)), scope.oneShot);
    && (ran ==> inside)
    && (inside && !ran ==>
          && Guarded(scope, env, call)
          && r == Result(call.id, false, if env.policy(call.tool).Denies? then env.policy(call.tool).code else "approval_required"))
    && (!inside ==> r == Result(call.id, false, "intent_contract_denied"))
    && (asks <==> inside && !ran && !env.policy(call.tool).Denies?)
  }

  lemma JudgedIsRuled(scope: Scope, env: Env, call: Call, pending: seq<Approval>, ran: bool, r: Result, asks: bool)
    requires Judged(scope, env, call, pending, ran, r, asks)
    ensures Ruled(scope, env, call, ran, r, asks)
  {
    hide Inside, Guarded, ApprovalWaits;
  }

  lemma RuledNext(scope: Scope, env: Env, calls: seq<Call>, results: seq<Result>, result: Option<Result>,
                  ran: seq<nat>, now: bool, asks: bool)
    requires |results| < |calls| && (forall k :: 0 <= k < |ran| ==> ran[k] < |results|)
    requires forall k :: 0 <= k < |results| ==> Ruled(scope, env, calls[k], k in ran, results[k], false)
    requires result.Some? ==> Ruled(scope, env, calls[|results|], now, result.value, asks)
    requires asks ==> result.Some?
    ensures var more := if now then ran + [|results|] else ran; var all := Answers(results, result);
            forall k :: 0 <= k < |all| ==> Ruled(scope, env, calls[k], k in more, all[k], asks && k == |all| - 1)
  {
    hide Ruled;
    var more := if now then ran + [|results|] else ran;
    assert (|results| in more) == now;
    forall k | 0 <= k < |results| ensures (k in more) == (k in ran) { }
  }

  /** What one call adds to the tally. */
  ghost predicate AddsOne(start: Tally, t: Tally, result: Option<Result>) {
    && t.toolCalls == start.toolCalls + 1
    && t.successes + t.failures + t.aborted == start.successes + start.failures + start.aborted + 1
    && start.successes <= t.successes && start.failures <= t.failures && start.aborted <= t.aborted
    && (result.Some? ==>
          && t.successes == start.successes + (if result.value.ok then 1 else 0)
          && t.failures == start.failures + (if result.value.ok then 0 else 1))
  }

  /** The answer to a call that ran is the outcome of its tool. */
  predicate Tells(r: Result, outcome: Outcome) {
    r.ok == outcome.Success? && r.code == (if outcome.Failure? then outcome.code else "")
  }

  /** What the loop may have executed for one call: nothing, and then it has no positive answer, or that
      call with its rewritten arguments, answered with the outcome of the tool. */
  ghost predicate RanAtMost(start: Tally, t: Tally, env: Env, call: Call, result: Option<Result>, end: BatchEnd) {
    || (t.executed == start.executed && (result.Some? ==> !result.value.ok) && end != ToolAsked)
    || (&& |t.executed| == |start.executed| + 1 && start.executed <= t.executed
        && t.executed[|start.executed|].call == Rewritten(env, call)
        && (result.Some? ==> Tells(result.value, env.run(|start.executed|)))
        && (end == ToolAsked <==> result.Some? && env.run(|start.executed|) == Failure("approval_required"))
        && (env.run(|start.executed|) == Raises ==> result == None))
  }

  /** One tool call of a batch. */
  method HandleCall(gate: ApprovalGate, scope: Scope, env: Env, call: Call, start: Tally, now: int, ghost w: World)
    returns (t: Tally, result: Option<Result>, end: BatchEnd, ghost v: World)
    requires gate.Valid() && Sound(start, scope, env, gate.pending, w) && start.aborted == 0
    modifies gate
    ensures gate.Valid() && Sound(t, scope, env, gate.pending, v) && Reaches(w, v, gate.ttl)
    ensures AddsOne(start, t, result) && RanAtMost(start, t, env, call, result, end)
    ensures (result == None <==> end == Aborted) && (result.Some? ==> result.value.callId == call.id && t.aborted == 0)
    ensures end == GateAsked || end == ToolAsked ==> result.Some? && result.value.code == "approval_required"
    ensures result.Some? ==> Judged(scope, env, call, old(gate.pending), t.executed != start.executed, result.value, end == GateAsked)
    ensures end == GateAsked ==>
      var id := env.freshId(start.drawn);
      && id !in w.known && id in v.known
      && v.known[id] == Approval(id, scope.session, call.tool, env.rewrite(call.tool, call.args), now, Pending)
    ensures !Inside(scope.contract, Lower(Trim(call.tool)), scope.oneShot) ==> t.executed == start.executed
  {
    ViolationMeans(scope.contract, call.tool, scope.oneShot);
    NeedsMeans(scope, env, call);
    hide Sound, Reaches, ContractViolation, NeedsApproval, Inside, Guarded;
    ReachesItself(w, gate.ttl);
    v := w;
    var number := start.toolCalls;
    if env.raises(number, Rewriting) {
      t := Abort(gate, scope, env, start, w);
      return t, None, Aborted, v;
    }
    var final := Rewritten(env, call);
    if ContractViolation(scope.contract, call.tool, scope.oneShot).Some? {
      t, result, end := Answer(gate, scope, env, start, number, Result(call.id, false, "intent_contract_denied"), Completed, w);
      return;
    }
    if NeedsApproval(env, call.tool, scope.oneShot) {
      var clearance;
      t, clearance, v := SeekApproval(gate, scope, env, final, start, now, w);
      match clearance {
        case Cleared =>
        case Broken =>
          t := Abort(gate, scope, env, t, v);
          return t, None, Aborted, v;
        case Refused(r) =>
          t, result, end := Answer(gate, scope, env, t, number, r, Completed, v);
          return;
        case Asked(r) =>
          t, result, end := Answer(gate, scope, env, t, number, r, GateAsked, v);
          return;
      }
    } else {
      PlainExecutionKeepsSound(start, scope, env, gate.pending, w, final);
      t := start.(executed := start.executed + [Executed(final, None)]);
    }
    t, result, end, v := Execution(gate, scope, env, call, t, number, |start.executed|, w, v);
  }

  /** The tool runs, which takes a while; then its outcome is counted and answered. */
  method Execution(gate: ApprovalGate, scope: Scope, env: Env, call: Call, start: Tally, number: nat, slot: nat,
                   ghost w: World, ghost u: World)
    returns (t: Tally, result: Option<Result>, end: BatchEnd, ghost v: World)
    requires gate.Valid() && Sound(start, scope, env, gate.pending, u) && Reaches(w, u, gate.ttl) && start.aborted == 0
    modifies gate
    ensures gate.Valid() && Sound(t, scope, env, gate.pending, v) && Reaches(w, v, gate.ttl)
    ensures AddsOne(start, t, result) && t.executed == start.executed
    ensures result.Some? ==> result.value.callId == call.id && Tells(result.value, env.run(slot))
    ensures end == ToolAsked <==> result.Some? && env.run(slot) == Failure("approval_required")
    ensures end != GateAsked
    ensures env.run(slot) == Raises ==> result == None
    ensures (result == None <==> end == Aborted) && (result.Some? ==> t.aborted == 0)
    ensures end == GateAsked || end == ToolAsked ==> result.Some? && result.value.code == "approval_required"
  {
    hide Sound, Reaches;
    t, v := Await(gate, scope, env, start, u);
    ReachesOn(w, u, v, gate.ttl);
    match env.run(slot) {
      case Raises =>
        t := Abort(gate, scope, env, t, v);
        return t, None, Aborted, v;
      case Success =>
        t, result, end := Answer(gate, scope, env, t, number, Result(call.id, true, ""), Completed, v);
      case Failure(code) =>
        t, result, end := Answer(gate, scope, env, t, number, Result(call.id, false, code),
                                 if code == "approval_required" then ToolAsked else Completed, v);
    }
  }

  /** The executions a batch adds are those of the calls at the positions `ran`, in order, each call at
      most once and with its rewritten arguments. */
  ghost predicate RanInOrder(before: seq<Executed>, after: seq<Executed>, env: Env, calls: seq<Call>,
                             reached: nat, ran: seq<nat>)
  {
    && before <= after && |after| == |before| + |ran| && reached <= |calls|
    && (forall k :: 0 <= k < |ran| ==>
          ran[k] < reached && after[|before| + k].call == Rewritten(env, calls[ran[k]]))
    && (forall j, k :: 0 <= j < k < |ran| ==> ran[j] < ran[k])
  }

  /** The calls that ran are answered with the outcome of the tool, and all others in the negative. The batch
      ends early on a tool's own request for approval, and only then with such an end. */
  ghost predicate AnsweredByTools(before: seq<Executed>, env: Env, results: seq<Result>, ran: seq<nat>, end: BatchEnd) {
    && (forall k :: 0 <= k < |ran| && ran[k] < |results| ==>
          && Tells(results[ran[k]], env.run(|before| + k))
          && (env.run(|before| + k) == Failure("approval_required") <==> end == ToolAsked && ran[k] == |results| - 1))
    && (forall i :: 0 <= i < |results| && results[i].ok ==> i in ran)
    && (end == ToolAsked ==> results != [] && |results| - 1 in ran)
  }

  lemma RanNothing(executed: seq<Executed>, env: Env, calls: seq<Call>)
    ensures RanInOrder(executed, executed, env, calls, 0, []) && AnsweredByTools(executed, env, [], [], Completed)
  {
  }

  function Answers(results: seq<Result>, result: Option<Result>): seq<Result> {
    if result.Some? then results + [result.value] else results
  }

  lemma AnswersAre(results: seq<Result>, result: Option<Result>)
    ensures Answers(results, result) == if result.Some? then results + [result.value] else results
  {
  }

  lemma RanNext(before: seq<Executed>, mid: seq<Executed>, after: seq<Executed>, env: Env, calls: seq<Call>,
                i: nat, ran: seq<nat>)
    requires i < |calls| && RanInOrder(before, mid, env, calls, i, ran)
    ensures after == mid ==> RanInOrder(before, after, env, calls, i + 1, ran)
    ensures mid <= after && |after| == |mid| + 1 && after[|mid|].call == Rewritten(env, calls[i]) ==>
      RanInOrder(before, after, env, calls, i + 1, ran + [i])
  {
    hide Rewritten;
    if mid <= after && |after| == |mid| + 1 && after[|mid|].call == Rewritten(env, calls[i]) {
      forall k | 0 <= k < |ran| + 1
        ensures (ran + [i])[k] < i + 1 && after[|before| + k].call == Rewritten(env, calls[(ran + [i])[k]])
      {
        if k < |ran| { assert after[|before| + k] == mid[|before| + k]; }
      }
    }
  }

  lemma RanBelow(before: seq<Executed>, after: seq<Executed>, env: Env, calls: seq<Call>, reached: nat, ran: seq<nat>)
    requires RanInOrder(before, after, env, calls, reached, ran)
    ensures (forall k :: 0 <= k < |ran| ==> ran[k] < reached) && |after| == |before| + |ran|
  {
  }

  lemma AnswersNext(before: seq<Executed>, env: Env, results: seq<Result>, result: Option<Result>, ran: seq<nat>,
                    end: BatchEnd)
    requires AnsweredByTools(before, env, results, ran, Completed) && forall k :: 0 <= k < |ran| ==> ran[k] < |results|
    ensures (result.Some? ==> !result.value.ok) && end != ToolAsked ==>
      AnsweredByTools(before, env, Answers(results, result), ran, end)
    ensures ((result.Some? ==> Tells(result.value, env.run(|before| + |ran|)))
             && (end == ToolAsked <==> result.Some? && env.run(|before| + |ran|) == Failure("approval_required"))) ==>
      AnsweredByTools(before, env, Answers(results, result), ran + [|results|], end)
  {
    assert (ran + [|results|])[|ran|] == |results|;
  }

  lemma RanOneMore(before: seq<Executed>, mid: Tally, t: Tally, env: Env, calls: seq<Call>, results: seq<Result>,
                   ran: seq<nat>, result: Option<Result>, end: BatchEnd)
    returns (more: seq<nat>)
    requires |results| < |calls| && RanInOrder(before, mid.executed, env, calls, |results|, ran)
    requires AnsweredByTools(before, env, results, ran, Completed)
    requires RanAtMost(mid, t, env, calls[|results|], result, end)
    ensures RanInOrder(before, t.executed, env, calls, |results| + 1, more)
    ensures AnsweredByTools(before, env, Answers(results, result), more, end)
    ensures more == if t.executed == mid.executed then ran else ran + [|results|]
    ensures forall k :: 0 <= k < |ran| ==> ran[k] < |results|
  {
    RanBelow(before, mid.executed, env, calls, |results|, ran);
    hide Rewritten, AnsweredByTools, Answers, RanInOrder, Tells;
    RanNext(before, mid.executed, t.executed, env, calls, |results|, ran);
    AnswersNext(before, env, results, result, ran, end);
    more := if t.executed == mid.executed then ran else ran + [|results|];
  }

  /** One provider reply's tool calls, in order. The results answer a prefix of the calls; a
      call is executed only if the contract admits it and, when sensitive, an approval for
      exactly this call was taken out of the gate. */
  method RunBatch(gate: ApprovalGate, scope: Scope, env: Env, calls: seq<Call>, start: Tally, now: int, ghost w: World)
    returns (t: Tally, results: seq<Result>, end: BatchEnd, ghost v: World, ghost ran: seq<nat>)
    requires gate.Valid() && Sound(start, scope, env, gate.pending, w) && start.aborted == 0
    modifies gate
    ensures gate.Valid() && Sound(t, scope, env, gate.pending, v) && Reaches(w, v, gate.ttl)
    ensures |results| <= |calls| && forall i :: 0 <= i < |results| ==> results[i].callId == calls[i].id
    ensures end == Completed ==> |results| == |calls|
    ensures t.aborted <= 1 && (end != Aborted ==> t.aborted == 0 && t.successes == start.successes + Oks(results))
    ensures t.toolCalls == start.toolCalls + |results| + (if end == Aborted then 1 else 0)
    ensures end == GateAsked || end == ToolAsked ==> results != [] && results[|results| - 1].code == "approval_required"
    ensures RanInOrder(start.executed, t.executed, env, calls, |results| + (if end == Aborted then 1 else 0), ran)
    ensures AnsweredByTools(start.executed, env, results, ran, end)
    ensures forall i :: 0 <= i < |results| ==>
      Ruled(scope, env, calls[i], i in ran, results[i], end == GateAsked && i == |results| - 1)
    ensures end == GateAsked ==>
      exists id :: id in v.known && id !in w.known
        && v.known[id] == Approval(id, scope.session, calls[|results| - 1].tool,
                                   env.rewrite(calls[|results| - 1].tool, calls[|results| - 1].args), now, Pending)
  {
    hide *;
    t, results, end, v, ran := start, [], Completed, w, [];
    NoOks();
    RanNothing(start.executed, env, calls);
    ReachesItself(w, gate.ttl);
    for i := 0 to |calls|
      invariant |results| == i && end == Completed
      invariant gate.Valid() && Sound(t, scope, env, gate.pending, v) && Reaches(w, v, gate.ttl) && t.aborted == 0
      invariant t.successes == start.successes + Oks(results) && t.toolCalls == start.toolCalls + i
      invariant RanInOrder(start.executed, t.executed, env, calls, i, ran) && AnsweredByTools(start.executed, env, results, ran, end)
      invariant forall k :: 0 <= k < i ==> results[k].callId == calls[k].id
      invariant forall k :: 0 <= k < i ==> Ruled(scope, env, calls[k], k in ran, results[k], false)
    {
      var result;
      ghost var u, before, held := v, t, gate.pending;
      t, result, end, v := HandleCall(gate, scope, env, calls[i], t, now, v);
      ReachesOn(w, u, v, gate.ttl);
      ReachesKnown(w, u, gate.ttl);
      OneMore(before, t, env, calls[i], result, end);
      ghost var sofar := ran;
      ran := RanOneMore(start.executed, before, t, env, calls, results, ran, result, end);
      AnswersAre(results, result);
      if result.Some? { JudgedIsRuled(scope, env, calls[i], held, t.executed != before.executed, result.value, end == GateAsked); }
      RuledNext(scope, env, calls, results, result, sofar, t.executed != before.executed, end == GateAsked);
      if result.Some? {
        OksAppend(results, result.value);
        results := results + [result.value];
      }
      if end != Completed { return; }
    }
  }

  lemma OneMore(start: Tally, t: Tally, env: Env, call: Call, result: Option<Result>, end: BatchEnd)
    requires AddsOne(start, t, result) && RanAtMost(start, t, env, call, result, end) && start.aborted == 0
    ensures t.toolCalls == start.toolCalls + 1 && t.aborted <= 1
    ensures result.Some? ==> t.successes == start.successes + (if result.value.ok then 1 else 0)
  {
  }

  /** `_chat_with_optional_fallback`: a second call only when the primary model reports an error
      and a different fallback model is configured and allowed. */
  method ChatWithFallback(env: Env, made: nat, model: string, fallback: string, allowed: bool)
    returns (reply: Reply, used: string, calls: nat)
    ensures made < calls <= made + 2
    ensures calls == made + 2 <==>
            !env.chat(made).ChatRaises? && env.chat(made).error && allowed && fallback != "" && model != fallback
    ensures calls == made + 2 ==> used == fallback && reply == env.chat(made + 1)
    ensures calls == made + 1 ==> used == model && reply == env.chat(made)
  {
    reply, used, calls := env.chat(made), model, made + 1;
    if reply.ChatRaises? || !reply.error || !allowed || fallback == "" || fallback == model {
      return;
    }
    reply, used, calls := env.chat(made + 1), fallback, made + 2;
  }

  datatype Channel = Cli | XBench | OtherChannel

  datatype Config = Config(maxIterations: nat, maxReflections: nat, fallback: string, allowFallback: bool,
                           channel: Channel)

  function NoCalls(drawn: nat): Tally {
    Tally(0, 0, 0, 0, drawn, 0, [])
  }

  lemma StartIsSound(scope: Scope, env: Env, pending: seq<Approval>, w: World, drawn: nat)
    requires Tracks(pending, w) && FreshIds(env, drawn, w)
    ensures Sound(NoCalls(drawn), scope, env, pending, w)
  {
    hide Tracks, FreshIds;
  }

  /** One iteration of the loop: the reply, how its batch went, and which executions it added. */
  datatype Turn = Turn(reply: Reply, results: seq<Result>, end: BatchEnd, first: nat, ran: seq<nat>)

  predicate AsksForTools(turn: Turn) {
    !turn.reply.ChatRaises? && turn.reply.calls != []
  }

  /** The loop goes on after this turn, if iterations are left. */
  predicate GoesOn(turn: Turn, channel: Channel) {
    AsksForTools(turn) && turn.end != Aborted && !(turn.end == GateAsked && channel == Cli)
  }

  /** A turn that ends the loop with something to say. */
  predicate Concludes(turn: Turn, channel: Channel) {
    || (!turn.reply.ChatRaises? && turn.reply.calls == [] && turn.reply.content.Some?)
    || (AsksForTools(turn) && turn.end == GateAsked && channel == Cli)
  }

  predicate Stumbles(turn: Turn) {
    exists k :: 0 <= k < |turn.results| && !turn.results[k].ok
  }

  lemma LogMeans(log: seq<Turn>, channel: Channel)
    ensures forall k :: 0 <= k < |log| ==>
      (GoesOn(log[k], channel) <==>
         && !log[k].reply.ChatRaises? && log[k].reply.calls != [] && log[k].end != Aborted
         && !(log[k].end == GateAsked && channel == Cli))
    ensures forall k :: 0 <= k < |log| ==>
      (Concludes(log[k], channel) <==>
         && !log[k].reply.ChatRaises?
         && (if log[k].reply.calls == [] then log[k].reply.content.Some? else log[k].end == GateAsked && channel == Cli))
  {
  }

  /** How many turns the loop went on from with a failed result in hand. */
  function Stumbled(log: seq<Turn>, channel: Channel): nat {
    if log == [] then 0
    else
      Stumbled(log[..|log| - 1], channel)
      + if GoesOn(log[|log| - 1], channel) && Stumbles(log[|log| - 1]) then 1 else 0
  }

  /** That is the number of turns that asked for tools, were not stopped, and hold a failed result. */
  lemma {:induction false} StumbledCounts(log: seq<Turn>, channel: Channel) returns (turns: set<nat>)
    ensures |turns| == Stumbled(log, channel)
    ensures forall k: nat :: k in turns <==>
      && k < |log| && !log[k].reply.ChatRaises? && log[k].reply.calls != [] && log[k].end != Aborted
      && !(log[k].end == GateAsked && channel == Cli) && exists i :: 0 <= i < |log[k].results| && !log[k].results[i].ok
    decreases |log|
  {
    turns := {};
    if log != [] {
      var init, last := log[..|log| - 1], log[|log| - 1];
      turns := StumbledCounts(init, channel);
      assert forall k :: 0 <= k < |init| ==> init[k] == log[k];
      LogMeans([last], channel);
      assert [last][0] == last;
      if GoesOn(last, channel) && Stumbles(last) { turns := turns + {|init|}; }
    }
  }

  /** The primary model's reply is an error, and there is a fallback to turn to. */
  predicate FallsBack(env: Env, cfg: Config, firstModel: string, k: nat) {
    && !env.chat(k).ChatRaises? && env.chat(k).error
    && cfg.allowFallback && cfg.fallback != "" && cfg.fallback != firstModel
  }

  /** `fell` is the first of the first `n` turns in which the loop falls back, or `n`. */
  ghost predicate FallsAt(env: Env, cfg: Config, firstModel: string, n: nat, fell: nat) {
    && fell <= n && (fell < n ==> FallsBack(env, cfg, firstModel, fell))
    && forall k :: 0 <= k < fell ==> !FallsBack(env, cfg, firstModel, k)
  }

  /** Each turn has the provider's next reply, and the reply after it from the fallback on. */
  ghost predicate RepliesFollow(log: seq<Turn>, env: Env, fell: nat) {
    forall k :: 0 <= k < |log| ==> log[k].reply == env.chat(if k < fell then k else k + 1)
  }

  /** Each turn's executions are those of its own calls, and follow those of the turn before. */
  ghost predicate ExecutionsFollow(log: seq<Turn>, executed: seq<Executed>, env: Env) {
    && (log == [] ==> executed == [])
    && (log != [] ==> log[0].first == 0 && log[|log| - 1].first + |log[|log| - 1].ran| == |executed|)
    && (forall k :: 0 <= k < |log| - 1 ==> log[k + 1].first == log[k].first + |log[k].ran|)
    && (forall k :: 0 <= k < |log| ==> TurnRan(log[k], executed, env))
  }

  ghost predicate TurnRan(turn: Turn, executed: seq<Executed>, env: Env) {
    && turn.first + |turn.ran| <= |executed|
    && (AsksForTools(turn) ==>
          && |turn.results| <= |turn.reply.calls|
          && (turn.end == Completed ==> |turn.results| == |turn.reply.calls|)
          && RanInOrder(executed[..turn.first], executed[..turn.first + |turn.ran|], env, turn.reply.calls,
                        |turn.results| + (if turn.end == Aborted then 1 else 0), turn.ran)
          && AnsweredByTools(executed[..turn.first], env, turn.results, turn.ran, turn.end))
    && (!AsksForTools(turn) ==> turn.results == [] && turn.ran == [])
  }

  lemma TurnStillRan(turn: Turn, executed: seq<Executed>, more: seq<Executed>, env: Env)
    requires TurnRan(turn, executed, env) && executed <= more
    ensures TurnRan(turn, more, env)
  {
    hide RanInOrder, AnsweredByTools;
    assert more[..turn.first] == executed[..turn.first];
    assert more[..turn.first + |turn.ran|] == executed[..turn.first + |turn.ran|];
  }

  lemma OneMoreTurn(log: seq<Turn>, executed: seq<Executed>, more: seq<Executed>, env: Env, turn: Turn)
    requires ExecutionsFollow(log, executed, env) && executed <= more
    requires turn.first == |executed| && turn.first + |turn.ran| == |more| && TurnRan(turn, more, env)
    ensures ExecutionsFollow(log + [turn], more, env)
  {
    forall k | 0 <= k < |log| ensures TurnRan(log[k], more, env) { TurnStillRan(log[k], executed, more, env); }
    hide TurnRan;
  }

  lemma BatchIsTurn(start: seq<Executed>, after: seq<Executed>, env: Env, turn: Turn)
    requires AsksForTools(turn) && turn.first == |start|
    requires |turn.results| <= |turn.reply.calls| && (turn.end == Completed ==> |turn.results| == |turn.reply.calls|)
    requires RanInOrder(start, after, env, turn.reply.calls, |turn.results| + (if turn.end == Aborted then 1 else 0), turn.ran)
    requires AnsweredByTools(start, env, turn.results, turn.ran, turn.end)
    ensures start <= after && |after| == |start| + |turn.ran| && TurnRan(turn, after, env)
  {
    assert after[..turn.first] == start && after[..turn.first + |turn.ran|] == after;
  }

  lemma StumbledSnoc(log: seq<Turn>, turn: Turn, channel: Channel)
    ensures Stumbled(log + [turn], channel)
            == Stumbled(log, channel) + if GoesOn(turn, channel) && Stumbles(turn) then 1 else 0
  {
    assert (log + [turn])[..|log|] == log;
  }

  /** A reply that asks for tools, as a turn of the loop. */
  method ToolTurn(gate: ApprovalGate, scope: Scope, env: Env, reply: Reply, channel: Channel, start: Tally, now: int, ghost w: World)
    returns (t: Tally, results: seq<Result>, end: BatchEnd, ghost v: World, ghost turn: Turn)
    requires gate.Valid() && Sound(start, scope, env, gate.pending, w) && start.aborted == 0
    requires !reply.ChatRaises? && reply.calls != []
    modifies gate
    ensures gate.Valid() && Sound(t, scope, env, gate.pending, v) && Reaches(w, v, gate.ttl)
    ensures t.aborted <= 1 && (end != Aborted ==> t.aborted == 0)
    ensures turn == Turn(reply, results, end, |start.executed|, turn.ran)
    ensures start.executed <= t.executed && |start.executed| + |turn.ran| == |t.executed| && TurnRan(turn, t.executed, env)
    ensures GoesOn(turn, channel) <==> end != Aborted && !(end == GateAsked && channel == Cli)
    ensures Concludes(turn, channel) <==> end == GateAsked && channel == Cli
    ensures Stumbles(turn) <==> exists k :: 0 <= k < |results| && !results[k].ok
  {
    hide *;
    ghost var ran;
    t, results, end, v, ran := RunBatch(gate, scope, env, reply.calls, start, now, w);
    turn := Turn(reply, results, end, |start.executed|, ran);
    AskingTurn(turn, channel);
    BatchIsTurn(start.executed, t.executed, env, turn);
  }

  function AtMost(n: nat, limit: nat): nat {
    if n < limit then n else limit
  }

  /** The whole loop, turn by turn. It goes on exactly while turns ask for tools and nothing stops them; it
      reflects once for every turn with a failed result, up to the limit; fallback is one-way, so all
      iterations together make at most one extra provider call, and the forced synthesis of the benchmark
      channel is the only other one. Whatever others do with the gate while it awaits, what happened to the
      gate is a run of the gate's own machine, every execution was permitted, and no approval served
      twice. */
  method RunLoop(gate: ApprovalGate, scope: Scope, env: Env, cfg: Config, firstModel: string, drawn: nat, now: int, ghost w: World)
    returns (t: Tally, providerCalls: nat, reflections: nat, answered: bool, ghost v: World, ghost log: seq<Turn>, ghost fell: nat)
    requires gate.Valid() && Tracks(gate.pending, w) && FreshIds(env, drawn, w)
    modifies gate
    ensures gate.Valid() && Sound(t, scope, env, gate.pending, v) && Reaches(w, v, gate.ttl) && t.aborted <= 1
    ensures |log| <= cfg.maxIterations
    ensures forall k :: 0 <= k < |log| - 1 ==>
      && !log[k].reply.ChatRaises? && log[k].reply.calls != [] && log[k].end != Aborted
      && !(log[k].end == GateAsked && cfg.channel == Cli)
    ensures |log| < cfg.maxIterations ==>
      log != [] && var last := log[|log| - 1];
      last.reply.ChatRaises? || last.reply.calls == [] || last.end == Aborted || (last.end == GateAsked && cfg.channel == Cli)
    ensures FallsAt(env, cfg, firstModel, |log|, fell) && RepliesFollow(log, env, fell)
    ensures ExecutionsFollow(log, t.executed, env)
    ensures answered <==>
      log != [] && var last := log[|log| - 1];
      && !last.reply.ChatRaises?
      && (if last.reply.calls == [] then last.reply.content.Some? else last.end == GateAsked && cfg.channel == Cli)
    ensures reflections == AtMost(Stumbled(log, cfg.channel), cfg.maxReflections)
    ensures providerCalls == |log| + (if fell < |log| then 1 else 0) + (if cfg.channel == XBench && !answered then 1 else 0)
  {
    hide *;
    t, providerCalls, reflections, answered, v := NoCalls(drawn), 0, 0, false, w;
    log, fell := [], 0;
    StartIsSound(scope, env, gate.pending, w, drawn);
    NothingLogged(env, cfg, firstModel, drawn);
    ReachesItself(w, gate.ttl);
    var model, iteration := firstModel, 0;
    while iteration < cfg.maxIterations
      invariant 0 <= iteration <= cfg.maxIterations && |log| == iteration && !answered
      invariant gate.Valid() && Sound(t, scope, env, gate.pending, v) && Reaches(w, v, gate.ttl) && t.aborted == 0
      invariant forall k :: 0 <= k < |log| ==> GoesOn(log[k], cfg.channel)
      invariant FallsAt(env, cfg, firstModel, |log|, fell) && RepliesFollow(log, env, fell)
      invariant providerCalls == |log| + (if fell < |log| then 1 else 0)
      invariant model == (if fell < |log| then cfg.fallback else firstModel)
      invariant ExecutionsFollow(log, t.executed, env)
      invariant reflections == AtMost(Stumbled(log, cfg.channel), cfg.maxReflections)
    {
      iteration := iteration + 1;
      ghost var u, was, made := v, model, providerCalls;
      t, v := Await(gate, scope, env, t, v);
      ReachesOn(w, u, v, gate.ttl);
      var reply: Reply;
      reply, model, providerCalls := ChatWithFallback(env, providerCalls, model, cfg.fallback, cfg.allowFallback);
      fell := FallNext(log, env, cfg, firstModel, fell, was, made, reply, model, providerCalls);
      if reply.ChatRaises? || reply.calls == [] {
        ghost var turn := Turn(reply, [], Completed, |t.executed|, []);
        QuietTurn(turn, t.executed, env, cfg.channel);
        TurnAdded(log, t.executed, t.executed, env, turn, fell, cfg.channel);
        log := log + [turn];
        answered := !reply.ChatRaises? && reply.content.Some?;
        break;
      }
      var results, end;
      ghost var turn, before := Turn(reply, [], Completed, 0, []), t.executed;
      u := v;
      t, results, end, v, turn := ToolTurn(gate, scope, env, reply, cfg.channel, t, now, v);
      ReachesOn(w, u, v, gate.ttl);
      TurnAdded(log, before, t.executed, env, turn, fell, cfg.channel);
      Reflected(Stumbled(log, cfg.channel), cfg.maxReflections);
      log := log + [turn];
      if end == Aborted { break; }
      if end == GateAsked && cfg.channel == Cli {
        answered := true;
        break;
      }
      if (exists k :: 0 <= k < |results| && !results[k].ok) && reflections < cfg.maxReflections {
        reflections := reflections + 1;
      }
    }
    assert log != [] ==> (!answered && GoesOn(log[|log| - 1], cfg.channel) ==> !Concludes(log[|log| - 1], cfg.channel)) by {
      if log != [] { OnOrDone(log[|log| - 1], cfg.channel); }
    }
    if !answered && cfg.channel == XBench { providerCalls := providerCalls + 1; }
    LogMeans(log, cfg.channel);
  }

  lemma NothingLogged(env: Env, cfg: Config, firstModel: string, drawn: nat)
    ensures FallsAt(env, cfg, firstModel, 0, 0) && RepliesFollow([], env, 0)
    ensures ExecutionsFollow([], NoCalls(drawn).executed, env) && Stumbled([], cfg.channel) == 0
    ensures NoCalls(drawn).aborted == 0 && AtMost(0, cfg.maxReflections) == 0
  {
  }

  /** What one exchange with the provider adds. */
  lemma FallNext(log: seq<Turn>, env: Env, cfg: Config, firstModel: string, fell: nat, was: string, made: nat,
                 reply: Reply, used: string, calls: nat)
    returns (next: nat)
    requires FallsAt(env, cfg, firstModel, |log|, fell) && RepliesFollow(log, env, fell)
    requires was == (if fell < |log| then cfg.fallback else firstModel)
    requires made == |log| + (if fell < |log| then 1 else 0) && made < calls <= made + 2
    requires calls == made + 2 <==>
      !env.chat(made).ChatRaises? && env.chat(made).error && cfg.allowFallback && cfg.fallback != "" && was != cfg.fallback
    requires calls == made + 2 ==> used == cfg.fallback && reply == env.chat(made + 1)
    requires calls == made + 1 ==> used == was && reply == env.chat(made)
    ensures FallsAt(env, cfg, firstModel, |log| + 1, next) && RepliesFollow(log, env, next)
    ensures reply == env.chat(if |log| < next then |log| else |log| + 1)
    ensures calls == |log| + 1 + (if next < |log| + 1 then 1 else 0)
    ensures used == (if next < |log| + 1 then cfg.fallback else firstModel)
  {
    next := if fell < |log| || calls == made + 2 then fell else |log| + 1;
  }

  lemma OnOrDone(turn: Turn, channel: Channel)
    ensures !(GoesOn(turn, channel) && Concludes(turn, channel))
  {
  }

  lemma QuietTurn(turn: Turn, executed: seq<Executed>, env: Env, channel: Channel)
    requires turn.results == [] && turn.ran == [] && turn.first == |executed|
    requires turn.reply.ChatRaises? || turn.reply.calls == []
    ensures TurnRan(turn, executed, env) && !GoesOn(turn, channel)
    ensures Concludes(turn, channel) <==> !turn.reply.ChatRaises? && turn.reply.content.Some?
  {
    hide RanInOrder, AnsweredByTools;
  }

  lemma AskingTurn(turn: Turn, channel: Channel)
    requires !turn.reply.ChatRaises? && turn.reply.calls != []
    ensures AsksForTools(turn)
    ensures GoesOn(turn, channel) <==> turn.end != Aborted && !(turn.end == GateAsked && channel == Cli)
    ensures Concludes(turn, channel) <==> turn.end == GateAsked && channel == Cli
    ensures Stumbles(turn) <==> exists k :: 0 <= k < |turn.results| && !turn.results[k].ok
  {
  }

  lemma TurnAdded(log: seq<Turn>, executed: seq<Executed>, more: seq<Executed>, env: Env, turn: Turn, fell: nat,
                  channel: Channel)
    requires ExecutionsFollow(log, executed, env) && executed <= more
    requires turn.first == |executed| && turn.first + |turn.ran| == |more| && TurnRan(turn, more, env)
    requires RepliesFollow(log, env, fell) && turn.reply == env.chat(if |log| < fell then |log| else |log| + 1)
    ensures ExecutionsFollow(log + [turn], more, env) && RepliesFollow(log + [turn], env, fell)
    ensures Stumbled(log + [turn], channel)
            == Stumbled(log, channel) + if GoesOn(turn, channel) && Stumbles(turn) then 1 else 0
  {
    hide ExecutionsFollow, TurnRan, Stumbled, GoesOn, Stumbles;
    OneMoreTurn(log, executed, more, env, turn);
    StumbledSnoc(log, turn, channel);
  }

  lemma Reflected(stumbled: nat, limit: nat)
    ensures AtMost(stumbled + 1, limit)
            == if AtMost(stumbled, limit) < limit then AtMost(stumbled, limit) + 1 else AtMost(stumbled, limit)
    ensures AtMost(stumbled, limit) <= limit
  {
  }

  /** What soundness says of the contract: every executed tool is a one-shot tool, or one that the contract
      allows and does not deny. */
  lemma SoundIsInside(t: Tally, scope: Scope, env: Env, pending: seq<Approval>, w: World, i: nat)
    requires Sound(t, scope, env, pending, w) && i < |t.executed|
    ensures var name := Lower(Trim(t.executed[i].call.tool));
            scope.contract.Some? && name != "" ==>
              name in scope.oneShot || (name in scope.contract.value.allowed && name !in scope.contract.value.denied)
  {
    assert Permitted(t.executed[i], scope, env);
    ViolationMeans(scope.contract, t.executed[i].call.tool, scope.oneShot);
  }

  /** What soundness says of the approvals: distinct records, each requested with the session, tool and
      final arguments of its execution, approved, executed once in the gate's run, and gone. */
  lemma SoundMeans(t: Tally, scope: Scope, env: Env, pending: seq<Approval>, w: World, i: nat)
    requires Sound(t, scope, env, pending, w) && i < |t.executed|
    requires env.gateEnabled && Lower(Trim(t.executed[i].call.tool)) in env.sensitive
    requires t.executed[i].call.tool !in scope.oneShot
    ensures t.executed[i].approval.Some?
    ensures var a := t.executed[i].approval.value; var call := t.executed[i].call;
            && a.session == scope.session && a.tool == call.tool && a.args == call.args
            && a.id in w.known && w.known[a.id].session == scope.session && w.known[a.id].tool == call.tool
            && w.known[a.id].args == call.args
            && a.id in w.approvals && a.id in w.consumed && a.id !in Ids(pending)
            && forall j :: 0 <= j < |t.executed| && j != i && t.executed[j].approval.Some? ==>
                 t.executed[j].approval.value.id != a.id
  {
    var a := t.executed[i].approval.value;
    assert Permitted(t.executed[i], scope, env);
    var k :| 0 <= k < |w.executed| && w.executed[k] == a;
    assert Authorised(w.executed[k], w) && w.executed[k].id in Ids(w.executed);
    hide NeedsApproval, ContractViolation;
    assert a.id in w.consumed && Ids(w.memory) !! w.consumed;
  }
}
