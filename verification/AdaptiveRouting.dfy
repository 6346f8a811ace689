/** The pre-LLM routing feedback loop: the Safety Valve decides whether an intent runs
    directly, direct runs are the only ones that update the session's history, and the
    history feeds the valve of the next turn. */
module AdaptiveRouting {
  import opened Options
  import opened Text

  const RECENT_WINDOW: nat := 20
  const SAFETY_VALVE_THRESHOLD: real := 0.8
  const DECLARATIVE_CONFIDENCE: real := 0.9

  // --- history and control signals ---

  datatype Stats = Stats(success: nat, failure: nat, recentSuccess: nat, recentFailure: nat)

  const NO_HISTORY := Stats(0, 0, 0, 0)

  function Share(part: nat, other: nat, default: real): real {
    if part + other > 0 then part as real / (part + other) as real else default
  }

  /** 70% recent confidence, 30% lifetime confidence. */
  function Blended(h: Stats): real {
    var lifetime := Share(h.success, h.failure, 1.0);
    0.7 * Share(h.recentSuccess, h.recentFailure, lifetime) + 0.3 * lifetime
  }

  function HistoryConfidence(history: map<string, Stats>, intent: string): real {
    if intent in history then Blended(history[intent]) else 1.0
  }

  /** The confidence of an intent, without divisions: full while it has not run, its overall share of successes
      while nothing is recent, and otherwise that share and the recent one weighted 3 to 7. */
  lemma ConfidenceMeans(history: map<string, Stats>, intent: string)
    ensures var c := HistoryConfidence(history, intent);
            var h := if intent in history then history[intent] else Stats(0, 0, 0, 0);
            var all, recent := (h.success + h.failure) as real, (h.recentSuccess + h.recentFailure) as real;
            && (all == 0.0 && recent == 0.0 ==> c == 1.0)
            && (all > 0.0 && recent == 0.0 ==> c * all == h.success as real)
            && (all == 0.0 && recent > 0.0 ==> 10.0 * c * recent == 7.0 * h.recentSuccess as real + 3.0 * recent)
            && (all > 0.0 && recent > 0.0 ==>
                  10.0 * c * all * recent == 7.0 * h.recentSuccess as real * all + 3.0 * h.success as real * recent)
  {
    var h := if intent in history then history[intent] else Stats(0, 0, 0, 0);
    var s, all := h.success as real, (h.success + h.failure) as real;
    var r, recent := h.recentSuccess as real, (h.recentSuccess + h.recentFailure) as real;
    if all > 0.0 && recent > 0.0 { WeightedShares(s, all, r, recent); }
    if all > 0.0 { DividedBack(s, all); }
    if recent > 0.0 { DividedBack(r, recent); }
    hide Share;
    if all > 0.0 { assert Share(h.success, h.failure, 1.0) == s / all by { hide *; ShareIs(h.success, h.failure, 1.0); } }
  }

  lemma ShareIs(part: nat, other: nat, default: real)
    ensures part + other > 0 ==> Share(part, other, default) == part as real / (part + other) as real
    ensures part + other == 0 ==> Share(part, other, default) == default
  {
  }

  lemma DividedBack(a: real, b: real)
    requires b > 0.0
    ensures a / b * b == a
  {
  }

  lemma WeightedShares(s: real, all: real, r: real, recent: real)
    requires all > 0.0 && recent > 0.0
    ensures 10.0 * (0.7 * (r / recent) + 0.3 * (s / all)) * all * recent == 7.0 * r * all + 3.0 * s * recent
  {
    var x, y := r / recent, s / all;
    DividedBack(r, recent);
    DividedBack(s, all);
    assert 10.0 * (0.7 * x + 0.3 * y) * all * recent == 7.0 * (x * recent) * all + 3.0 * (y * all) * recent;
  }

  function UpdateStats(h: Stats, ok: bool): Stats {
    var s := if ok then h.success + 1 else h.success;
    var f := if ok then h.failure else h.failure + 1;
    var rs := if ok then h.recentSuccess + 1 else h.recentSuccess;
    var rf := if ok then h.recentFailure else h.recentFailure + 1;
    if rs + rf <= RECENT_WINDOW then Stats(s, f, rs, rf)
    else if s - rs >= f - rf then Stats(s, f, if rs > 0 then rs - 1 else 0, rf)
    else Stats(s, f, rs, if rf > 0 then rf - 1 else 0)
  }

  // --- the Safety Valve ---

  datatype Reason = NoReason | MultipleCandidates | ContextPronoun | HighResidual | LengthOutlier | LowConfidence

  /** What the valve reads off the message and the parameter extraction. */
  datatype Facts = Facts(normalizedLength: nat, consumed: nat, paramRules: nat, matchedRules: nat,
                         typicalLength: nat, pronoun: bool)

  function Residual(x: Facts): real {
    if x.normalizedLength >= 16 && x.paramRules > 0 && x.matchedRules > 0 && x.consumed <= x.normalizedLength then
      1.0 - x.consumed as real / x.normalizedLength as real
    else 0.0
  }

  function LengthThreshold(x: Facts): nat {
    if 2 * x.typicalLength > 28 then 2 * x.typicalLength else 28
  }

  /** The weak-signal reason alone, in the order the valve looks at the signals. */
  function SignalReason(multiple: bool, x: Facts): Reason {
    if multiple then MultipleCandidates
    else if x.pronoun then ContextPronoun
    else if Residual(x) >= 0.45 then HighResidual
    else if x.normalizedLength >= LengthThreshold(x) then LengthOutlier
    else NoReason
  }

  /** What the valve decides: the penalty arithmetic has disappeared. */
  function ValveDecision(raw: real, history: real, multiple: bool, x: Facts): Reason {
    var signal := SignalReason(multiple, x);
    if signal != NoReason then signal
    else if raw * history < SAFETY_VALVE_THRESHOLD then LowConfidence
    else NoReason
  }

  function Clamp(lo: real, hi: real, v: real): (r: real)
    requires lo <= hi
    ensures lo <= r <= hi && (lo <= v <= hi ==> r == v)
  {
    if v < lo then lo else if v > hi then hi else v
  }

  /** At least 45% of a text of 16 characters or more is left over by the parameter rules that matched. */
  predicate LeavesMuch(x: Facts) {
    x.normalizedLength >= 16 && x.paramRules > 0 && x.matchedRules > 0 && 20 * x.consumed <= 11 * x.normalizedLength
  }

  /** At least 28 characters, and at least twice the intent's typical length. */
  predicate IsLong(x: Facts) {
    x.normalizedLength >= 28 && x.normalizedLength >= 2 * x.typicalLength
  }

  lemma SignalMeans(multiple: bool, x: Facts)
    ensures var reason := SignalReason(multiple, x);
            && (reason == MultipleCandidates <==> multiple)
            && (reason == ContextPronoun <==> !multiple && x.pronoun)
            && (reason == HighResidual <==> !multiple && !x.pronoun && LeavesMuch(x))
            && (reason == LengthOutlier <==> !multiple && !x.pronoun && !LeavesMuch(x) && IsLong(x))
            && (reason == NoReason <==> !multiple && !x.pronoun && !LeavesMuch(x) && !IsLong(x))
  {
    LeavesMeans(x);
    hide Residual, LeavesMuch;
  }

  lemma LeavesMeans(x: Facts)
    ensures Residual(x) >= 0.45 <==> LeavesMuch(x)
    ensures x.normalizedLength >= 16 && x.paramRules > 0 && x.matchedRules > 0 && x.consumed > x.normalizedLength ==> Residual(x) == 0.0
  {
    if x.normalizedLength >= 16 {
      var n, c := x.normalizedLength as real, x.consumed as real;
      if 20 * x.consumed <= 11 * x.normalizedLength { QuotientAtMost(c, n, 0.55); } else { QuotientAbove(c, n, 0.55); }
    }
  }

  lemma QuotientAbove(x: real, y: real, k: real)
    requires y > 0.0 && x > k * y
    ensures x / y > k
  {
  }

  /** The weight of the signals, at most 0.65 together. */
  function Penalty(multiple: bool, x: Facts): real {
    var sum := (if multiple then 0.30 else if x.pronoun then 0.25 else 0.0)
      + (if !LeavesMuch(x) then 0.0 else if Residual(x) < 0.70 then Residual(x) / 2.0 else 0.35)
      + (if IsLong(x) then 0.15 else 0.0);
    if sum > 0.65 then 0.65 else sum
  }

  /** The valve as written, accumulating penalties. The penalties never change the decision:
      whenever one applies, a reason has already been recorded. */
  method EvaluateSafetyValve(raw: real, history: real, multiple: bool, x: Facts)
    returns (reason: Reason, finalConfidence: real)
    ensures reason == ValveDecision(raw, history, multiple, x)
    ensures reason == MultipleCandidates <==> multiple
    ensures reason == ContextPronoun <==> !multiple && x.pronoun
    ensures reason == HighResidual <==> !multiple && !x.pronoun && LeavesMuch(x)
    ensures reason == LengthOutlier <==> !multiple && !x.pronoun && !LeavesMuch(x) && IsLong(x)
    ensures reason == LowConfidence <==>
            !multiple && !x.pronoun && !LeavesMuch(x) && !IsLong(x) && raw * history < 0.8
    ensures finalConfidence == if raw * history > Penalty(multiple, x) then raw * history - Penalty(multiple, x) else 0.0
    ensures finalConfidence >= 0.0
    ensures reason == NoReason ==> finalConfidence == raw * history >= SAFETY_VALVE_THRESHOLD
    ensures raw * history - 0.65 <= finalConfidence
    ensures finalConfidence <= raw * history || finalConfidence == 0.0
  {
    SignalMeans(multiple, x);
    var residual := 0.0;
    if x.normalizedLength >= 16 && x.paramRules > 0 && x.matchedRules > 0 {
      var kept := x.consumed as real / x.normalizedLength as real;
      if x.consumed > x.normalizedLength {
        QuotientAtLeast(x.consumed as real, x.normalizedLength as real, 1.0);
      } else {
        QuotientAtMost(x.consumed as real, x.normalizedLength as real, 1.0);
        QuotientAtLeast(x.consumed as real, x.normalizedLength as real, 0.0);
      }
      residual := Clamp(0.0, 1.0, 1.0 - kept);
    }
    var threshold := if x.typicalLength > 0 && 2 * x.typicalLength > 28 then 2 * x.typicalLength else 28;
    var weighted := raw * history;
    var penalties := 0.0;
    reason := NoReason;
    if multiple {
      penalties := penalties + 0.30;
      reason := MultipleCandidates;
    }
    if reason == NoReason && x.pronoun {
      penalties := penalties + 0.25;
      reason := ContextPronoun;
    }
    if residual >= 0.45 {
      penalties := penalties + (if residual * 0.5 < 0.35 then residual * 0.5 else 0.35);
      if reason == NoReason { reason := HighResidual; }
    }
    if x.normalizedLength >= threshold {
      penalties := penalties + 0.15;
      if reason == NoReason { reason := LengthOutlier; }
    }
    LeavesMeans(x);
    penalties := if penalties > 0.65 then 0.65 else penalties;
    assert penalties == Penalty(multiple, x);
    finalConfidence := if weighted - penalties > 0.0 then weighted - penalties else 0.0;
    if reason == NoReason && finalConfidence < SAFETY_VALVE_THRESHOLD {
      reason := LowConfidence;
    }
  }

  lemma QuotientAtMost(x: real, y: real, k: real)
    requires y > 0.0 && x <= k * y
    ensures x / y <= k
  {
  }

  lemma QuotientAtLeast(x: real, y: real, k: real)
    requires y > 0.0 && x >= k * y
    ensures x / y >= k
  {
  }

  // --- routing one turn ---

  /** A promoted phrase-to-intent mapping. */
  datatype Route = Route(name: string, target: string, rawConfidence: real, maxConsecutiveFailures: int)

  datatype RouteState = RouteState(success: nat, failure: nat, consecutiveFailures: nat)

  datatype Intent = Intent(name: string, hybrid: bool)

  datatype Registry = Registry(routes: seq<Route>, intents: seq<Intent>)

  datatype Source = Declarative | Crystallized(route: string, rawConfidence: real)

  datatype Status = DirectSuccess | DirectFailed | ConstrainedReplan | NotRouted

  datatype RouteResult = RouteResult(status: Status, intent: string, source: Option<Source>)

  datatype LastRule = LastRule(intent: string, source: Source, status: Status)

  datatype Metadata = Metadata(history: map<string, Stats>, routeStates: map<string, RouteState>,
                               lastRule: Option<LastRule>)

  const NEW_SESSION := Metadata(map[], map[], None)

  /** Everything about a turn that does not come from the session: which patterns the text
      matches, what the valve reads off it, and how the tool call or the native handler ends. */
  datatype Turn = Turn(correction: bool, routeHits: set<string>, intentHits: set<string>, facts: Facts,
                       toolOk: bool, native: RouteResult)

  /** A native handler's result carries no route candidate. */
  ghost predicate ValidTurn(t: Turn) {
    t.native.source == None
  }

  predicate Retired(route: Route, states: map<string, RouteState>) {
    route.name in states && states[route.name].consecutiveFailures >= route.maxConsecutiveFailures
  }

  function FirstLiveRoute(routes: seq<Route>, states: map<string, RouteState>, hits: set<string>): (r: Option<Route>)
    ensures r.Some? ==> r.value in routes && !Retired(r.value, states) && r.value.name in hits
  {
    if routes == [] then None
    else if !Retired(routes[0], states) && routes[0].name in hits then Some(routes[0])
    else FirstLiveRoute(routes[1..], states, hits)
  }

  function FindIntent(intents: seq<Intent>, name: string): (r: Option<Intent>)
    ensures r.Some? ==> r.value.name == name
  {
    if intents == [] then None
    else if intents[0].name == name then Some(intents[0])
    else FindIntent(intents[1..], name)
  }

  function Matched(intents: seq<Intent>, hits: set<string>): seq<Intent> {
    if intents == [] then []
    else (if intents[0].name in hits then [intents[0]] else []) + Matched(intents[1..], hits)
  }

  function Confidence(source: Source): real {
    if source.Crystallized? then source.rawConfidence else DECLARATIVE_CONFIDENCE
  }

  function RouteViaCandidate(m: Metadata, t: Turn, intent: Intent, source: Source, multiple: bool): RouteResult {
    if intent.hybrid then RouteResult(ConstrainedReplan, intent.name, Some(source))
    else if ValveDecision(Confidence(source), HistoryConfidence(m.history, intent.name), multiple, t.facts) != NoReason then
      RouteResult(ConstrainedReplan, intent.name, Some(source))
    else
      RouteResult(if t.toolOk then DirectSuccess else DirectFailed, intent.name, Some(source))
  }

  function RouteDeclarative(reg: Registry, m: Metadata, t: Turn): RouteResult {
    var matched := Matched(reg.intents, t.intentHits);
    if matched == [] then t.native
    else RouteViaCandidate(m, t, matched[0], Declarative, |matched| > 1)
  }

  function RouteTurn(reg: Registry, m: Metadata, t: Turn): RouteResult {
    if t.correction && m.lastRule.Some? then RouteResult(ConstrainedReplan, "", None)
    else
      var live := FirstLiveRoute(reg.routes, m.routeStates, t.routeHits);
      var target := if live.Some? then FindIntent(reg.intents, Trim(live.value.target)) else None;
      if live.Some? && target.Some? then
        RouteViaCandidate(m, t, target.value, Crystallized(live.value.name, live.value.rawConfidence), false)
      else RouteDeclarative(reg, m, t)
  }

  predicate Direct(r: RouteResult) {
    (r.status == DirectSuccess || r.status == DirectFailed) && r.source.Some?
  }

  function UpdateRouteState(states: map<string, RouteState>, source: Source, ok: bool): map<string, RouteState> {
    match source
    case Declarative => states
    case Crystallized(name, _) =>
      var route := Trim(name);
      if route == "" then states
      else
        var s := if route in states then states[route] else RouteState(0, 0, 0);
        states[route := if ok then RouteState(s.success + 1, s.failure, 0)
                        else RouteState(s.success, s.failure + 1, s.consecutiveFailures + 1)]
  }

  function StatsOf(m: Metadata, intent: string): Stats {
    if intent in m.history then m.history[intent] else NO_HISTORY
  }

  /** What a turn's result does to the session metadata. Names are stripped on the way in, though the
      valve and the retirement check look them up as they are. */
  function Learn(m: Metadata, r: RouteResult): Metadata {
    if Direct(r) then
      var ok := r.status == DirectSuccess;
      var intent := Trim(r.intent);
      Metadata(m.history[intent := UpdateStats(StatsOf(m, intent), ok)],
               UpdateRouteState(m.routeStates, r.source.value, ok),
               Some(LastRule(intent, r.source.value, r.status)))
    else m.(lastRule := None)
  }

  /** The session object whose metadata dictionaries the loop edits in place. */
  class Session {
    var history: map<string, Stats>
    var routeStates: map<string, RouteState>
    var lastRule: Option<LastRule>

    ghost function View(): Metadata
      reads this
    {
      Metadata(history, routeStates, lastRule)
    }

    constructor ()
      ensures View() == NEW_SESSION
    {
      history, routeStates, lastRule := map[], map[], None;
    }

    /** Count one direct outcome in the intent's history, making room in the recent window. */
    method RecordOutcome(intent: string, ok: bool)
      modifies this`history
      ensures history == old(history)[intent := UpdateStats(StatsOf(old(View()), intent), ok)]
    {
      var h := if intent in history then history[intent] else NO_HISTORY;
      var success, failure := h.success, h.failure;
      var recentSuccess, recentFailure := h.recentSuccess, h.recentFailure;
      if ok {
        success, recentSuccess := success + 1, recentSuccess + 1;
      } else {
        failure, recentFailure := failure + 1, recentFailure + 1;
      }
      if recentSuccess + recentFailure > RECENT_WINDOW {
        if success - recentSuccess >= failure - recentFailure {
          recentSuccess := if recentSuccess > 0 then recentSuccess - 1 else 0;
        } else {
          recentFailure := if recentFailure > 0 then recentFailure - 1 else 0;
        }
      }
      history := history[intent := Stats(success, failure, recentSuccess, recentFailure)];
    }

    method UpdateControlState(r: RouteResult)
      modifies this
      ensures View() == Learn(old(View()), r)
    {
      hide Trim, UpdateStats;
      if (r.status == DirectSuccess || r.status == DirectFailed) && r.source.Some? {
        var intent := Trim(r.intent);
        RecordOutcome(intent, r.status == DirectSuccess);
        lastRule := Some(LastRule(intent, r.source.value, r.status));
        var route := if r.source.value.Crystallized? then Trim(r.source.value.route) else "";
        if route != "" {
          var s := if route in routeStates then routeStates[route] else RouteState(0, 0, 0);
          if r.status == DirectSuccess {
            routeStates := routeStates[route := RouteState(s.success + 1, s.failure, 0)];
          } else {
            routeStates := routeStates[route := RouteState(s.success, s.failure + 1, s.consecutiveFailures + 1)];
          }
        }
        return;
      }
      lastRule := None;
    }

    /** One turn of the loop: route on the current metadata, then learn from the result. */
    method HandleTurn(reg: Registry, t: Turn) returns (r: RouteResult)
      modifies this
      ensures r == RouteTurn(reg, old(View()), t)
      ensures View() == Step(reg, old(View()), t)
    {
      r := RouteTurn(reg, Metadata(history, routeStates, lastRule), t);
      UpdateControlState(r);
    }
  }

  function Step(reg: Registry, m: Metadata, t: Turn): Metadata {
    Learn(m, RouteTurn(reg, m, t))
  }

  // --- whole sessions ---

  function Run(reg: Registry, m: Metadata, turns: seq<Turn>): Metadata
    decreases |turns|
  {
    if turns == [] then m else Run(reg, Step(reg, m, turns[0]), turns[1..])
  }

  predicate FailsDirectly(r: RouteResult, intent: string) {
    Direct(r) && r.intent == intent && r.status == DirectFailed
  }

  /** How many turns ended in a direct failure of `intent`. */
  function DirectFailures(reg: Registry, m: Metadata, turns: seq<Turn>, intent: string): nat
    decreases |turns|
  {
    if turns == [] then 0
    else
      var r := RouteTurn(reg, m, turns[0]);
      (if FailsDirectly(r, intent) then 1 else 0)
      + DirectFailures(reg, Step(reg, m, turns[0]), turns[1..], intent)
  }

  /** No turn of the run executes `intent` through a candidate at all. */
  ghost predicate NeverDirect(reg: Registry, m: Metadata, turns: seq<Turn>, intent: string)
    decreases |turns|
  {
    turns != [] ==>
      var r := RouteTurn(reg, m, turns[0]);
      !(Direct(r) && r.intent == intent) && NeverDirect(reg, Step(reg, m, turns[0]), turns[1..], intent)
  }

  /** No turn of the run executes `intent` through a crystallized route. */
  ghost predicate NeverCrystallized(reg: Registry, m: Metadata, turns: seq<Turn>, intent: string)
    decreases |turns|
  {
    turns != [] ==>
      var r := RouteTurn(reg, m, turns[0]);
      !(Direct(r) && r.intent == intent && r.source.value.Crystallized?)
      && NeverCrystallized(reg, Step(reg, m, turns[0]), turns[1..], intent)
  }

  ghost predicate ValidTurns(turns: seq<Turn>) {
    forall i :: 0 <= i < |turns| ==> ValidTurn(turns[i])
  }

  /** The crystallized scan is a first-hit scan: every earlier route is retired or does not match. */
  lemma {:induction false} FirstLiveIsFirst(routes: seq<Route>, states: map<string, RouteState>, hits: set<string>)
    returns (i: nat)
    ensures i <= |routes|
    ensures FirstLiveRoute(routes, states, hits) == if i == |routes| then None else Some(routes[i])
    ensures forall j :: 0 <= j < i ==> Retired(routes[j], states) || routes[j].name !in hits
  {
    i := 0;
    if routes != [] && (Retired(routes[0], states) || routes[0].name !in hits) {
      var k := FirstLiveIsFirst(routes[1..], states, hits);
      i := k + 1;
    }
  }

  lemma {:induction false} FirstMatchIsFirst(intents: seq<Intent>, hits: set<string>) returns (i: nat)
    requires Matched(intents, hits) != []
    ensures i < |intents| && intents[i] == Matched(intents, hits)[0] && intents[i].name in hits
    ensures forall j :: 0 <= j < i ==> intents[j].name !in hits
    ensures |Matched(intents, hits)| > 1 <==> exists j :: i < j < |intents| && intents[j].name in hits
  {
    if intents[0].name in hits {
      i := 0;
      MatchedSome(intents[1..], hits);
    } else {
      var k := FirstMatchIsFirst(intents[1..], hits);
      i := k + 1;
      if |Matched(intents, hits)| > 1 {
        var j :| k < j < |intents[1..]| && intents[1..][j].name in hits;
        assert intents[j + 1].name in hits;
      }
      if j :| i < j < |intents| && intents[j].name in hits { assert intents[1..][j - 1].name in hits; }
    }
  }

  lemma {:induction false} MatchedSome(intents: seq<Intent>, hits: set<string>)
    ensures Matched(intents, hits) != [] <==> exists j :: 0 <= j < |intents| && intents[j].name in hits
  {
    if intents != [] {
      MatchedSome(intents[1..], hits);
      if j :| 0 <= j < |intents| && intents[j].name in hits && j > 0 { assert intents[1..][j - 1].name in hits; }
      if j :| 0 <= j < |intents[1..]| && intents[1..][j].name in hits { assert intents[j + 1].name in hits; }
    }
  }

  lemma {:induction false} FindIntentIsFirst(intents: seq<Intent>, name: string) returns (i: nat)
    ensures i <= |intents|
    ensures FindIntent(intents, name) == if i == |intents| then None else Some(intents[i])
    ensures i < |intents| ==> intents[i].name == name
    ensures forall j :: 0 <= j < i ==> intents[j].name != name
  {
    i := 0;
    if intents != [] && intents[0].name != name {
      var k := FindIntentIsFirst(intents[1..], name);
      i := k + 1;
    }
  }

  // --- what one turn does, read off its inputs ---

  /** Route `k` matches, and its failures in a row are below its limit. */
  predicate RouteOffers(reg: Registry, m: Metadata, t: Turn, k: nat)
    requires k < |reg.routes|
  {
    && reg.routes[k].name in t.routeHits
    && (reg.routes[k].name in m.routeStates ==>
          m.routeStates[reg.routes[k].name].consecutiveFailures < reg.routes[k].maxConsecutiveFailures)
  }

  /** The first route on offer is `k`, and the first intent of its stripped target is `i`. */
  ghost predicate RoutedTo(reg: Registry, m: Metadata, t: Turn, k: nat, i: nat) {
    && k < |reg.routes| && i < |reg.intents|
    && RouteOffers(reg, m, t, k) && (forall j :: 0 <= j < k ==> !RouteOffers(reg, m, t, j))
    && reg.intents[i].name == Trim(reg.routes[k].target)
    && (forall j :: 0 <= j < i ==> reg.intents[j].name != Trim(reg.routes[k].target))
  }

  ghost predicate Unrouted(reg: Registry, m: Metadata, t: Turn) {
    forall k: nat, i: nat :: !RoutedTo(reg, m, t, k, i)
  }

  /** Intent `i` is the first whose pattern matches. */
  ghost predicate MatchedFirst(reg: Registry, t: Turn, i: nat) {
    && i < |reg.intents| && reg.intents[i].name in t.intentHits
    && (forall j :: 0 <= j < i ==> reg.intents[j].name !in t.intentHits)
  }

  ghost predicate MatchedAlone(reg: Registry, t: Turn, i: nat) {
    && i < |reg.intents| && reg.intents[i].name in t.intentHits
    && (forall j :: 0 <= j < |reg.intents| && j != i ==> reg.intents[j].name !in t.intentHits)
  }

  /** Nothing about the text speaks against running the intent at once, nor does its history. */
  predicate Clear(m: Metadata, t: Turn, intent: Intent, rawConfidence: real) {
    && !intent.hybrid && !t.facts.pronoun && !LeavesMuch(t.facts) && !IsLong(t.facts)
    && rawConfidence * HistoryConfidence(m.history, intent.name) >= 0.8
  }

  predicate Corrects(m: Metadata, t: Turn) {
    t.correction && m.lastRule.Some?
  }

  lemma {:induction false} FirstOffer(reg: Registry, m: Metadata, t: Turn) returns (k: nat)
    ensures k <= |reg.routes|
    ensures FirstLiveRoute(reg.routes, m.routeStates, t.routeHits) == if k == |reg.routes| then None else Some(reg.routes[k])
    ensures k < |reg.routes| ==> RouteOffers(reg, m, t, k)
    ensures forall j :: 0 <= j < k ==> !RouteOffers(reg, m, t, j)
  {
    k := FirstLiveIsFirst(reg.routes, m.routeStates, t.routeHits);
  }

  lemma CandidateMeans(m: Metadata, t: Turn, intent: Intent, source: Source, multiple: bool)
    ensures RouteViaCandidate(m, t, intent, source, multiple)
            == RouteResult(if !multiple && Clear(m, t, intent, Confidence(source))
                           then (if t.toolOk then DirectSuccess else DirectFailed) else ConstrainedReplan,
                           intent.name, Some(source))
  {
    SignalMeans(multiple, t.facts);
    hide SignalReason, HistoryConfidence, LeavesMuch, IsLong;
  }

  /** What a turn does, for every registry, session and text. A correction of a remembered rule is
      replanned. Else the first route on offer decides, if its target is registered; else the first
      matching intent, which runs directly only if it matches alone; else a native handler. */
  lemma TurnMeans(reg: Registry, m: Metadata, t: Turn)
    ensures Corrects(m, t) ==> RouteTurn(reg, m, t) == RouteResult(ConstrainedReplan, "", None)
    ensures forall k: nat, i: nat :: !Corrects(m, t) && RoutedTo(reg, m, t, k, i) ==>
      RouteTurn(reg, m, t)
      == RouteResult(if Clear(m, t, reg.intents[i], reg.routes[k].rawConfidence)
                     then (if t.toolOk then DirectSuccess else DirectFailed) else ConstrainedReplan,
                     reg.intents[i].name, Some(Crystallized(reg.routes[k].name, reg.routes[k].rawConfidence)))
    ensures forall i: nat :: !Corrects(m, t) && Unrouted(reg, m, t) && MatchedFirst(reg, t, i) ==>
      RouteTurn(reg, m, t)
      == RouteResult(if MatchedAlone(reg, t, i) && Clear(m, t, reg.intents[i], 0.9)
                     then (if t.toolOk then DirectSuccess else DirectFailed) else ConstrainedReplan,
                     reg.intents[i].name, Some(Declarative))
    ensures !Corrects(m, t) && Unrouted(reg, m, t) && (forall i: nat :: !MatchedFirst(reg, t, i)) ==>
      RouteTurn(reg, m, t) == t.native
  {
    var k := FirstOffer(reg, m, t);
    var i := 0;
    if k < |reg.routes| { i := FindIntentIsFirst(reg.intents, Trim(reg.routes[k].target)); }
    if k < |reg.routes| && i < |reg.intents| {
      RoutedMeans(reg, m, t, k, i);
    } else {
      NotRoutedMeans(reg, m, t, k, i);
      UnroutedMeans(reg, m, t);
    }
  }

  lemma RoutedMeans(reg: Registry, m: Metadata, t: Turn, k: nat, i: nat)
    requires k < |reg.routes| && i < |reg.intents|
    requires FirstLiveRoute(reg.routes, m.routeStates, t.routeHits) == Some(reg.routes[k])
    requires FindIntent(reg.intents, Trim(reg.routes[k].target)) == Some(reg.intents[i])
    requires RoutedTo(reg, m, t, k, i)
    ensures !Unrouted(reg, m, t)
    ensures forall k': nat, i': nat :: RoutedTo(reg, m, t, k', i') ==> k' == k && i' == i
    ensures !Corrects(m, t) ==>
      (RouteTurn(reg, m, t)
       == RouteResult(if Clear(m, t, reg.intents[i], reg.routes[k].rawConfidence)
                      then (if t.toolOk then DirectSuccess else DirectFailed) else ConstrainedReplan,
                      reg.intents[i].name, Some(Crystallized(reg.routes[k].name, reg.routes[k].rawConfidence))))
  {
    CandidateMeans(m, t, reg.intents[i], Crystallized(reg.routes[k].name, reg.routes[k].rawConfidence), false);
    hide Clear, RouteViaCandidate, Trim, RouteOffers;
  }

  lemma NotRoutedMeans(reg: Registry, m: Metadata, t: Turn, k: nat, i: nat)
    requires k <= |reg.routes| && i <= |reg.intents| && (k == |reg.routes| || i == |reg.intents|)
    requires k < |reg.routes| ==> RouteOffers(reg, m, t, k)
    requires forall j :: 0 <= j < k ==> !RouteOffers(reg, m, t, j)
    requires k < |reg.routes| ==> forall j :: 0 <= j < i ==> reg.intents[j].name != Trim(reg.routes[k].target)
    ensures Unrouted(reg, m, t)
  {
    hide RouteOffers, Trim;
  }

  lemma UnroutedMeans(reg: Registry, m: Metadata, t: Turn)
    requires FirstLiveRoute(reg.routes, m.routeStates, t.routeHits) == None
             || FindIntent(reg.intents, Trim(FirstLiveRoute(reg.routes, m.routeStates, t.routeHits).value.target)) == None
    ensures forall i: nat :: !Corrects(m, t) && MatchedFirst(reg, t, i) ==>
      RouteTurn(reg, m, t)
      == RouteResult(if MatchedAlone(reg, t, i) && Clear(m, t, reg.intents[i], 0.9)
                     then (if t.toolOk then DirectSuccess else DirectFailed) else ConstrainedReplan,
                     reg.intents[i].name, Some(Declarative))
    ensures !Corrects(m, t) && (forall i: nat :: !MatchedFirst(reg, t, i)) ==> RouteTurn(reg, m, t) == t.native
  {
    var matched := Matched(reg.intents, t.intentHits);
    MatchedSome(reg.intents, t.intentHits);
    if matched != [] {
      var f := FirstMatchIsFirst(reg.intents, t.intentHits);
      CandidateMeans(m, t, reg.intents[f], Declarative, |matched| > 1);
      assert MatchedFirst(reg, t, f);
      assert |matched| > 1 <==> !MatchedAlone(reg, t, f);
    }
    hide Clear, RouteViaCandidate, Trim, FirstLiveRoute, FindIntent, Matched;
  }

  /** Exactly when a turn runs an intent directly. */
  lemma DirectIff(reg: Registry, m: Metadata, t: Turn)
    requires ValidTurn(t)
    ensures Direct(RouteTurn(reg, m, t)) && RouteTurn(reg, m, t).source.value == Declarative <==>
            !Corrects(m, t) && Unrouted(reg, m, t)
            && exists i: nat :: MatchedAlone(reg, t, i) && Clear(m, t, reg.intents[i], 0.9)
    ensures Direct(RouteTurn(reg, m, t)) && RouteTurn(reg, m, t).source.value.Crystallized? <==>
            !Corrects(m, t)
            && exists k: nat, i: nat :: RoutedTo(reg, m, t, k, i) && Clear(m, t, reg.intents[i], reg.routes[k].rawConfidence)
  {
    TurnMeans(reg, m, t);
    hide RouteTurn, Clear, RoutedTo;
    forall i: nat | MatchedAlone(reg, t, i) ensures MatchedFirst(reg, t, i) { }
  }

  /** Only direct runs of a candidate teach, they teach about one intent, and a correction of a
      remembered rule is never one of them. */
  lemma OnlyDirectRunsTeach(reg: Registry, m: Metadata, t: Turn)
    requires ValidTurn(t)
    ensures var r := RouteTurn(reg, m, t); var after := Step(reg, m, t);
            && (!Direct(r) ==> after == m.(lastRule := None))
            && (Direct(r) ==> forall i :: i != Trim(r.intent) ==>
                  (i in after.history <==> i in m.history) && StatsOf(after, i) == StatsOf(m, i))
            && (t.correction && m.lastRule.Some? ==> !Direct(r))
            && (Direct(r) ==> after.lastRule == Some(LastRule(Trim(r.intent), r.source.value, r.status)))
  {
  }

  /** What they teach about that intent: the run counts as a success or as a failure, for good and among the
      recent ones; past 20 recent ones, one of them is forgotten. */
  lemma DirectRunTeachesIntent(reg: Registry, m: Metadata, t: Turn)
    requires ValidTurn(t) && Direct(RouteTurn(reg, m, t))
    ensures var name := Trim(RouteTurn(reg, m, t).intent); var won := if t.toolOk then 1 else 0;
            var s, after := StatsOf(m, name), Step(reg, m, t).history;
            && name in after
            && after[name].success == s.success + won && after[name].failure == s.failure + 1 - won
            && (s.recentSuccess + s.recentFailure < 20 ==>
                  after[name].recentSuccess == s.recentSuccess + won && after[name].recentFailure == s.recentFailure + 1 - won)
            && (s.recentSuccess + s.recentFailure >= 20 ==>
                  s.recentSuccess + s.recentFailure <= after[name].recentSuccess + after[name].recentFailure
                    <= s.recentSuccess + s.recentFailure + 1)
  {
    StatusTellsOutcome(reg, m, t);
    hide RouteTurn, Trim, UpdateRouteState;
  }

  /** And about at most one route: the stripped name of the crystallized candidate, unless that is blank.
      Its runs and failures are counted, and its failures in a row until the next success. */
  lemma DirectRunTeachesRoute(reg: Registry, m: Metadata, t: Turn)
    requires ValidTurn(t) && Direct(RouteTurn(reg, m, t))
    ensures var source := RouteTurn(reg, m, t).source.value; var after := Step(reg, m, t).routeStates;
            var before := m.routeStates;
            && (source == Declarative ==> after == before)
            && (source.Crystallized? && Trim(source.route) == "" ==> after == before)
            && (source.Crystallized? && Trim(source.route) != "" ==>
                  var name := Trim(source.route);
                  && after.Keys == before.Keys + {name} && (forall n :: n in before && n != name ==> after[n] == before[n])
                  && var s := if name in before then before[name] else RouteState(0, 0, 0);
                     && after[name].success + after[name].failure == s.success + s.failure + 1
                     && (t.toolOk ==> after[name].success == s.success + 1 && after[name].consecutiveFailures == 0)
                     && (!t.toolOk ==> after[name].failure == s.failure + 1
                                       && after[name].consecutiveFailures == s.consecutiveFailures + 1))
  {
    StatusTellsOutcome(reg, m, t);
    hide RouteTurn, Trim, UpdateStats;
  }

  lemma StatusTellsOutcome(reg: Registry, m: Metadata, t: Turn)
    requires ValidTurn(t) && Direct(RouteTurn(reg, m, t))
    ensures RouteTurn(reg, m, t).status == if t.toolOk then DirectSuccess else DirectFailed
  {
    hide Trim, FirstLiveRoute, FindIntent, Matched, ValveDecision, HistoryConfidence, Confidence;
  }

  /** A candidate's confidence, weighted by history. */
  function Weighted(source: Source, history: map<string, Stats>, intent: string): real {
    Confidence(source) * HistoryConfidence(history, intent)
  }

  /** A candidate runs directly only when history-weighted confidence reaches the threshold. */
  lemma DirectNeedsConfidence(reg: Registry, m: Metadata, t: Turn)
    requires ValidTurn(t) && Direct(RouteTurn(reg, m, t))
    ensures var r := RouteTurn(reg, m, t);
            Weighted(r.source.value, m.history, r.intent) >= SAFETY_VALVE_THRESHOLD
    ensures RouteIsLive(reg, m, t)
  {
  }

  ghost predicate RouteIsLive(reg: Registry, m: Metadata, t: Turn) {
    var r := RouteTurn(reg, m, t);
    r.source.Some? && r.source.value.Crystallized? ==>
      exists route :: route in reg.routes && route.name == r.source.value.route
        && route.rawConfidence == r.source.value.rawConfidence && !Retired(route, m.routeStates)
  }

  lemma {:induction false} FoundIntentIsRegistered(intents: seq<Intent>, name: string) returns (i: nat)
    requires FindIntent(intents, name).Some?
    ensures i < |intents| && intents[i] == FindIntent(intents, name).value
  {
    if intents[0].name == name {
      i := 0;
    } else {
      var k := FoundIntentIsRegistered(intents[1..], name);
      i := k + 1;
    }
  }

  lemma {:induction false} FirstMatchIsRegistered(intents: seq<Intent>, hits: set<string>) returns (i: nat)
    requires Matched(intents, hits) != []
    ensures i < |intents| && intents[i] == Matched(intents, hits)[0]
  {
    if intents[0].name in hits {
      i := 0;
    } else {
      var k := FirstMatchIsRegistered(intents[1..], hits);
      i := k + 1;
    }
  }

  lemma DirectIsRegistered(reg: Registry, m: Metadata, t: Turn) returns (i: nat)
    requires ValidTurn(t) && Direct(RouteTurn(reg, m, t))
    ensures i < |reg.intents| && reg.intents[i].name == RouteTurn(reg, m, t).intent
  {
    var live := FirstLiveRoute(reg.routes, m.routeStates, t.routeHits);
    if live.Some? && FindIntent(reg.intents, Trim(live.value.target)).Some? {
      i := FoundIntentIsRegistered(reg.intents, Trim(live.value.target));
    } else {
      i := FirstMatchIsRegistered(reg.intents, t.intentHits);
    }
    hide ValveDecision, Trim, HistoryConfidence;
  }

  /** A name that stripping leaves alone, and that no other registered name is stripped to. */
  ghost predicate Sole(reg: Registry, intent: string) {
    && Trim(intent) == intent
    && forall i :: 0 <= i < |reg.intents| && Trim(reg.intents[i].name) == intent ==> reg.intents[i].name == intent
  }

  /** Nothing but its own direct runs is recorded under the name of a sole intent. */
  lemma RecordedAlone(reg: Registry, m: Metadata, t: Turn, intent: string)
    requires Sole(reg, intent) && ValidTurn(t) && Direct(RouteTurn(reg, m, t))
    ensures Trim(RouteTurn(reg, m, t).intent) == intent <==> RouteTurn(reg, m, t).intent == intent
  {
    hide RouteTurn, Trim;
    var i := DirectIsRegistered(reg, m, t);
  }

  /** The shape every gated history has: failures are never forgotten, and the recent
      successes fill whatever the failures leave of the window. */
  ghost predicate Gated(h: Stats, limit: nat) {
    && h.recentFailure == h.failure <= limit
    && h.recentSuccess == (if h.success + h.failure <= RECENT_WINDOW then h.success else RECENT_WINDOW - h.failure)
  }

  lemma GatedStep(h: Stats, ok: bool, limit: nat)
    requires limit < RECENT_WINDOW && Gated(h, limit) && (ok || h.failure < limit)
    ensures Gated(UpdateStats(h, ok), limit)
    ensures UpdateStats(h, ok).failure == h.failure + (if ok then 0 else 1)
    ensures UpdateStats(h, ok).success == h.success + (if ok then 1 else 0)
  {
  }

  /** Raw confidences up to 80/79, in particular every confidence up to 1.0. */
  predicate Modest(source: Source) {
    Confidence(source) * 0.79 <= SAFETY_VALVE_THRESHOLD
  }

  ghost predicate ModestRoutes(reg: Registry) {
    forall i :: 0 <= i < |reg.routes| ==> reg.routes[i].rawConfidence * 0.79 <= SAFETY_VALVE_THRESHOLD
  }

  /** The shape every history has, gated or not: failures are never forgotten, and recent successes
      only take what they leave of the window. */
  ghost predicate Settled(h: Stats) {
    && h.recentFailure == h.failure && h.recentSuccess <= h.success
    && h.recentSuccess <= (if h.failure <= RECENT_WINDOW then RECENT_WINDOW - h.failure else 0)
  }

  lemma SettledStep(h: Stats, ok: bool)
    requires Settled(h)
    ensures Settled(UpdateStats(h, ok))
    ensures UpdateStats(h, ok).failure == h.failure + (if ok then 0 else 1)
  {
  }

  lemma BlendedAfterFailures(h: Stats, limit: nat)
    requires Settled(h) && h.failure >= limit && 4 <= limit <= 6
    ensures 0.0 <= Blended(h) < (if limit == 6 then 0.79 else 0.86)
  {
    var n := (h.recentSuccess + h.recentFailure) as real;
    var k := if limit == 6 then 0.7 else 0.8;
    QuotientAtMost(h.recentSuccess as real, n, k);
    QuotientBelowOne(h.success as real, (h.success + h.failure) as real);
    assert Blended(h) < 0.7 * k + 0.3;
    BlendedNonNegative(h);
  }

  lemma QuotientBelowOne(x: real, y: real)
    requires 0.0 <= x < y
    ensures x / y < 1.0
  {
  }

  lemma Scaled(c: real, b: real, k: real)
    requires 0.0 <= b < k && c * k <= SAFETY_VALVE_THRESHOLD
    ensures c * b < SAFETY_VALVE_THRESHOLD
  {
    if c > 0.0 { assert c * b < c * k; } else { assert c * b <= 0.0; }
  }

  /** The sources that a given number of failures stops. */
  ghost predicate StoppedBy(source: Source, limit: nat) {
    (limit == 6 && Modest(source)) || (4 <= limit <= 6 && source == Declarative)
  }

  /** From the limit on the valve stays shut: 6 failures stop every modest candidate, 4 stop a
      declarative one. */
  lemma ExhaustedHistoryIsRefused(h: Stats, limit: nat, source: Source)
    requires Settled(h) && h.failure >= limit && StoppedBy(source, limit)
    ensures Confidence(source) * Blended(h) < SAFETY_VALVE_THRESHOLD
  {
    BlendedAfterFailures(h, limit);
    Scaled(Confidence(source), Blended(h), if limit == 6 then 0.79 else 0.86);
  }

  lemma DirectIsModest(reg: Registry, m: Metadata, t: Turn)
    requires ModestRoutes(reg) && ValidTurn(t) && Direct(RouteTurn(reg, m, t))
    ensures Modest(RouteTurn(reg, m, t).source.value)
  {
    DirectNeedsConfidence(reg, m, t);
    hide RouteTurn;
  }

  lemma DirectMeans(r: RouteResult)
    ensures Direct(r) ==> (r.status == DirectSuccess || r.status == DirectFailed) && r.source.Some?
  {
  }

  lemma LearnShape(m: Metadata, r: RouteResult, i: string)
    ensures StatsOf(Learn(m, r), i) == if Direct(r) && i == Trim(r.intent)
                                       then UpdateStats(StatsOf(m, i), r.status == DirectSuccess) else StatsOf(m, i)
  {
    hide UpdateStats, Trim, UpdateRouteState;
  }

  lemma NothingYet()
    ensures Settled(NO_HISTORY) && Gated(NO_HISTORY, 6)
  {
  }

  lemma ExhaustedWeighsTooLittle(m: Metadata, intent: string, source: Source, limit: nat)
    requires Settled(StatsOf(m, intent)) && StatsOf(m, intent).failure >= limit && StoppedBy(source, limit)
    ensures Weighted(source, m.history, intent) < SAFETY_VALVE_THRESHOLD
  {
    hide Blended, Confidence, Modest;
    ExhaustedHistoryIsRefused(m.history[intent], limit, source);
  }

  /** An intent that runs directly has had fewer failures than its source is allowed. */
  lemma DirectHasRoom(reg: Registry, m: Metadata, t: Turn, limit: nat)
    requires ValidTurn(t) && Direct(RouteTurn(reg, m, t))
    requires var r := RouteTurn(reg, m, t); StoppedBy(r.source.value, limit) && Settled(StatsOf(m, r.intent))
    ensures StatsOf(m, RouteTurn(reg, m, t).intent).failure < limit
  {
    var r := RouteTurn(reg, m, t);
    DirectMeans(r);
    hide *;
    DirectNeedsConfidence(reg, m, t);
    if StatsOf(m, r.intent).failure >= limit {
      ExhaustedWeighsTooLittle(m, r.intent, r.source.value, limit);
      assert false;
    }
  }

  /** One turn, seen from one name: its failures are never forgotten, and its own are always counted. */
  lemma StepKeepsSettled(reg: Registry, m: Metadata, t: Turn, intent: string)
    requires Trim(intent) == intent && ValidTurn(t) && Settled(StatsOf(m, intent))
    ensures Settled(StatsOf(Step(reg, m, t), intent))
    ensures StatsOf(Step(reg, m, t), intent).failure >=
            StatsOf(m, intent).failure + (if FailsDirectly(RouteTurn(reg, m, t), intent) then 1 else 0)
    ensures Sole(reg, intent) ==>
            StatsOf(Step(reg, m, t), intent).failure ==
            StatsOf(m, intent).failure + (if FailsDirectly(RouteTurn(reg, m, t), intent) then 1 else 0)
  {
    var r := RouteTurn(reg, m, t);
    if Direct(r) && Sole(reg, intent) { RecordedAlone(reg, m, t, intent); }
    DirectMeans(r);
    hide RouteTurn, Settled, Trim, UpdateStats, Learn, Direct, Sole;
    LearnShape(m, r, intent);
    SettledStep(StatsOf(m, intent), r.status == DirectSuccess);
  }

  lemma RunUnfolds(reg: Registry, m: Metadata, turns: seq<Turn>, intent: string)
    ensures turns == [] ==> Run(reg, m, turns) == m && DirectFailures(reg, m, turns, intent) == 0
    ensures turns != [] ==>
      && Run(reg, m, turns) == Run(reg, Step(reg, m, turns[0]), turns[1..])
      && DirectFailures(reg, m, turns, intent)
         == (if FailsDirectly(RouteTurn(reg, m, turns[0]), intent) then 1 else 0)
            + DirectFailures(reg, Step(reg, m, turns[0]), turns[1..], intent)
      && (NeverCrystallized(reg, m, turns, intent) ==>
            (Direct(RouteTurn(reg, m, turns[0])) && RouteTurn(reg, m, turns[0]).intent == intent ==>
               RouteTurn(reg, m, turns[0]).source.value == Declarative)
            && NeverCrystallized(reg, Step(reg, m, turns[0]), turns[1..], intent))
  {
    hide RouteTurn, Learn;
  }

  /** In every registry, the failures of a tidy name count what was recorded before plus at least its own
      direct failures, and exactly that if nothing else is recorded under it. */
  lemma {:induction false} HistoryCountsFailures(reg: Registry, m: Metadata, turns: seq<Turn>, intent: string)
    requires Trim(intent) == intent && ValidTurns(turns) && Settled(StatsOf(m, intent))
    ensures Settled(StatsOf(Run(reg, m, turns), intent))
    ensures StatsOf(Run(reg, m, turns), intent).failure >=
            StatsOf(m, intent).failure + DirectFailures(reg, m, turns, intent)
    ensures Sole(reg, intent) ==>
            StatsOf(Run(reg, m, turns), intent).failure ==
            StatsOf(m, intent).failure + DirectFailures(reg, m, turns, intent)
    decreases |turns|
  {
    hide Run, DirectFailures, NeverCrystallized, RouteTurn, Learn, Step, Settled, Trim, Sole, Direct;
    RunUnfolds(reg, m, turns, intent);
    if turns != [] {
      StepKeepsSettled(reg, m, turns[0], intent);
      HistoryCountsFailures(reg, Step(reg, m, turns[0]), turns[1..], intent);
    }
  }

  /** How many failures the history leaves before a limit. */
  function Room(h: Stats, limit: nat): nat {
    if h.failure < limit then limit - h.failure else 0
  }

  /** The runs in which a number of failures stops every direct run of the intent. */
  ghost predicate Stoppable(reg: Registry, m: Metadata, turns: seq<Turn>, intent: string, limit: nat) {
    (limit == 6 && ModestRoutes(reg)) || (limit == 4 && NeverCrystallized(reg, m, turns, intent))
  }

  lemma StoppableStep(reg: Registry, m: Metadata, turns: seq<Turn>, intent: string, limit: nat)
    requires turns != [] && ValidTurn(turns[0]) && Stoppable(reg, m, turns, intent, limit)
    ensures Stoppable(reg, Step(reg, m, turns[0]), turns[1..], intent, limit)
    ensures var r := RouteTurn(reg, m, turns[0]);
            Direct(r) && r.intent == intent ==> StoppedBy(r.source.value, limit)
  {
    RunUnfolds(reg, m, turns, intent);
    if Direct(RouteTurn(reg, m, turns[0])) && ModestRoutes(reg) { DirectIsModest(reg, m, turns[0]); }
    hide RouteTurn, NeverCrystallized, Modest, Learn, Step, ModestRoutes;
  }

  /** The bound for one name in every registry, whatever its siblings record under it. */
  lemma {:induction false} FailuresLimited(reg: Registry, m: Metadata, turns: seq<Turn>, intent: string, limit: nat)
    requires Trim(intent) == intent && ValidTurns(turns) && Settled(StatsOf(m, intent))
    requires Stoppable(reg, m, turns, intent, limit)
    ensures DirectFailures(reg, m, turns, intent) <= Room(StatsOf(m, intent), limit)
    decreases |turns|
  {
    hide Run, DirectFailures, Stoppable, StoppedBy, RouteTurn, Learn, Step, Settled, Trim, Sole, Direct;
    RunUnfolds(reg, m, turns, intent);
    if turns != [] {
      StoppableStep(reg, m, turns, intent, limit);
      StepKeepsSettled(reg, m, turns[0], intent);
      if FailsDirectly(RouteTurn(reg, m, turns[0]), intent) { DirectHasRoom(reg, m, turns[0], limit); }
      FailuresLimited(reg, Step(reg, m, turns[0]), turns[1..], intent, limit);
    }
  }

  lemma StepKeepsGated(reg: Registry, m: Metadata, t: Turn, intent: string)
    requires Sole(reg, intent) && ModestRoutes(reg) && ValidTurn(t) && Gated(StatsOf(m, intent), 6)
    ensures Gated(StatsOf(Step(reg, m, t), intent), 6)
  {
    var r := RouteTurn(reg, m, t);
    DirectMeans(r);
    if Direct(r) {
      RecordedAlone(reg, m, t, intent);
      DirectIsModest(reg, m, t);
      if r.intent == intent {
        hide RouteTurn, Modest, Learn, Direct, Trim, Sole, ModestRoutes;
        DirectHasRoom(reg, m, t, 6);
      }
    }
    hide RouteTurn, Gated, Trim, UpdateStats, Learn, Direct, Sole, Modest, ModestRoutes;
    LearnShape(m, r, intent);
    if Direct(r) && r.intent == intent { GatedStep(StatsOf(m, intent), r.status == DirectSuccess, 6); }
  }

  /** Main result, over every session: the history of a sole intent counts exactly its direct failures,
      the recent window forgets no failure and never exceeds 20, and 6 direct failures are the most the
      intent can have. */
  lemma {:induction false} SessionBounds(reg: Registry, m: Metadata, turns: seq<Turn>, intent: string)
    requires Sole(reg, intent) && ModestRoutes(reg) && ValidTurns(turns) && Gated(StatsOf(m, intent), 6)
    ensures Gated(StatsOf(Run(reg, m, turns), intent), 6)
    ensures StatsOf(Run(reg, m, turns), intent).failure ==
            StatsOf(m, intent).failure + DirectFailures(reg, m, turns, intent)
    decreases |turns|
  {
    hide Run, DirectFailures, NeverCrystallized, RouteTurn, Learn, Step, Trim, ModestRoutes, Direct;
    RunUnfolds(reg, m, turns, intent);
    HistoryCountsFailures(reg, m, turns, intent);
    if turns != [] {
      StepKeepsGated(reg, m, turns[0], intent);
      SessionBounds(reg, Step(reg, m, turns[0]), turns[1..], intent);
    }
  }

  /** Bounded failure from an empty history. In every registry of modest routes a tidy name fails directly at
      most 6 times, whatever names its siblings have; a sole one's history says so exactly. */
  lemma FailuresBounded(reg: Registry, turns: seq<Turn>, intent: string)
    requires Trim(intent) == intent && ModestRoutes(reg) && ValidTurns(turns)
    ensures DirectFailures(reg, NEW_SESSION, turns, intent) <= 6
    ensures var h := StatsOf(Run(reg, NEW_SESSION, turns), intent);
            && DirectFailures(reg, NEW_SESSION, turns, intent) <= h.failure == h.recentFailure
            && (Sole(reg, intent) ==>
                  && h.failure == DirectFailures(reg, NEW_SESSION, turns, intent)
                  && h.recentSuccess + h.recentFailure <= RECENT_WINDOW)
  {
    hide Run, DirectFailures, NeverCrystallized, RouteTurn, Learn, Step, Trim, Sole;
    NothingYet();
    HistoryCountsFailures(reg, NEW_SESSION, turns, intent);
    FailuresLimited(reg, NEW_SESSION, turns, intent, 6);
  }

  /** Without crystallized executions of the intent the bound drops to 4, for every registry and every
      confidence of its routes. */
  lemma DeclarativeFailuresBounded(reg: Registry, m: Metadata, turns: seq<Turn>, intent: string)
    requires Trim(intent) == intent && ValidTurns(turns) && Settled(StatsOf(m, intent))
    requires NeverCrystallized(reg, m, turns, intent) && StatsOf(m, intent).failure <= 4
    ensures StatsOf(m, intent).failure + DirectFailures(reg, m, turns, intent) <= 4
    ensures Sole(reg, intent) ==> StatsOf(Run(reg, m, turns), intent).failure <= 4
  {
    hide Run, DirectFailures, NeverCrystallized, RouteTurn, Learn, Step, Trim, Sole, Settled;
    FailuresLimited(reg, m, turns, intent, 4);
    HistoryCountsFailures(reg, m, turns, intent);
  }

  lemma BlendedNonNegative(h: Stats)
    ensures 0.0 <= Blended(h)
  {
    if h.success + h.failure > 0 {
      QuotientAtLeast(h.success as real, (h.success + h.failure) as real, 0.0);
    }
    if h.recentSuccess + h.recentFailure > 0 {
      QuotientAtLeast(h.recentSuccess as real, (h.recentSuccess + h.recentFailure) as real, 0.0);
    }
  }

  /** Hand-over is permanent: once even the most confident candidate would be refused on history, no
      later turn runs the intent directly and its history is frozen. */
  lemma {:induction false} HandOverIsPermanent(reg: Registry, m: Metadata, turns: seq<Turn>, intent: string, top: real)
    requires Sole(reg, intent) && ValidTurns(turns)
    requires DECLARATIVE_CONFIDENCE <= top && forall i :: 0 <= i < |reg.routes| ==> reg.routes[i].rawConfidence <= top
    requires intent in m.history && top * Blended(m.history[intent]) < SAFETY_VALVE_THRESHOLD
    ensures NeverDirect(reg, m, turns, intent)
    ensures intent in Run(reg, m, turns).history && Run(reg, m, turns).history[intent] == m.history[intent]
    decreases |turns|
  {
    if turns != [] {
      hide *;
      HandOverStep(reg, m, turns[0], intent, top);
      NeverDirectStep(reg, m, turns, intent);
      HandOverIsPermanent(reg, Step(reg, m, turns[0]), turns[1..], intent, top);
    } else {
      hide Trim, Blended;
    }
  }

  lemma HandOverStep(reg: Registry, m: Metadata, t: Turn, intent: string, top: real)
    requires Sole(reg, intent) && ValidTurn(t)
    requires DECLARATIVE_CONFIDENCE <= top && forall i :: 0 <= i < |reg.routes| ==> reg.routes[i].rawConfidence <= top
    requires intent in m.history && top * Blended(m.history[intent]) < SAFETY_VALVE_THRESHOLD
    ensures !(Direct(RouteTurn(reg, m, t)) && RouteTurn(reg, m, t).intent == intent)
    ensures intent in Step(reg, m, t).history && Step(reg, m, t).history[intent] == m.history[intent]
  {
    var r := RouteTurn(reg, m, t);
    if r.intent == intent { RefusedBelow(reg, m, t, top); }
    if Direct(r) { RecordedAlone(reg, m, t, intent); }
    hide RouteTurn, Blended, Trim, UpdateStats, UpdateRouteState, Direct, Sole;
  }

  lemma NeverDirectStep(reg: Registry, m: Metadata, turns: seq<Turn>, intent: string)
    requires turns != []
    ensures Run(reg, m, turns) == Run(reg, Step(reg, m, turns[0]), turns[1..])
    ensures NeverDirect(reg, m, turns, intent) <==>
            !(Direct(RouteTurn(reg, m, turns[0])) && RouteTurn(reg, m, turns[0]).intent == intent)
            && NeverDirect(reg, Step(reg, m, turns[0]), turns[1..], intent)
  {
    hide RouteTurn, Learn;
  }

  lemma RefusedBelow(reg: Registry, m: Metadata, t: Turn, top: real)
    requires ValidTurn(t) && RouteTurn(reg, m, t).intent in m.history
    requires DECLARATIVE_CONFIDENCE <= top && forall i :: 0 <= i < |reg.routes| ==> reg.routes[i].rawConfidence <= top
    requires top * Blended(m.history[RouteTurn(reg, m, t).intent]) < SAFETY_VALVE_THRESHOLD
    ensures !Direct(RouteTurn(reg, m, t))
  {
    var r := RouteTurn(reg, m, t);
    if Direct(r) {
      hide *;
      DirectNeedsConfidence(reg, m, t);
      SourceAtMost(reg, m, t, top);
      WeighsTooLittle(m, r.intent, r.source.value, top);
      assert false;
    }
  }

  lemma WeighsTooLittle(m: Metadata, intent: string, source: Source, top: real)
    requires intent in m.history && Confidence(source) <= top && top * Blended(m.history[intent]) < SAFETY_VALVE_THRESHOLD
    ensures Weighted(source, m.history, intent) < SAFETY_VALVE_THRESHOLD
  {
    hide Blended, Confidence;
    BlendedNonNegative(m.history[intent]);
    ScaledUp(Confidence(source), top, Blended(m.history[intent]));
  }

  lemma SourceAtMost(reg: Registry, m: Metadata, t: Turn, top: real)
    requires ValidTurn(t) && Direct(RouteTurn(reg, m, t))
    requires DECLARATIVE_CONFIDENCE <= top && forall i :: 0 <= i < |reg.routes| ==> reg.routes[i].rawConfidence <= top
    ensures Confidence(RouteTurn(reg, m, t).source.value) <= top
  {
    DirectNeedsConfidence(reg, m, t);
    hide RouteTurn, Blended, HistoryConfidence;
  }

  lemma ScaledUp(c: real, top: real, b: real)
    requires 0.0 <= b && c <= top
    ensures c * b <= top * b
  {
  }

  // --- crystallized routes ---

  /** A route whose state nobody else keeps alive: its name is tidy, and a route recorded under the same
      name has exactly that name and no larger limit. */
  ghost predicate Alone(reg: Registry, route: Route) {
    && Trim(route.name) == route.name && route.name != ""
    && forall i :: 0 <= i < |reg.routes| && Trim(reg.routes[i].name) == route.name ==>
         reg.routes[i].name == route.name && reg.routes[i].maxConsecutiveFailures <= route.maxConsecutiveFailures
  }

  /** The first failure is always possible: a route with no recorded state is not retired. */
  function RouteLimit(route: Route): nat {
    if route.maxConsecutiveFailures > 1 then route.maxConsecutiveFailures else 1
  }

  function FailuresInARow(m: Metadata, name: string): nat {
    if name in m.routeStates then m.routeStates[name].consecutiveFailures else 0
  }

  lemma StepKeepsRoute(reg: Registry, m: Metadata, t: Turn, route: Route)
    requires ValidTurn(t) && Alone(reg, route) && FailuresInARow(m, route.name) <= RouteLimit(route)
    ensures FailuresInARow(Step(reg, m, t), route.name) <= RouteLimit(route)
    ensures Retired(route, m.routeStates) ==>
      route.name in Step(reg, m, t).routeStates && Step(reg, m, t).routeStates[route.name] == m.routeStates[route.name]
  {
    var r := RouteTurn(reg, m, t);
    if Direct(r) {
      DirectNeedsConfidence(reg, m, t);
      hide RouteTurn, Trim, UpdateStats, Confidence;
      if r.source.value.Crystallized? && Trim(r.source.value.route) == route.name {
        var live :| live in reg.routes && live.name == r.source.value.route && !Retired(live, m.routeStates);
        var i :| 0 <= i < |reg.routes| && reg.routes[i] == live;
        assert live.name == route.name && live.maxConsecutiveFailures <= route.maxConsecutiveFailures;
      }
    }
  }

  /** For a route that stands alone, failures in a row never pass the limit (or the first failure, if
      the limit is smaller), and retirement is final. */
  lemma {:induction false} RetirementIsFinal(reg: Registry, m: Metadata, turns: seq<Turn>, route: Route)
    requires ValidTurns(turns) && Alone(reg, route) && FailuresInARow(m, route.name) <= RouteLimit(route)
    ensures FailuresInARow(Run(reg, m, turns), route.name) <= RouteLimit(route)
    ensures Retired(route, m.routeStates) ==>
      route.name in Run(reg, m, turns).routeStates
      && Run(reg, m, turns).routeStates[route.name] == m.routeStates[route.name]
    decreases |turns|
  {
    if turns != [] {
      hide Step, Alone;
      StepKeepsRoute(reg, m, turns[0], route);
      RetirementIsFinal(reg, Step(reg, m, turns[0]), turns[1..], route);
    }
  }

  // --- what the update function does without the valve ---

  /** Exactly when one update keeps a window of 20: the counter it decrements must not be empty. */
  lemma UpdateKeepsWindowIff(h: Stats, ok: bool)
    requires h.recentSuccess + h.recentFailure <= RECENT_WINDOW
    ensures var after := UpdateStats(h, ok);
            after.recentSuccess + after.recentFailure <= RECENT_WINDOW <==>
            !(h.recentSuccess + h.recentFailure == RECENT_WINDOW
              && ((!ok && h.recentSuccess == 0 && h.success + RECENT_WINDOW >= h.failure)
                  || (ok && h.recentFailure == 0 && h.success < h.failure + RECENT_WINDOW)))
  {
  }

  function Repeat(h: Stats, ok: bool, n: nat): Stats {
    if n == 0 then h else UpdateStats(Repeat(h, ok, n - 1), ok)
  }

  lemma {:induction false} RepeatedFailures(n: nat)
    ensures Repeat(NO_HISTORY, false, n) == Stats(0, n, 0, n)
  {
    if n > 0 { RepeatedFailures(n - 1); }
  }

  /** Without the valve an unbroken run of failures overruns the window. */
  lemma UngatedRunOverrunsWindow()
    ensures var h := Repeat(NO_HISTORY, false, 21);
            h.recentSuccess + h.recentFailure == 21 > RECENT_WINDOW
  {
    RepeatedFailures(21);
  }
}
