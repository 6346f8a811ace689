/** How sharp the bounds of the routing feedback loop are, and the registries on which they fail. */
module RoutingExtremes {
  import opened AdaptiveRouting
  import opened Options
  import opened Text

  const CRYSTALLIZED_CONFIDENCE: real := 0.97

  /** One crystallized route to one intent. */
  function OneRoute(name: string, limit: int): Registry {
    Registry([Route(name, "probe", CRYSTALLIZED_CONFIDENCE, limit)], [Intent("probe", false)])
  }

  /** Two routes registered under one name, with limits 1 and 5. */
  const TWINS := Registry([Route("r", "probe", CRYSTALLIZED_CONFIDENCE, 1), Route("r", "probe", CRYSTALLIZED_CONFIDENCE, 5)],
                          [Intent("probe", false)])

  lemma ShortNamesAreTidy()
    ensures Trim("probe") == "probe" && Trim("promoted") == "promoted" && Trim("r") == "r"
  {
    TrimFixesTrimmed("probe");
    TrimFixesTrimmed("promoted");
    TrimFixesTrimmed("r");
  }

  /** A turn that asks for the intent, in words the routes of that name match too (`Some`) or do not. */
  function Attempt(route: Option<string>, ok: bool): Turn {
    Turn(false, if route.Some? then {route.value} else {}, {"probe"}, Facts(0, 0, 0, 0, 0, false), ok,
         RouteResult(NotRouted, "", None))
  }

  function AttemptSource(route: Option<string>): Source {
    if route.Some? then Crystallized(route.value, CRYSTALLIZED_CONFIDENCE) else Declarative
  }

  /** The route of an attempt is live, and leads to the intent. */
  ghost predicate Serves(reg: Registry, m: Metadata, route: Option<string>) {
    var live := FirstLiveRoute(reg.routes, m.routeStates, Attempt(route, true).routeHits);
    && reg.intents == [Intent("probe", false)]
    && live.Some? == route.Some?
    && (live.Some? ==> live.value.name == route.value && live.value.target == "probe"
                       && live.value.rawConfidence == CRYSTALLIZED_CONFIDENCE)
  }

  ghost predicate Trusted(m: Metadata, route: Option<string>) {
    Weighted(AttemptSource(route), m.history, "probe") >= SAFETY_VALVE_THRESHOLD
  }

  /** A trusted attempt runs directly, through its route if it has one. */
  lemma AttemptRuns(reg: Registry, m: Metadata, route: Option<string>, ok: bool)
    requires Serves(reg, m, route) && Trusted(m, route)
    ensures RouteTurn(reg, m, Attempt(route, ok))
            == RouteResult(if ok then DirectSuccess else DirectFailed, "probe", Some(AttemptSource(route)))
  {
    ShortNamesAreTidy();
    hide HistoryConfidence, Trim, FirstLiveRoute;
    var t := Attempt(route, ok);
    assert Matched(reg.intents, t.intentHits) == [reg.intents[0]];
    assert Residual(t.facts) == 0.0;
  }

  /** What the session then learns. */
  lemma AttemptTeaches(reg: Registry, m: Metadata, route: Option<string>, ok: bool)
    requires Serves(reg, m, route) && Trusted(m, route)
    ensures var after := Step(reg, m, Attempt(route, ok));
            && "probe" in after.history && after.history["probe"] == UpdateStats(StatsOf(m, "probe"), ok)
            && after.routeStates == UpdateRouteState(m.routeStates, AttemptSource(route), ok)
    ensures var r := RouteTurn(reg, m, Attempt(route, ok));
            Direct(r) && r.intent == "probe" && r.status == (if ok then DirectSuccess else DirectFailed)
  {
    AttemptRuns(reg, m, route, ok);
    ShortNamesAreTidy();
    hide RouteTurn, Serves, Trusted, UpdateStats, UpdateRouteState, Trim;
  }

  /** What a recorded outcome does to the route's failures in a row. */
  lemma OutcomeInARow(m: Metadata, after: Metadata, name: string, ok: bool)
    requires after.routeStates == UpdateRouteState(m.routeStates, Crystallized(name, CRYSTALLIZED_CONFIDENCE), ok)
    ensures Trim(name) != "" ==> FailuresInARow(after, Trim(name)) == (if ok then 0 else FailuresInARow(m, Trim(name)) + 1)
    ensures Trim(name) == "" ==> after.routeStates == m.routeStates
    ensures forall n :: n in after.routeStates ==> n in m.routeStates || n == Trim(name)
  {
    hide Trim;
  }

  /** Nothing was ever recorded under a name that stripping changes. */
  ghost predicate Stripped(m: Metadata, name: string) {
    name in m.routeStates ==> Trim(name) == name
  }

  lemma OneRouteServes(m: Metadata, name: string, limit: int)
    requires Stripped(m, name) && (Trim(name) == name ==> FailuresInARow(m, name) < limit)
    ensures Serves(OneRoute(name, limit), m, Some(name))
    ensures Serves(OneRoute(name, limit), m, None)
  {
    hide Trim;
  }

  // --- a long run of successes ---

  function Attempts(route: Option<string>, ok: bool, n: nat): seq<Turn> {
    if n == 0 then [] else [Attempt(route, ok)] + Attempts(route, ok, n - 1)
  }

  ghost predicate Flawless(m: Metadata, successes: nat) {
    StatsOf(m, "probe") == Stats(successes, 0, if successes < 20 then successes else 20, 0)
  }

  lemma FlawlessIsTrusted(m: Metadata, successes: nat, route: Option<string>)
    requires Flawless(m, successes)
    ensures Trusted(m, route)
  {
    if successes > 0 {
      var recent := m.history["probe"].recentSuccess as real;
      QuotientAtLeast(recent, recent, 1.0);
      QuotientAtLeast(successes as real, successes as real, 1.0);
      assert Blended(m.history["probe"]) >= 1.0;
    }
  }

  /** Ready for any number of successes: the route has no failure behind it, and a limit that it has not
      reached with none. */
  ghost predicate Ready(m: Metadata, name: string, limit: int, successes: nat) {
    && Flawless(m, successes) && Stripped(m, name) && FailuresInARow(m, Trim(name)) == 0
    && (Trim(name) == name ==> limit >= 1)
  }

  lemma ReadyServes(m: Metadata, name: string, limit: int, successes: nat, route: Option<string>)
    requires Ready(m, name, limit, successes) && (route == None || route == Some(name))
    ensures Serves(OneRoute(name, limit), m, route) && Trusted(m, route)
  {
    FlawlessIsTrusted(m, successes, route);
    OneRouteServes(m, name, limit);
  }

  lemma ReadyStep(m: Metadata, name: string, limit: int, successes: nat, route: Option<string>)
    requires Ready(m, name, limit, successes) && (route == None || route == Some(name))
    ensures Ready(Step(OneRoute(name, limit), m, Attempt(route, true)), name, limit, successes + 1)
    ensures RouteTurn(OneRoute(name, limit), m, Attempt(route, true)).status == DirectSuccess
  {
    var reg := OneRoute(name, limit);
    ReadyServes(m, name, limit, successes, route);
    AttemptTeaches(reg, m, route, true);
    if route.Some? { OutcomeInARow(m, Step(reg, m, Attempt(route, true)), name, true); }
    hide Step, RouteTurn, Trim, Serves, Trusted;
  }

  lemma {:induction false} SuccessesSucceed(m: Metadata, name: string, limit: int, successes: nat, n: nat, route: Option<string>)
    requires Ready(m, name, limit, successes) && (route == None || route == Some(name))
    ensures Ready(Run(OneRoute(name, limit), m, Attempts(route, true, n)), name, limit, successes + n)
    ensures DirectFailures(OneRoute(name, limit), m, Attempts(route, true, n), "probe") == 0
    decreases n
  {
    var reg := OneRoute(name, limit);
    hide *;
    AttemptsUnfold(reg, m, route, true, n);
    if n > 0 {
      ReadyStep(m, name, limit, successes, route);
      SuccessesSucceed(Step(reg, m, Attempt(route, true)), name, limit, successes + 1, n - 1, route);
    }
  }

  lemma AttemptsUnfold(reg: Registry, m: Metadata, route: Option<string>, ok: bool, n: nat)
    ensures n == 0 ==> Run(reg, m, Attempts(route, ok, n)) == m
                       && DirectFailures(reg, m, Attempts(route, ok, n), "probe") == 0
    ensures n > 0 ==>
      var next := Step(reg, m, Attempt(route, ok)); var rest := Attempts(route, ok, n - 1);
      && Run(reg, m, Attempts(route, ok, n)) == Run(reg, next, rest)
      && (RouteTurn(reg, m, Attempt(route, ok)).status != DirectFailed ==>
            DirectFailures(reg, m, Attempts(route, ok, n), "probe") == DirectFailures(reg, next, rest, "probe"))
  {
    hide RouteTurn, Learn, Attempt, Direct;
    if n > 0 { assert Attempts(route, ok, n)[1..] == Attempts(route, ok, n - 1); }
  }

  lemma NewSessionIsReady(name: string, limit: int)
    requires Trim(name) == name ==> limit >= 1
    ensures Ready(NEW_SESSION, name, limit, 0)
  {
    hide Trim;
  }

  // --- the bounds are reached ---

  const PROMOTED := OneRoute("promoted", 2)

  function RouteOf(crystallized: bool): Option<string> {
    if crystallized then Some("promoted") else None
  }

  /** Failures separated by successes, so that no route retires. */
  function Alternating(crystallized: bool, n: nat): seq<Turn> {
    var route := RouteOf(crystallized);
    if n == 0 then [] else [Attempt(route, false), Attempt(route, true)] + Alternating(crystallized, n - 1)
  }

  /** A long history with a full window. */
  ghost predicate Probing(m: Metadata, successes: nat, failures: nat) {
    failures <= 20 && "probe" in m.history && m.history["probe"] == Stats(successes, failures, 20 - failures, failures)
  }

  function ProbeLimit(crystallized: bool): nat {
    if crystallized then 6 else 4
  }

  lemma ProbingIsTrusted(m: Metadata, successes: nat, failures: nat, route: Option<string>)
    requires successes >= 10000 && Probing(m, successes, failures) && failures < ProbeLimit(route.Some?)
    ensures Trusted(m, route)
  {
    QuotientAtLeast(successes as real, (successes + failures) as real, 0.9995);
    assert Share(20 - failures, failures, 1.0) >= (if route.Some? then 0.75 else 0.85);
  }

  /** One attempt on a long history. */
  lemma ProbeStep(m: Metadata, successes: nat, failures: nat, crystallized: bool, ok: bool)
    requires successes >= 10000 && failures < ProbeLimit(crystallized) && Probing(m, successes, failures)
    requires FailuresInARow(m, "promoted") <= 1
    ensures var t := Attempt(RouteOf(crystallized), ok); var after := Step(PROMOTED, m, t);
            && FailsDirectly(RouteTurn(PROMOTED, m, t), "probe") == !ok
            && Probing(after, if ok then successes + 1 else successes, if ok then failures else failures + 1)
            && FailuresInARow(after, "promoted")
               == (if !crystallized then FailuresInARow(m, "promoted")
                   else if ok then 0 else FailuresInARow(m, "promoted") + 1)
  {
    var route := RouteOf(crystallized);
    ShortNamesAreTidy();
    ProbingIsTrusted(m, successes, failures, route);
    OneRouteServes(m, "promoted", 2);
    AttemptTeaches(PROMOTED, m, route, ok);
    if crystallized { OutcomeInARow(m, Step(PROMOTED, m, Attempt(route, ok)), "promoted", ok); }
    hide Step, RouteTurn, Trim, Serves, Trusted;
  }

  lemma {:induction false} AlternatingFails(m: Metadata, successes: nat, failures: nat, n: nat, crystallized: bool)
    requires successes >= 10000 && failures + n == ProbeLimit(crystallized) && Probing(m, successes, failures)
    requires FailuresInARow(m, "promoted") == 0
    ensures DirectFailures(PROMOTED, m, Alternating(crystallized, n), "probe") == n
    decreases n
  {
    var bad, good := Attempt(RouteOf(crystallized), false), Attempt(RouteOf(crystallized), true);
    var next := Step(PROMOTED, m, bad);
    hide Step, RouteTurn, Attempt, Probing, DirectFailures, Alternating, FailuresInARow, FailsDirectly;
    AlternatingUnfolds(m, crystallized, n);
    if n > 0 {
      ProbeStep(m, successes, failures, crystallized, false);
      if n > 1 {
        ProbeStep(next, successes, failures + 1, crystallized, true);
        AlternatingFails(Step(PROMOTED, next, good), successes + 1, failures + 1, n - 1, crystallized);
      } else {
        AlternatingUnfolds(Step(PROMOTED, next, good), crystallized, 0);
      }
    }
  }

  /** A failing attempt and a successful one in front. */
  lemma AlternatingUnfolds(m: Metadata, crystallized: bool, n: nat)
    ensures n == 0 ==> DirectFailures(PROMOTED, m, Alternating(crystallized, n), "probe") == 0
    ensures n > 0 ==>
      var bad, good := Attempt(RouteOf(crystallized), false), Attempt(RouteOf(crystallized), true);
      var next := Step(PROMOTED, m, bad);
      DirectFailures(PROMOTED, m, Alternating(crystallized, n), "probe")
      == (if FailsDirectly(RouteTurn(PROMOTED, m, bad), "probe") then 1 else 0)
         + DirectFailures(PROMOTED, Step(PROMOTED, next, good), Alternating(crystallized, n - 1), "probe")
  {
    var bad, good := Attempt(RouteOf(crystallized), false), Attempt(RouteOf(crystallized), true);
    hide RouteTurn, Learn, Attempt, Step, RouteOf, DirectFailures;
    var turns := Alternating(crystallized, n);
    RunUnfolds(PROMOTED, m, turns, "probe");
    if n > 0 {
      var next := Step(PROMOTED, m, bad);
      assert turns[1..] == [good] + Alternating(crystallized, n - 1);
      assert turns[1..][1..] == Alternating(crystallized, n - 1);
      GoodAttemptNeverFails(next, RouteOf(crystallized));
      RunUnfolds(PROMOTED, next, turns[1..], "probe");
    }
  }

  lemma GoodAttemptNeverFails(m: Metadata, route: Option<string>)
    ensures !FailsDirectly(RouteTurn(PROMOTED, m, Attempt(route, true)), "probe")
  {
    hide ValveDecision, Confidence, HistoryConfidence, FirstLiveRoute, Trim;
  }

  lemma {:induction false} RunConcat(reg: Registry, m: Metadata, a: seq<Turn>, b: seq<Turn>, intent: string)
    ensures Run(reg, m, a + b) == Run(reg, Run(reg, m, a), b)
    ensures DirectFailures(reg, m, a + b, intent) ==
            DirectFailures(reg, m, a, intent) + DirectFailures(reg, Run(reg, m, a), b, intent)
    decreases |a|
  {
    hide RouteTurn, Learn, Step;
    if a == [] {
      assert a + b == b;
    } else {
      assert (a + b)[1..] == a[1..] + b;
      RunConcat(reg, Step(reg, m, a[0]), a[1..], b, intent);
    }
  }

  lemma {:induction false} NoRouteHitsNeverCrystallized(m: Metadata, turns: seq<Turn>)
    requires ValidTurns(turns) && forall i :: 0 <= i < |turns| ==> turns[i].routeHits == {}
    ensures NeverCrystallized(PROMOTED, m, turns, "probe")
    decreases |turns|
  {
    if turns != [] {
      NoRouteHit(m, turns[0]);
      hide RouteTurn, Learn, Step;
      NoRouteHitsNeverCrystallized(Step(PROMOTED, m, turns[0]), turns[1..]);
    }
  }

  lemma NoRouteHit(m: Metadata, t: Turn)
    requires t.routeHits == {} && ValidTurn(t)
    ensures Direct(RouteTurn(PROMOTED, m, t)) ==> RouteTurn(PROMOTED, m, t).source == Some(Declarative)
  {
    assert FirstLiveRoute(PROMOTED.routes, m.routeStates, t.routeHits) == None;
  }

  lemma {:induction false} AttemptsAreValid(route: Option<string>, ok: bool, n: nat)
    ensures |Attempts(route, ok, n)| == n
    ensures forall i :: 0 <= i < n ==> Attempts(route, ok, n)[i] == Attempt(route, ok)
    ensures ValidTurns(Attempts(route, ok, n))
  {
    if n > 0 { AttemptsAreValid(route, ok, n - 1); }
  }

  lemma {:induction false} AlternatingIsValid(crystallized: bool, n: nat)
    ensures forall t :: t in Alternating(crystallized, n) ==>
              ValidTurn(t) && t.routeHits == Attempt(RouteOf(crystallized), true).routeHits
  {
    if n > 0 { AlternatingIsValid(crystallized, n - 1); }
  }

  lemma ReachingIsValid(crystallized: bool, n: nat, k: nat)
    ensures var turns := Attempts(RouteOf(crystallized), true, n) + Alternating(crystallized, k);
            ValidTurns(turns) && (!crystallized ==> forall i :: 0 <= i < |turns| ==> turns[i].routeHits == {})
  {
    AttemptsAreValid(RouteOf(crystallized), true, n);
    AlternatingIsValid(crystallized, k);
    var good, mixed := Attempts(RouteOf(crystallized), true, n), Alternating(crystallized, k);
    forall i | 0 <= i < |good + mixed|
      ensures ValidTurn((good + mixed)[i]) && (!crystallized ==> (good + mixed)[i].routeHits == {})
    {
      if i >= |good| { assert (good + mixed)[i] in mixed; }
    }
  }

  lemma ReadyIsProbing(m: Metadata, name: string, limit: int, successes: nat)
    requires Ready(m, name, limit, successes) && successes >= 20
    ensures Probing(m, successes, 0) && FailuresInARow(m, Trim(name)) == 0
  {
    hide Trim;
  }

  /** Both bounds are tight: sessions with 6 (crystallized) and with 4 (declarative only)
      direct failures of one intent exist. */
  lemma BoundsAreReached(crystallized: bool) returns (turns: seq<Turn>)
    ensures ValidTurns(turns)
    ensures DirectFailures(PROMOTED, NEW_SESSION, turns, "probe") == ProbeLimit(crystallized)
    ensures !crystallized ==> NeverCrystallized(PROMOTED, NEW_SESSION, turns, "probe")
  {
    var route, limit := RouteOf(crystallized), ProbeLimit(crystallized);
    assert route == None || route == Some("promoted");
    assert PROMOTED == OneRoute("promoted", 2);
    hide *;
    var good, mixed := Attempts(route, true, 10000), Alternating(crystallized, limit);
    turns := good + mixed;
    ShortNamesAreTidy();
    ReachingIsValid(crystallized, 10000, limit);
    NewSessionIsReady("promoted", 2);
    SuccessesSucceed(NEW_SESSION, "promoted", 2, 0, 10000, route);
    var m := Run(PROMOTED, NEW_SESSION, good);
    ReadyIsProbing(m, "promoted", 2, 10000);
    AlternatingFails(m, 10000, 0, limit, crystallized);
    RunConcat(PROMOTED, NEW_SESSION, good, mixed, "probe");
    if !crystallized { NoRouteHitsNeverCrystallized(NEW_SESSION, turns); }
  }

  // --- how confident a route may be ---

  lemma EnoughSuccesses(k: real) returns (s: nat)
    requires k < 1.0
    ensures s >= 14 && s as real >= k * (s + 6) as real
  {
    var gap := 1.0 - k;
    var n := (6.0 / gap).Floor + 1;
    assert n as real >= 6.0 / gap;
    Cleared(n as real, gap);
    s := if n > 14 then n else 14;
    Grown(s as real, n as real, gap);
    assert s as real * gap >= 6.0;
    assert k * (s as real + 6.0) == s as real + 6.0 - gap * s as real - 6.0 * gap;
  }

  lemma Cleared(n: real, gap: real)
    requires gap > 0.0 && n >= 6.0 / gap
    ensures n * gap >= 6.0 && n > 0.0
  {
    assert 6.0 / gap * gap == 6.0;
  }

  lemma Grown(s: real, n: real, gap: real)
    requires s >= n && gap > 0.0
    ensures s * gap >= n * gap
  {
  }

  /** Six failures stop a candidate in every history if and only if its raw confidence is at most 80/79;
      beyond that, enough past successes let a seventh attempt through. */
  lemma ModestIsExact(raw: real)
    ensures (forall h :: Gated(h, 6) && h.failure == 6 ==> raw * Blended(h) < SAFETY_VALVE_THRESHOLD)
            <==> raw * 0.79 <= SAFETY_VALVE_THRESHOLD
  {
    if raw * 0.79 <= SAFETY_VALVE_THRESHOLD {
      forall h | Gated(h, 6) && h.failure == 6 ensures raw * Blended(h) < SAFETY_VALVE_THRESHOLD {
        hide Blended;
        BlendedAfterFailures(h, 6);
        Scaled(raw, Blended(h), 0.79);
      }
    } else {
      var k := (SAFETY_VALVE_THRESHOLD / raw - 0.49) / 0.3;
      Below(raw);
      var s := EnoughSuccesses(k);
      var h := Stats(s, 6, 14, 6);
      assert Gated(h, 6);
      QuotientAtLeast(s as real, (s + 6) as real, k);
      assert Blended(h) == 0.49 + 0.3 * (s as real / (s + 6) as real);
      assert Blended(h) >= SAFETY_VALVE_THRESHOLD / raw;
      ScaledUp(SAFETY_VALVE_THRESHOLD / raw, Blended(h), raw);
      assert raw * Blended(h) >= SAFETY_VALVE_THRESHOLD;
    }
  }

  lemma Below(raw: real)
    requires raw * 0.79 > SAFETY_VALVE_THRESHOLD
    ensures raw > 0.0 && (SAFETY_VALVE_THRESHOLD / raw - 0.49) / 0.3 < 1.0
    ensures SAFETY_VALVE_THRESHOLD / raw * raw == SAFETY_VALVE_THRESHOLD
  {
    assert raw > 1.0;
    assert SAFETY_VALVE_THRESHOLD / raw < 0.79 by { QuotientBelow(SAFETY_VALVE_THRESHOLD, raw, 0.79); }
  }

  lemma QuotientBelow(x: real, y: real, k: real)
    requires y > 0.0 && x < k * y
    ensures x / y < k
  {
  }

  // --- names that stripping changes ---

  /** A registry of one intent and no route. */
  function Solo(name: string): Registry {
    Registry([], [Intent(name, false)])
  }

  function FailingTurn(name: string): Turn {
    Turn(false, {}, {name}, Facts(0, 0, 0, 0, 0, false), false, RouteResult(NotRouted, "", None))
  }

  function FailingTurns(name: string, n: nat): seq<Turn> {
    if n == 0 then [] else [FailingTurn(name)] + FailingTurns(name, n - 1)
  }

  lemma UntidyTurnFails(m: Metadata, name: string)
    requires Trim(name) != name && name !in m.history
    ensures var r := RouteTurn(Solo(name), m, FailingTurn(name));
            Direct(r) && r.intent == name && r.status == DirectFailed
    ensures name !in Step(Solo(name), m, FailingTurn(name)).history
  {
    hide Trim;
    assert Matched(Solo(name).intents, {name}) == [Intent(name, false)];
    assert FirstLiveRoute([], m.routeStates, {}) == None;
  }

  /** The history is kept under the stripped name and looked up under the other one, so nothing stops
      the intent: any number of direct failures is possible. */
  lemma {:induction false} UntidyNameNeverStops(m: Metadata, name: string, n: nat)
    requires Trim(name) != name && name !in m.history
    ensures ValidTurns(FailingTurns(name, n))
    ensures DirectFailures(Solo(name), m, FailingTurns(name, n), name) == n
    decreases n
  {
    if n > 0 {
      UntidyTurnFails(m, name);
      UntidyNameNeverStops(Step(Solo(name), m, FailingTurn(name)), name, n - 1);
      hide RouteTurn, Learn, Trim, Direct;
      assert FailingTurns(name, n)[1..] == FailingTurns(name, n - 1);
    }
  }

  /** The bound of 6 holds for a name in every registry of modest routes and every session if and only if
      stripping leaves the name alone. */
  lemma BoundHoldsIffTidy(intent: string)
    ensures (forall reg, turns :: ModestRoutes(reg) && ValidTurns(turns) ==>
               DirectFailures(reg, NEW_SESSION, turns, intent) <= 6)
            <==> Trim(intent) == intent
  {
    if Trim(intent) == intent {
      hide *;
      forall reg, turns | ModestRoutes(reg) && ValidTurns(turns)
        ensures DirectFailures(reg, NEW_SESSION, turns, intent) <= 6
      {
        FailuresBounded(reg, turns, intent);
      }
    } else {
      assert ModestRoutes(Solo(intent));
      hide *;
      UntidyNameNeverStops(NEW_SESSION, intent, 7);
    }
  }

  // --- limits ---

  /** Failures in a row of a long-trusted route whose name stripping changes, so that it is never retired. */
  ghost predicate Piling(m: Metadata, name: string, failures: nat) {
    Probing(m, 10000, failures) && name !in m.routeStates && FailuresInARow(m, Trim(name)) == failures
  }

  lemma PilingStep(m: Metadata, name: string, limit: int, failures: nat)
    requires Trim(name) != name && Trim(name) != "" && failures < 6 && Piling(m, name, failures)
    ensures Piling(Step(OneRoute(name, limit), m, Attempt(Some(name), false)), name, failures + 1)
  {
    var reg := OneRoute(name, limit);
    ProbingIsTrusted(m, 10000, failures, Some(name));
    OneRouteServes(m, name, limit);
    AttemptTeaches(reg, m, Some(name), false);
    OutcomeInARow(m, Step(reg, m, Attempt(Some(name), false)), name, false);
    hide Step, RouteTurn, Trim, Serves, Trusted;
  }

  lemma {:induction false} FailuresPileUp(m: Metadata, name: string, limit: int, failures: nat, n: nat)
    requires Trim(name) != name && Trim(name) != "" && failures + n == 6 && Piling(m, name, failures)
    ensures Piling(Run(OneRoute(name, limit), m, Attempts(Some(name), false, n)), name, 6)
    decreases n
  {
    var reg := OneRoute(name, limit);
    hide *;
    AttemptsUnfold(reg, m, Some(name), false, n);
    if n > 0 {
      PilingStep(m, name, limit, failures);
      FailuresPileUp(Step(reg, m, Attempt(Some(name), false)), name, limit, failures + 1, n - 1);
    }
  }

  /** State is recorded under the stripped name and looked up under the name as it is: a route whose name
      stripping changes never retires, whatever its limit, and reaches six failures in a row. */
  lemma UntidyRouteNeverRetires(name: string, limit: int) returns (turns: seq<Turn>)
    requires Trim(name) != name && Trim(name) != ""
    ensures ValidTurns(turns)
    ensures var m := Run(OneRoute(name, limit), NEW_SESSION, turns);
            FailuresInARow(m, Trim(name)) == 6 && !Retired(OneRoute(name, limit).routes[0], m.routeStates)
  {
    var reg := OneRoute(name, limit);
    hide Run, Trim, Attempts, Ready, Probing, FailuresInARow;
    var good, bad := Attempts(Some(name), true, 10000), Attempts(Some(name), false, 6);
    turns := good + bad;
    AttemptsAreValid(Some(name), true, 10000);
    AttemptsAreValid(Some(name), false, 6);
    NewSessionIsReady(name, limit);
    SuccessesSucceed(NEW_SESSION, name, limit, 0, 10000, Some(name));
    var m := Run(reg, NEW_SESSION, good);
    ReadyIsProbing(m, name, limit, 10000);
    UntidyIsUnrecorded(m, name, limit, 10000);
    FailuresPileUp(m, name, limit, 0, 6);
    RunConcat(reg, NEW_SESSION, good, bad, "probe");
  }

  lemma UntidyIsUnrecorded(m: Metadata, name: string, limit: int, successes: nat)
    requires Ready(m, name, limit, successes) && Trim(name) != name
    ensures name !in m.routeStates
  {
    hide Trim;
  }

  /** Such a name: one space around it, and a limit of 1. */
  lemma SpacedNameOverrunsItsLimit() returns (turns: seq<Turn>)
    ensures ValidTurns(turns) && FailuresInARow(Run(OneRoute(" r ", 1), NEW_SESSION, turns), "r") == 6
  {
    assert Trim(" r ") == "r" by {
      assert " r "[1..] == "r ";
      assert "r "[..1] == "r";
    }
    hide *;
    turns := UntidyRouteNeverRetires(" r ", 1);
  }

  /** A first turn always goes through: nothing is recorded yet. */
  lemma FirstFailure(name: string, limit: int)
    requires Trim(name) == name && name != ""
    ensures FailuresInARow(Run(OneRoute(name, limit), NEW_SESSION, [Attempt(Some(name), false)]), name) == 1
  {
    var reg, t := OneRoute(name, limit), Attempt(Some(name), false);
    FlawlessIsTrusted(NEW_SESSION, 0, Some(name));
    assert Serves(reg, NEW_SESSION, Some(name));
    AttemptTeaches(reg, NEW_SESSION, Some(name), false);
    OutcomeInARow(NEW_SESSION, Step(reg, NEW_SESSION, t), name, false);
    assert [t][1..] == [];
    hide Step, RouteTurn, Trim, Serves;
  }

  /** In a registry of one intent a route cannot fail more often than its intent. */
  ghost predicate Within(m: Metadata, name: string) {
    FailuresInARow(m, Trim(name)) <= StatsOf(m, "probe").failure
  }

  lemma OutcomeWithin(m: Metadata, r: RouteResult, name: string)
    requires Direct(r) && r.intent == "probe" && Within(m, name)
    ensures Within(Learn(m, r), name)
  {
    ShortNamesAreTidy();
    hide Trim;
  }

  lemma WithinStep(m: Metadata, name: string, limit: int, t: Turn)
    requires ValidTurn(t) && Within(m, name)
    ensures Within(Step(OneRoute(name, limit), m, t), name)
  {
    var reg := OneRoute(name, limit);
    var r := RouteTurn(reg, m, t);
    if Direct(r) {
      var i := DirectIsRegistered(reg, m, t);
      hide RouteTurn, Within, Direct, Learn;
      OutcomeWithin(m, r, name);
    } else {
      hide RouteTurn, Trim, Direct;
    }
  }

  lemma {:induction false} WithinAlways(m: Metadata, name: string, limit: int, turns: seq<Turn>)
    requires ValidTurns(turns) && Within(m, name)
    ensures Within(Run(OneRoute(name, limit), m, turns), name)
    decreases |turns|
  {
    hide Within, Step;
    if turns != [] {
      WithinStep(m, name, limit, turns[0]);
      WithinAlways(Step(OneRoute(name, limit), m, turns[0]), name, limit, turns[1..]);
    }
  }

  lemma OneRouteIsModest(name: string, limit: int)
    ensures ModestRoutes(OneRoute(name, limit)) && Sole(OneRoute(name, limit), "probe")
  {
    ShortNamesAreTidy();
    hide Trim;
  }

  /** No route of the registry fails more than six times in a row. */
  lemma SixInARow(name: string, limit: int, turns: seq<Turn>)
    requires ValidTurns(turns)
    ensures FailuresInARow(Run(OneRoute(name, limit), NEW_SESSION, turns), Trim(name)) <= 6
  {
    ShortNamesAreTidy();
    OneRouteIsModest(name, limit);
    assert Within(NEW_SESSION, name);
    hide Run, Trim, DirectFailures, Sole, ModestRoutes, OneRoute;
    WithinAlways(NEW_SESSION, name, limit, turns);
    FailuresBounded(OneRoute(name, limit), turns, "probe");
  }

  /** Nothing is recorded under a blank name. */
  lemma BlankStep(m: Metadata, name: string, limit: int, t: Turn)
    requires ValidTurn(t) && Trim(name) == "" && FailuresInARow(m, "") == 0
    ensures FailuresInARow(Step(OneRoute(name, limit), m, t), "") == 0
  {
    hide RouteTurn, Trim, UpdateStats;
  }

  lemma {:induction false} BlankAlways(m: Metadata, name: string, limit: int, turns: seq<Turn>)
    requires ValidTurns(turns) && Trim(name) == "" && FailuresInARow(m, "") == 0
    ensures FailuresInARow(Run(OneRoute(name, limit), m, turns), "") == 0
    decreases |turns|
  {
    hide Step, Trim, FailuresInARow;
    if turns != [] {
      BlankStep(m, name, limit, turns[0]);
      BlankAlways(Step(OneRoute(name, limit), m, turns[0]), name, limit, turns[1..]);
    }
  }

  /** When a route keeps to its limit: retirement works for a name that stripping leaves alone and a limit
      that the first failure does not pass; under a blank name nothing is ever recorded; and the bound on
      its intent's failures covers limits of 6 and more. */
  predicate KeepsToLimit(name: string, limit: int) {
    || (limit >= 1 && Trim(name) == name)
    || (limit >= 0 && Trim(name) == "")
    || limit >= 6
  }

  ghost predicate WithinLimit(name: string, limit: int, turns: seq<Turn>) {
    FailuresInARow(Run(OneRoute(name, limit), NEW_SESSION, turns), Trim(name)) <= limit
  }

  lemma LimitHolds(name: string, limit: int, turns: seq<Turn>)
    requires ValidTurns(turns) && KeepsToLimit(name, limit)
    ensures WithinLimit(name, limit, turns)
  {
    if limit >= 6 {
      hide Run, Trim;
      SixInARow(name, limit, turns);
    } else if Trim(name) == "" {
      hide Run, Trim;
      BlankAlways(NEW_SESSION, name, limit, turns);
    } else {
      hide Run, Trim;
      RetirementIsFinal(OneRoute(name, limit), NEW_SESSION, turns, OneRoute(name, limit).routes[0]);
    }
  }

  lemma LimitFails(name: string, limit: int) returns (turns: seq<Turn>)
    requires !KeepsToLimit(name, limit)
    ensures ValidTurns(turns) && !WithinLimit(name, limit, turns)
  {
    hide Run, Trim;
    if Trim(name) == "" {
      turns := [];
    } else if Trim(name) == name {
      turns := [Attempt(Some(name), false)];
      FirstFailure(name, limit);
    } else {
      turns := UntidyRouteNeverRetires(name, limit);
    }
  }

  /** Exactly when a route keeps to its limit over all sessions. */
  lemma LimitHoldsIff(name: string, limit: int)
    ensures (forall turns :: ValidTurns(turns) ==>
               FailuresInARow(Run(OneRoute(name, limit), NEW_SESSION, turns), Trim(name)) <= limit)
            <==>
            (limit >= 1 && Trim(name) == name) || (limit >= 0 && Trim(name) == "") || limit >= 6
  {
    hide Run, Trim, ValidTurns;
    if KeepsToLimit(name, limit) {
      forall turns | ValidTurns(turns)
        ensures FailuresInARow(Run(OneRoute(name, limit), NEW_SESSION, turns), Trim(name)) <= limit
      {
        LimitHolds(name, limit, turns);
      }
    } else {
      var turns := LimitFails(name, limit);
    }
  }

  // --- twins ---

  lemma TwinStep(m: Metadata, ok: bool)
    requires FailuresInARow(m, "r") <= 4 && Trusted(m, Some("r"))
    ensures var after := Step(TWINS, m, Attempt(Some("r"), ok));
            && FailuresInARow(after, "r") == (if ok then 0 else FailuresInARow(m, "r") + 1)
            && (FailuresInARow(after, "r") > 0 ==> "r" in after.routeStates)
            && StatsOf(after, "probe") == UpdateStats(StatsOf(m, "probe"), ok)
  {
    var t, routes := Attempt(Some("r"), ok), TWINS.routes;
    assert routes[1..][0] == routes[1];
    assert FirstLiveRoute(routes, m.routeStates, t.routeHits)
        == if Retired(routes[0], m.routeStates) then Some(routes[1]) else Some(routes[0]);
    AttemptTeaches(TWINS, m, Some("r"), ok);
    ShortNamesAreTidy();
    OutcomeInARow(m, Step(TWINS, m, t), "r", ok);
    hide Step, Trim, Serves, Trusted, UpdateStats, RouteTurn;
  }

  lemma {:induction false} TwinSuccesses(m: Metadata, successes: nat, n: nat)
    requires Flawless(m, successes) && FailuresInARow(m, "r") == 0
    ensures var after := Run(TWINS, m, Attempts(Some("r"), true, n));
            Flawless(after, successes + n) && FailuresInARow(after, "r") == 0
    decreases n
  {
    hide Trusted, Step, Run, Attempts, Attempt, RouteTurn, DirectFailures;
    AttemptsUnfold(TWINS, m, Some("r"), true, n);
    if n > 0 {
      FlawlessIsTrusted(m, successes, Some("r"));
      TwinStep(m, true);
      TwinSuccesses(Step(TWINS, m, Attempt(Some("r"), true)), successes + 1, n - 1);
    }
  }

  /** A failure after nine successes retires the stricter twin; a success of the laxer one revives it. */
  lemma TwinFailsAndRevives(m: Metadata)
    requires Flawless(m, 9) && FailuresInARow(m, "r") == 0
    ensures var failed := Step(TWINS, m, Attempt(Some("r"), false));
            && Retired(TWINS.routes[0], failed.routeStates)
            && !Retired(TWINS.routes[0], Step(TWINS, failed, Attempt(Some("r"), true)).routeStates)
  {
    var failed := Step(TWINS, m, Attempt(Some("r"), false));
    FlawlessIsTrusted(m, 9, Some("r"));
    hide Trusted, Step, Attempt;
    TwinStep(m, false);
    NineOfTenIsTrusted(failed);
    TwinStep(failed, true);
  }

  lemma NineSuccesses() returns (good: seq<Turn>)
    ensures ValidTurns(good)
    ensures Flawless(Run(TWINS, NEW_SESSION, good), 9) && FailuresInARow(Run(TWINS, NEW_SESSION, good), "r") == 0
  {
    assert Flawless(NEW_SESSION, 0) && FailuresInARow(NEW_SESSION, "r") == 0;
    hide *;
    good := Attempts(Some("r"), true, 9);
    AttemptsAreValid(Some("r"), true, 9);
    TwinSuccesses(NEW_SESSION, 0, 9);
  }

  lemma OneMore(reg: Registry, m: Metadata, turns: seq<Turn>, t: Turn)
    ensures Run(reg, m, turns + [t]) == Step(reg, Run(reg, m, turns), t)
    ensures ValidTurns(turns) && ValidTurn(t) ==> ValidTurns(turns + [t])
  {
    hide Step;
    RunConcat(reg, m, turns, [t], "probe");
    assert [t][1..] == [];
  }

  /** `register` accepts a repeated name, and then retirement is not final. */
  lemma TwinRevives() returns (turns: seq<Turn>)
    ensures ValidTurns(turns)
    ensures var failed := Run(TWINS, NEW_SESSION, turns);
            && Retired(TWINS.routes[0], failed.routeStates)
            && !Retired(TWINS.routes[0], Step(TWINS, failed, Attempt(Some("r"), true)).routeStates)
  {
    var good := NineSuccesses();
    var bad := Attempt(Some("r"), false);
    assert ValidTurn(bad);
    hide Run, Step, Attempt, Retired, Flawless, FailuresInARow, ValidTurns;
    TwinFailsAndRevives(Run(TWINS, NEW_SESSION, good));
    OneMore(TWINS, NEW_SESSION, good, bad);
    turns := good + [bad];
  }

  lemma NineOfTenIsTrusted(m: Metadata)
    requires StatsOf(m, "probe") == Stats(9, 1, 9, 1)
    ensures Trusted(m, Some("r"))
  {
    assert "probe" in m.history;
    assert Blended(m.history["probe"]) == 0.9;
  }
}
