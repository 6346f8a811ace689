/** Ternary memory recall (zen_claw/agent/memory_ternary.py) and the budgeted selection that
    follows it (zen_claw/agent/memory.py). Scores are real numbers. */
module MemoryRecall {
  import opened Options
  import opened Text
  import opened Sorting

  type Scored = (real, string)

  datatype Config = Config(reject: real, accept: real, maxUncertain: int, secondaryAccept: Option<real>)

  /** What construction insists on. */
  ghost predicate ValidConfig(c: Config) {
    c.reject < c.accept
  }

  datatype Tier = Reject | Uncertain | Accept

  function Classify(c: Config, score: real): Tier {
    if score >= c.accept then Accept else if score <= c.reject then Reject else Uncertain
  }

  /** `TriternaryRecallStrategy.score` as a tier. */
  function Snap(c: Config, raw: real): Tier {
    if raw >= c.accept then Accept else if raw < c.reject then Reject else Uncertain
  }

  /** The two classifiers differ exactly on the reject threshold itself. */
  lemma ClassifiersAgreeIff(c: Config, score: real)
    requires ValidConfig(c)
    ensures Classify(c, score) == Snap(c, score) <==> score != c.reject
  {
  }

  /** `scores.get(text, 0.0)`. */
  function ScoreOf(scores: map<string, real>, text: string): real {
    if text in scores then scores[text] else 0.0
  }

  function Pairs(scores: map<string, real>, candidates: seq<string>): seq<Scored> {
    if candidates == [] then [] else
      var last := candidates[|candidates| - 1];
      Pairs(scores, candidates[..|candidates| - 1]) + [(ScoreOf(scores, last), last)]
  }

  function OfTier(c: Config, pairs: seq<Scored>, tier: Tier): seq<Scored> {
    if pairs == [] then [] else
      var last := pairs[|pairs| - 1];
      OfTier(c, pairs[..|pairs| - 1], tier) + (if Classify(c, last.0) == tier then [last] else [])
  }

  /** Score descending; the sort is stable. */
  predicate Better(a: Scored, b: Scored) {
    a.0 >= b.0
  }

  lemma BetterIsPreorder()
    ensures TotalPreorder(Better)
  {
  }

  datatype Tiers = Tiers(accepted: seq<Scored>, uncertain: seq<Scored>, rejected: seq<Scored>)

  /** Where the slice `[:n]` of a list of the given length ends. */
  function CutPoint(n: int, length: nat): (k: nat)
    ensures k <= length && (0 <= n < length ==> k == n)
  {
    if n < 0 then (if length + n < 0 then 0 else length + n) else if n > length then length else n
  }

  function Ranked(s: seq<Scored>): (r: seq<Scored>)
    ensures |r| == |s|
  {
    SortPermutes(Better, s);
    SortBy(Better, s)
  }

  function Split(c: Config, pairs: seq<Scored>): Tiers {
    var uncertain := OfTier(c, pairs, Uncertain);
    var k := CutPoint(c.maxUncertain, |uncertain|);
    if |uncertain| <= c.maxUncertain then
      Tiers(OfTier(c, pairs, Accept), uncertain, OfTier(c, pairs, Reject))
    else
      Tiers(OfTier(c, pairs, Accept), Ranked(uncertain)[..k], OfTier(c, pairs, Reject) + Ranked(uncertain)[k..])
  }

  method TernaryScore(c: Config, scores: map<string, real>, candidates: seq<string>) returns (result: Tiers)
    ensures result == Split(c, Pairs(scores, candidates))
  {
    var accepted, uncertain, rejected: seq<Scored> := [], [], [];
    for i := 0 to |candidates|
      invariant accepted == OfTier(c, Pairs(scores, candidates[..i]), Accept)
      invariant uncertain == OfTier(c, Pairs(scores, candidates[..i]), Uncertain)
      invariant rejected == OfTier(c, Pairs(scores, candidates[..i]), Reject)
    {
      assert candidates[..i + 1][..i] == candidates[..i];
      var s := ScoreOf(scores, candidates[i]);
      var pair := (s, candidates[i]);
      PairAppended(c, Pairs(scores, candidates[..i]), pair, Accept);
      PairAppended(c, Pairs(scores, candidates[..i]), pair, Uncertain);
      PairAppended(c, Pairs(scores, candidates[..i]), pair, Reject);
      match Classify(c, s) {
        case Accept => accepted := accepted + [pair];
        case Uncertain => uncertain := uncertain + [pair];
        case Reject => rejected := rejected + [pair];
      }
    }
    assert candidates[..|candidates|] == candidates;
    if |uncertain| > c.maxUncertain {
      uncertain := Ranked(uncertain);
      var overflow := uncertain[CutPoint(c.maxUncertain, |uncertain|)..];
      uncertain := uncertain[..CutPoint(c.maxUncertain, |uncertain|)];
      rejected := rejected + overflow;
    }
    return Tiers(accepted, uncertain, rejected);
  }

  lemma PairAppended(c: Config, pairs: seq<Scored>, pair: Scored, tier: Tier)
    ensures OfTier(c, pairs + [pair], tier) == OfTier(c, pairs, tier) + (if Classify(c, pair.0) == tier then [pair] else [])
  {
    assert (pairs + [pair])[..|pairs|] == pairs;
  }

  // --- the tiers partition the candidates ---

  lemma {:induction false} TiersPartition(c: Config, pairs: seq<Scored>)
    ensures multiset(OfTier(c, pairs, Accept)) + multiset(OfTier(c, pairs, Uncertain)) + multiset(OfTier(c, pairs, Reject))
            == multiset(pairs)
  {
    if pairs != [] {
      var init, last := pairs[..|pairs| - 1], pairs[|pairs| - 1];
      assert pairs == init + [last];
      hide OfTier;
      TiersPartition(c, init);
      PairAppended(c, init, last, Accept);
      PairAppended(c, init, last, Uncertain);
      PairAppended(c, init, last, Reject);
    }
  }

  lemma {:induction false} TierMembers(c: Config, pairs: seq<Scored>, tier: Tier, p: Scored)
    requires p in OfTier(c, pairs, tier)
    ensures p in pairs && Classify(c, p.0) == tier
  {
    var init := pairs[..|pairs| - 1];
    if p in OfTier(c, init, tier) { TierMembers(c, init, tier, p); }
  }

  lemma CutPartition(s: seq<Scored>, n: nat)
    requires n <= |s|
    ensures multiset(s[..n]) + multiset(s[n..]) == multiset(s)
    ensures forall p :: p in s[..n] || p in s[n..] ==> p in s
  {
    assert s == s[..n] + s[n..];
  }

  predicate InTier(c: Config, score: real, tier: Tier) {
    match tier
    case Accept => score >= c.accept
    case Uncertain => c.reject < score < c.accept
    case Reject => score <= c.reject && score < c.accept
  }

  /** A tier lists the pairs whose score belongs to it, and only those, in their order. */
  lemma {:induction false} TierMeans(c: Config, pairs: seq<Scored>, tier: Tier) returns (at: seq<nat>)
    ensures Selects(pairs, OfTier(c, pairs, tier), at, (p: Scored) => InTier(c, p.0, tier))
    decreases |pairs|
  {
    var keep := (p: Scored) => InTier(c, p.0, tier);
    at := [];
    if pairs == [] {
      SelectsNothing(keep);
    } else {
      var init, last := pairs[..|pairs| - 1], pairs[|pairs| - 1];
      assert Classify(c, last.0) == tier <==> keep(last);
      hide *;
      var sofar := TierMeans(c, init, tier);
      assert init + [last] == pairs;
      PairAppended(c, init, last, tier);
      SelectsLast(init, OfTier(c, init, tier), sofar, keep, last);
      assert OfTier(c, init, tier) + [] == OfTier(c, init, tier);
      at := if keep(last) then sofar + [|init|] else sofar;
    }
  }

  /** Candidates are conserved: the three tiers together hold every scored candidate exactly as
      often as it was given. */
  lemma TiersConserve(c: Config, pairs: seq<Scored>)
    ensures var t := Split(c, pairs);
            multiset(t.accepted) + multiset(t.uncertain) + multiset(t.rejected) == multiset(pairs)
  {
    hide OfTier;
    var uncertain := OfTier(c, pairs, Uncertain);
    TiersPartition(c, pairs);
    SortPermutes(Better, uncertain);
    CutPartition(Ranked(uncertain), CutPoint(c.maxUncertain, |uncertain|));
  }

  /** Accepted candidates reach the accept threshold, uncertain ones lie strictly between the
      thresholds, rejected ones miss the accept threshold; the uncertain tier respects its cap. */
  lemma TiersMeanThresholds(c: Config, pairs: seq<Scored>, p: Scored)
    requires ValidConfig(c)
    ensures p in Split(c, pairs).accepted ==> p in pairs && p.0 >= c.accept
    ensures p in Split(c, pairs).uncertain ==> p in pairs && c.reject < p.0 < c.accept
    ensures p in Split(c, pairs).rejected ==> p in pairs && p.0 < c.accept
    ensures c.maxUncertain >= 0 ==> |Split(c, pairs).uncertain| <= c.maxUncertain
    ensures c.maxUncertain >= 0 && p in Split(c, pairs).rejected && p.0 > c.reject ==>
      |Split(c, pairs).uncertain| == c.maxUncertain
  {
    hide OfTier;
    var uncertain := OfTier(c, pairs, Uncertain);
    SortPermutes(Better, uncertain);
    CutPartition(Ranked(uncertain), CutPoint(c.maxUncertain, |uncertain|));
    if p in OfTier(c, pairs, Accept) { TierMembers(c, pairs, Accept, p); }
    if p in OfTier(c, pairs, Uncertain) { TierMembers(c, pairs, Uncertain, p); }
    if p in OfTier(c, pairs, Reject) { TierMembers(c, pairs, Reject, p); }
  }

  /** How many uncertain candidates are kept: all within the cap, else as many as the cap says, where a
      negative cap counts back from the end as slices do. */
  lemma KeptCount(c: Config, pairs: seq<Scored>)
    ensures var all := |OfTier(c, pairs, Uncertain)|;
            var kept := |Split(c, pairs).uncertain|;
            && (all <= c.maxUncertain ==> kept == all)
            && (0 <= c.maxUncertain < all ==> kept == c.maxUncertain)
            && (c.maxUncertain < 0 ==> kept == 0 || kept == all + c.maxUncertain)
            && (c.maxUncertain < 0 && all + c.maxUncertain >= 0 ==> kept == all + c.maxUncertain)
  {
    hide OfTier;
    var uncertain := OfTier(c, pairs, Uncertain);
    SortPermutes(Better, uncertain);
  }

  /** The rejected tier lists what fell below the reject threshold first, in the order of the candidates,
      and what the cap cut off after it, best first. */
  lemma RejectedInOrder(c: Config, pairs: seq<Scored>, i: nat, j: nat)
    requires ValidConfig(c) && i < j < |Split(c, pairs).rejected|
    ensures var rejected := Split(c, pairs).rejected;
            && (rejected[j].0 <= c.reject ==> rejected[i].0 <= c.reject)
            && (rejected[i].0 > c.reject ==> rejected[i].0 >= rejected[j].0)
  {
    hide *;
    var low := OfTier(c, pairs, Reject);
    var cut := CutOff(c, pairs);
    var rejected := Split(c, pairs).rejected;
    if j < |low| {
      assert rejected[j] == low[j];
    } else {
      assert rejected[j] == cut[j - |low|];
    }
    if i < |low| {
      assert rejected[i] == low[i] && low[i] in low;
      LowIsLow(c, pairs, low[i]);
    } else {
      assert rejected[i] == cut[i - |low|];
    }
  }

  lemma LowIsLow(c: Config, pairs: seq<Scored>, p: Scored)
    requires ValidConfig(c) && p in OfTier(c, pairs, Reject)
    ensures p.0 <= c.reject
  {
    TierMembers(c, pairs, Reject, p);
  }

  /** What the cap cuts off, best first. */
  lemma CutOff(c: Config, pairs: seq<Scored>) returns (cut: seq<Scored>)
    requires ValidConfig(c)
    ensures Split(c, pairs).rejected == OfTier(c, pairs, Reject) + cut
    ensures forall k :: 0 <= k < |cut| ==> cut[k].0 > c.reject
    ensures forall j, k :: 0 <= j < k < |cut| ==> cut[j].0 >= cut[k].0
  {
    hide OfTier;
    var uncertain := OfTier(c, pairs, Uncertain);
    var ranked := Ranked(uncertain);
    cut := if |uncertain| <= c.maxUncertain then [] else ranked[CutPoint(c.maxUncertain, |uncertain|)..];
    assert OfTier(c, pairs, Reject) + [] == OfTier(c, pairs, Reject);
    BetterIsPreorder();
    SortSorts(Better, uncertain);
    SortPermutes(Better, uncertain);
    hide SortBy;
    forall k | 0 <= k < |ranked| ensures ranked[k].0 > c.reject {
      assert ranked[k] in multiset(ranked) && ranked[k] in uncertain;
      TierMembers(c, pairs, Uncertain, ranked[k]);
    }
    forall j, k | 0 <= j < k < |ranked| ensures ranked[j].0 >= ranked[k].0 {
      assert Better(ranked[j], ranked[k]);
    }
  }

  /** Every uncertain candidate that is kept scores at least as high as every one cut off. */
  lemma CapKeepsBest(c: Config, pairs: seq<Scored>, kept: Scored, cut: Scored)
    requires kept in Split(c, pairs).uncertain
    requires cut in Split(c, pairs).rejected && cut !in OfTier(c, pairs, Reject)
    ensures kept.0 >= cut.0
  {
    hide OfTier;
    var uncertain := OfTier(c, pairs, Uncertain);
    var ranked, k := Ranked(uncertain), CutPoint(c.maxUncertain, |uncertain|);
    BetterIsPreorder();
    SortSorts(Better, uncertain);
    var i :| 0 <= i < k && ranked[i] == kept;
    assert cut in ranked[k..];
    var j :| 0 <= j < |ranked| - k && ranked[k..][j] == cut;
    assert Better(ranked[i], ranked[k + j]);
  }

  // --- secondary scoring ---

  function Threshold(c: Config): real {
    if c.secondaryAccept.Some? && c.secondaryAccept.value != 0.0 then c.secondaryAccept.value else c.accept
  }

  function MaxReal(a: real, b: real): real {
    if a >= b then a else b
  }

  function Promoted(c: Config, scores: map<string, real>, uncertain: seq<Scored>): seq<Scored> {
    if uncertain == [] then []
    else
      var p := uncertain[|uncertain| - 1];
      Promoted(c, scores, uncertain[..|uncertain| - 1])
        + (if ScoreOf(scores, p.1) >= Threshold(c) then [(MaxReal(p.0, ScoreOf(scores, p.1)), p.1)] else [])
  }

  function Demoted(c: Config, scores: map<string, real>, uncertain: seq<Scored>): seq<Scored> {
    if uncertain == [] then []
    else
      var p := uncertain[|uncertain| - 1];
      Demoted(c, scores, uncertain[..|uncertain| - 1])
        + (if ScoreOf(scores, p.1) >= Threshold(c) then [] else [p])
  }

  method ResolveUncertain(c: Config, scores: map<string, real>, uncertain: seq<Scored>)
    returns (promoted: seq<Scored>, demoted: seq<Scored>)
    ensures promoted == Promoted(c, scores, uncertain) && demoted == Demoted(c, scores, uncertain)
  {
    promoted, demoted := [], [];
    for i := 0 to |uncertain|
      invariant promoted == Promoted(c, scores, uncertain[..i]) && demoted == Demoted(c, scores, uncertain[..i])
    {
      assert uncertain[..i + 1][..i] == uncertain[..i];
      var (primary, text) := uncertain[i];
      var secondary := ScoreOf(scores, text);
      if secondary >= Threshold(c) {
        promoted := promoted + [(MaxReal(primary, secondary), text)];
      } else {
        demoted := demoted + [(primary, text)];
      }
    }
    assert uncertain[..|uncertain|] == uncertain;
  }

  function Texts(s: seq<Scored>): multiset<string> {
    if s == [] then multiset{} else Texts(s[..|s| - 1]) + multiset{s[|s| - 1].1}
  }

  lemma PromotedStep(c: Config, scores: map<string, real>, init: seq<Scored>, p: Scored)
    ensures var s := ScoreOf(scores, p.1);
            && Promoted(c, scores, init + [p])
               == Promoted(c, scores, init) + (if s >= Threshold(c) then [(MaxReal(p.0, s), p.1)] else [])
            && Demoted(c, scores, init + [p]) == Demoted(c, scores, init) + (if s >= Threshold(c) then [] else [p])
  {
    assert (init + [p])[..|init|] == init;
  }

  lemma TextsSnoc(s: seq<Scored>, p: Scored)
    ensures Texts(s + [p]) == Texts(s) + multiset{p.1}
  {
    assert (s + [p])[..|s|] == s;
  }

  /** Resolution conserves texts: each uncertain one is either promoted or demoted. */
  lemma {:induction false} ResolutionConserves(c: Config, scores: map<string, real>, uncertain: seq<Scored>)
    ensures Texts(Promoted(c, scores, uncertain)) + Texts(Demoted(c, scores, uncertain)) == Texts(uncertain)
  {
    if uncertain != [] {
      var init, last := uncertain[..|uncertain| - 1], uncertain[|uncertain| - 1];
      assert uncertain == init + [last];
      hide *;
      ResolutionConserves(c, scores, init);
      PromotedStep(c, scores, init, last);
      var promoted, demoted := Promoted(c, scores, init), Demoted(c, scores, init);
      TextsSnoc(init, last);
      if ScoreOf(scores, last.1) >= Threshold(c) {
        var up := (MaxReal(last.0, ScoreOf(scores, last.1)), last.1);
        TextsSnoc(promoted, up);
        assert Demoted(c, scores, uncertain) == demoted;
      } else {
        TextsSnoc(demoted, last);
        assert Promoted(c, scores, uncertain) == promoted;
      }
    }
  }

  /** The second score of a candidate reaches the second threshold, which an absent or zero one leaves to the
      first; a missing score counts as 0. */
  predicate Passes(c: Config, scores: map<string, real>, p: Scored) {
    var threshold := match c.secondaryAccept case Some(s) => (if s != 0.0 then s else c.accept) case None => c.accept;
    (if p.1 in scores then scores[p.1] else 0.0) >= threshold
  }

  /** A promoted candidate has the better of its two scores. */
  ghost predicate BetterOfTwo(scores: map<string, real>, picked: seq<Scored>, promoted: seq<Scored>) {
    && |promoted| == |picked|
    && forall k :: 0 <= k < |picked| ==>
         var second := if picked[k].1 in scores then scores[picked[k].1] else 0.0;
         promoted[k] == (if picked[k].0 >= second then picked[k].0 else second, picked[k].1)
  }

  lemma BetterOfTwoLast(c: Config, scores: map<string, real>, picked: seq<Scored>, promoted: seq<Scored>, p: Scored)
    requires BetterOfTwo(scores, picked, promoted)
    ensures BetterOfTwo(scores, picked + [p], promoted + [(MaxReal(p.0, ScoreOf(scores, p.1)), p.1)])
  {
  }

  /** Promoted are, in order, the uncertain candidates whose second score reaches the threshold, each with
      the better of its two scores. */
  lemma {:induction false} PromotedMeans(c: Config, scores: map<string, real>, uncertain: seq<Scored>)
    returns (picked: seq<Scored>, at: seq<nat>)
    ensures Selects(uncertain, picked, at, (p: Scored) => Passes(c, scores, p))
    ensures BetterOfTwo(scores, picked, Promoted(c, scores, uncertain))
    decreases |uncertain|
  {
    var keep := (p: Scored) => Passes(c, scores, p);
    picked, at := [], [];
    if uncertain == [] {
      SelectsNothing(keep);
    } else {
      var init, last := uncertain[..|uncertain| - 1], uncertain[|uncertain| - 1];
      assert ScoreOf(scores, last.1) >= Threshold(c) <==> keep(last);
      hide *;
      var before, sofar := PromotedMeans(c, scores, init);
      assert init + [last] == uncertain;
      PromotedStep(c, scores, init, last);
      SelectsLast(init, before, sofar, keep, last);
      BetterOfTwoLast(c, scores, before, Promoted(c, scores, init), last);
      assert Promoted(c, scores, init) + [] == Promoted(c, scores, init);
      picked, at := if keep(last) then before + [last] else before, if keep(last) then sofar + [|init|] else sofar;
    }
  }

  /** The second scorer alone decides, and a promoted text keeps the better of its two scores. */
  lemma {:induction false} PromotedMeaning(c: Config, scores: map<string, real>, uncertain: seq<Scored>, p: Scored)
    ensures p in Promoted(c, scores, uncertain) ==>
      (Passes(c, scores, p)
      && exists q :: q in uncertain && q.1 == p.1 && p.0 == MaxReal(q.0, ScoreOf(scores, q.1)))
    ensures p in Demoted(c, scores, uncertain) <==> p in uncertain && !Passes(c, scores, p)
  {
    if uncertain != [] {
      var init, last := uncertain[..|uncertain| - 1], uncertain[|uncertain| - 1];
      assert uncertain == init + [last];
      hide Promoted, Demoted;
      PromotedMeaning(c, scores, init, p);
      PromotedStep(c, scores, init, last);
      assert last in uncertain && forall q :: q in init ==> q in uncertain;
    }
  }

  // --- the pipeline ---

  function TernaryRecall(c: Config, primary: map<string, real>, secondary: map<string, real>, candidates: seq<string>)
    : seq<Scored>
  {
    var tiers := Split(c, Pairs(primary, candidates));
    SortBy(Better, tiers.accepted + Promoted(c, secondary, tiers.uncertain))
  }

  /** Recall is sorted and holds exactly the accepted and the promoted candidates. */
  lemma RecallIsExact(c: Config, primary: map<string, real>, secondary: map<string, real>, candidates: seq<string>)
    ensures var tiers := Split(c, Pairs(primary, candidates));
            var recall := TernaryRecall(c, primary, secondary, candidates);
            && SortedBy(Better, recall)
            && multiset(recall) == multiset(tiers.accepted) + multiset(Promoted(c, secondary, tiers.uncertain))
  {
    var tiers := Split(c, Pairs(primary, candidates));
    BetterIsPreorder();
    SortSorts(Better, tiers.accepted + Promoted(c, secondary, tiers.uncertain));
    SortPermutes(Better, tiers.accepted + Promoted(c, secondary, tiers.uncertain));
  }

  // --- budgeted selection ---

  /** `" ".join(text.split()).strip().lower()`. */
  function Norm(text: string): string {
    Lower(CollapseSpaces(Trim(text)))
  }

  function TotalChars(selected: seq<string>): nat {
    if selected == [] then 0 else TotalChars(selected[..|selected| - 1]) + |selected[|selected| - 1]|
  }

  function Norms(selected: seq<string>): set<string> {
    set i | 0 <= i < |selected| :: Norm(selected[i])
  }

  /** Whether the greedy pass takes a text on top of what it has. */
  predicate Takes(selected: seq<string>, text: string, maxItems: int, maxChars: int) {
    && |selected| < maxItems && Norm(text) != "" && Norm(text) !in Norms(selected)
    && TotalChars(selected) + |text| <= maxChars
  }

  /** Greedy selection in the given order. */
  function Greedy(ranked: seq<Scored>, maxItems: int, maxChars: int): seq<string> {
    if ranked == [] then []
    else
      var selected := Greedy(ranked[..|ranked| - 1], maxItems, maxChars);
      if Takes(selected, ranked[|ranked| - 1].1, maxItems, maxChars) then selected + [ranked[|ranked| - 1].1] else selected
  }

  method SelectFromScored(scored: seq<Scored>, maxItems: int, maxChars: int) returns (selected: seq<string>)
    ensures selected == Greedy(SortBy(Better, scored), maxItems, maxChars)
  {
    hide Norm, Norms, TotalChars;
    var ranked := SortBy(Better, scored);
    selected := [];
    NothingTaken();
    var seen: set<string>, total := {}, 0;
    for i := 0 to |ranked|
      invariant selected == Greedy(ranked[..i], maxItems, maxChars)
      invariant seen == Norms(selected) && total == TotalChars(selected)
    {
      assert ranked[..i + 1][..i] == ranked[..i];
      if |selected| >= maxItems {
        FullStaysFull(ranked, i, maxItems, maxChars);
        break;
      }
      var text := ranked[i].1;
      var norm := Norm(text);
      if norm == "" || norm in seen || total + |text| > maxChars { continue; }
      NormsAppend(selected, text);
      TotalAppend(selected, text);
      seen := seen + {norm};
      selected := selected + [text];
      total := total + |text|;
    }
    assert ranked[..|ranked|] == ranked;
  }

  lemma NothingTaken()
    ensures Norms([]) == {} && TotalChars([]) == 0
  {
  }

  lemma TotalAppend(selected: seq<string>, text: string)
    ensures TotalChars(selected + [text]) == TotalChars(selected) + |text|
  {
    assert (selected + [text])[..|selected|] == selected;
  }

  lemma NormIn(selected: seq<string>, i: nat)
    requires i < |selected|
    ensures Norm(selected[i]) in Norms(selected)
  {
    hide Norm;
  }

  lemma NormsAppend(selected: seq<string>, text: string)
    ensures Norms(selected + [text]) == Norms(selected) + {Norm(text)}
  {
    hide Norm;
    var s := selected + [text];
    forall i | 0 <= i < |selected| ensures s[i] == selected[i] { }
    assert s[|selected|] == text;
    forall n | n in Norms(selected) ensures n in Norms(s) {
      var i :| 0 <= i < |selected| && Norm(selected[i]) == n;
      assert Norm(s[i]) == n;
    }
  }

  lemma {:induction false} FullStaysFull(ranked: seq<Scored>, i: nat, maxItems: int, maxChars: int)
    requires i <= |ranked| && |Greedy(ranked[..i], maxItems, maxChars)| >= maxItems
    ensures Greedy(ranked, maxItems, maxChars) == Greedy(ranked[..i], maxItems, maxChars)
    decreases |ranked|
  {
    if i < |ranked| {
      assert ranked[..|ranked| - 1][..i] == ranked[..i];
      FullStaysFull(ranked[..|ranked| - 1], i, maxItems, maxChars);
    } else {
      assert ranked[..i] == ranked;
    }
  }

  /** Within both budgets and free of duplicates. */
  ghost predicate WithinBudgets(selected: seq<string>, maxItems: int, maxChars: int) {
    && (|selected| <= maxItems || selected == [])
    && (TotalChars(selected) <= maxChars || selected == [])
    && (forall i :: 0 <= i < |selected| ==> Norm(selected[i]) != "")
    && (forall i, j :: 0 <= i < j < |selected| ==> Norm(selected[i]) != Norm(selected[j]))
  }

  /** Two texts count as the same when they have the same words, whatever their case and spacing; a text
      without words counts as none. */
  lemma NormMeans(a: string, b: string)
    ensures Norm(a) == Norm(b) <==> Words(Lower(a)) == Words(Lower(b))
    ensures Norm(a) != "" <==> Words(a) != []
  {
    NormIsCollapsed(a);
    NormIsCollapsed(b);
    SameWordsIff(Lower(a), Lower(b));
    TrimKeepsWords(a);
    TrimIsTrimmed(a);
    NoWords(Trim(a));
    CollapseKeepsWords(Trim(a));
    LowerShape(CollapseSpaces(Trim(a)));
    hide Words, CollapseSpaces, Trim, Lower;
  }

  lemma NormIsCollapsed(s: string)
    ensures Norm(s) == CollapseSpaces(Trim(Lower(s)))
  {
    LowerTrimCommute(s);
    LowerCollapse(Trim(s));
  }

  lemma {:induction false} LowerCollapse(s: string)
    ensures Lower(CollapseSpaces(s)) == CollapseSpaces(Lower(s))
  {
    if s != "" {
      LowerCollapse(s[1..]);
      LowerSpace(s[0]);
      if |s| > 1 { LowerSpace(s[1]); }
      LowerShape(s);
      assert Lower(s)[1..] == Lower(s[1..]);
      if IsSpace(s[0]) {
        if !(|s| > 1 && IsSpace(s[1])) { assert CollapseSpaces(s)[1..] == CollapseSpaces(s[1..]); }
      } else {
        assert CollapseSpaces(s)[1..] == CollapseSpaces(s[1..]);
      }
    }
  }

  /** When the selection takes a text: both budgets allow it, and it has words that no selected text has. */
  lemma TakesMeans(selected: seq<string>, text: string, maxItems: int, maxChars: int)
    ensures Takes(selected, text, maxItems, maxChars) <==>
            && |selected| < maxItems && TotalChars(selected) + |text| <= maxChars && Words(text) != []
            && forall i :: 0 <= i < |selected| ==> Words(Lower(selected[i])) != Words(Lower(text))
  {
    NormMeans(text, text);
    forall i | 0 <= i < |selected|
      ensures Norm(selected[i]) == Norm(text) <==> Words(Lower(selected[i])) == Words(Lower(text))
    {
      NormMeans(selected[i], text);
    }
    hide Norm, Words, Lower, TotalChars;
  }

  /** The selection, text by text: the next text of the ranking is added exactly when it can be. */
  lemma GreedyNext(ranked: seq<Scored>, next: Scored, maxItems: int, maxChars: int)
    ensures Greedy([], maxItems, maxChars) == []
    ensures var sofar := Greedy(ranked, maxItems, maxChars);
            Greedy(ranked + [next], maxItems, maxChars)
            == if Takes(sofar, next.1, maxItems, maxChars) then sofar + [next.1] else sofar
  {
    assert (ranked + [next])[..|ranked|] == ranked;
  }

  lemma {:induction false} GreedyWithinBudgets(ranked: seq<Scored>, maxItems: int, maxChars: int)
    ensures WithinBudgets(Greedy(ranked, maxItems, maxChars), maxItems, maxChars)
  {
    if ranked != [] {
      var init, last := ranked[..|ranked| - 1], ranked[|ranked| - 1];
      GreedyWithinBudgets(init, maxItems, maxChars);
      var before := Greedy(init, maxItems, maxChars);
      if Takes(before, last.1, maxItems, maxChars) {
        TakingStaysWithin(before, last.1, maxItems, maxChars);
      }
    }
  }

  lemma TakingStaysWithin(before: seq<string>, text: string, maxItems: int, maxChars: int)
    requires WithinBudgets(before, maxItems, maxChars) && Takes(before, text, maxItems, maxChars)
    ensures WithinBudgets(before + [text], maxItems, maxChars)
  {
    hide Norm, Norms, TotalChars;
    var after := before + [text];
    TotalAppend(before, text);
    forall i | 0 <= i < |before| ensures Norm(before[i]) != Norm(text) {
      NormIn(before, i);
    }
    forall i, j | 0 <= i < j < |after| ensures Norm(after[i]) != Norm(after[j]) {
      assert after[i] == before[i];
    }
  }

  lemma TakesOnlyLess(before: seq<string>, added: string, text: string, maxItems: int, maxChars: int)
    requires !Takes(before, text, maxItems, maxChars)
    ensures !Takes(before + [added], text, maxItems, maxChars)
  {
    hide Norm, Norms, TotalChars;
    NormsAppend(before, added);
    TotalAppend(before, added);
  }

  /** The selection is maximal: no text that was left out could still be added. */
  lemma {:induction false} GreedyIsMaximal(ranked: seq<Scored>, maxItems: int, maxChars: int, i: nat)
    requires i < |ranked|
    ensures !Takes(Greedy(ranked, maxItems, maxChars), ranked[i].1, maxItems, maxChars)
    decreases |ranked|
  {
    var init, last := ranked[..|ranked| - 1], ranked[|ranked| - 1];
    var before := Greedy(init, maxItems, maxChars);
    if i < |init| {
      assert init[i] == ranked[i];
      GreedyIsMaximal(init, maxItems, maxChars, i);
      TakesOnlyLess(before, last.1, ranked[i].1, maxItems, maxChars);
    } else {
      NormsAppend(before, last.1);
    }
  }

  /** Nothing is made up. */
  lemma {:induction false} GreedySelects(ranked: seq<Scored>, maxItems: int, maxChars: int, t: string) returns (p: Scored)
    requires t in Greedy(ranked, maxItems, maxChars)
    ensures p in ranked && p.1 == t
  {
    var init, last := ranked[..|ranked| - 1], ranked[|ranked| - 1];
    if t in Greedy(init, maxItems, maxChars) { p := GreedySelects(init, maxItems, maxChars, t); } else { p := last; }
  }

  /** Greedy in rank order: the selection from any prefix of the ranking is kept. */
  lemma {:induction false} GreedyExtends(ranked: seq<Scored>, i: nat, maxItems: int, maxChars: int)
    requires i <= |ranked|
    ensures Greedy(ranked[..i], maxItems, maxChars) <= Greedy(ranked, maxItems, maxChars)
    decreases |ranked|
  {
    if i < |ranked| {
      assert ranked[..|ranked| - 1][..i] == ranked[..i];
      GreedyExtends(ranked[..|ranked| - 1], i, maxItems, maxChars);
    } else {
      assert ranked[..i] == ranked;
    }
  }

  // --- from candidates to the prompt ---

  function Boost(recall: seq<Scored>, recent: set<string>): (r: seq<Scored>)
    ensures |r| == |recall| && forall i :: 0 <= i < |r| ==> r[i].1 == recall[i].1
  {
    MapSeq((p: Scored) => (if p.1 in recent then p.0 + 0.05 else p.0, p.1), recall)
  }

  /** The texts that `get_ternary_memory_context` puts in the prompt. */
  function TernaryContext(c: Config, primary: map<string, real>, secondary: map<string, real>, candidates: seq<string>,
                          recent: set<string>, maxItems: int, maxChars: int): seq<string>
  {
    Greedy(Ranked(Boost(TernaryRecall(c, primary, secondary, candidates), recent)), maxItems, maxChars)
  }

  /** The prompt is the greedy selection from the recalled texts, best first by their score with 0.05 added to
      recent ones; equal scores keep the order of recall. */
  lemma ContextRanking(c: Config, primary: map<string, real>, secondary: map<string, real>, candidates: seq<string>,
                       recent: set<string>, maxItems: int, maxChars: int)
    returns (boosted: seq<Scored>, ranked: seq<Scored>)
    ensures var recall := TernaryRecall(c, primary, secondary, candidates);
            |boosted| == |recall| && forall i :: 0 <= i < |recall| ==>
              boosted[i] == (if recall[i].1 in recent then recall[i].0 + 0.05 else recall[i].0, recall[i].1)
    ensures multiset(ranked) == multiset(boosted) && forall i, j :: 0 <= i < j < |ranked| ==> ranked[i].0 >= ranked[j].0
    ensures forall e :: Ties(Better, e, ranked) == Ties(Better, e, boosted)
    ensures TernaryContext(c, primary, secondary, candidates, recent, maxItems, maxChars) == Greedy(ranked, maxItems, maxChars)
  {
    hide TernaryRecall, Greedy;
    boosted := Boost(TernaryRecall(c, primary, secondary, candidates), recent);
    ranked := Ranked(boosted);
    BetterIsPreorder();
    SortPermutes(Better, boosted);
    SortSorts(Better, boosted);
    forall e ensures Ties(Better, e, ranked) == Ties(Better, e, boosted) { SortIsStable(Better, boosted, e); }
    hide SortBy, Ties;
    forall i, j | 0 <= i < j < |ranked| ensures ranked[i].0 >= ranked[j].0 { assert Better(ranked[i], ranked[j]); }
  }

  lemma {:induction false} PairsMeaning(scores: map<string, real>, candidates: seq<string>, p: Scored)
    requires p in Pairs(scores, candidates)
    ensures p.1 in candidates && p.0 == ScoreOf(scores, p.1)
  {
    var init := candidates[..|candidates| - 1];
    if p in Pairs(scores, init) { PairsMeaning(scores, init, p); }
  }

  lemma RecallMember(c: Config, primary: map<string, real>, secondary: map<string, real>, candidates: seq<string>, p: Scored)
    requires ValidConfig(c) && p in TernaryRecall(c, primary, secondary, candidates)
    ensures p.1 in candidates
    ensures ScoreOf(primary, p.1) >= c.accept
            || (ScoreOf(primary, p.1) > c.reject && Passes(c, secondary, p))
  {
    hide Split, Promoted, Pairs, ScoreOf;
    var pairs := Pairs(primary, candidates);
    var tiers := Split(c, pairs);
    var promoted := Promoted(c, secondary, tiers.uncertain);
    SortPermutes(Better, tiers.accepted + promoted);
    if p in tiers.accepted {
      TiersMeanThresholds(c, pairs, p);
      PairsMeaning(primary, candidates, p);
    } else {
      PromotedMeaning(c, secondary, tiers.uncertain, p);
      var q :| q in tiers.uncertain && q.1 == p.1;
      TiersMeanThresholds(c, pairs, q);
      PairsMeaning(primary, candidates, q);
    }
  }

  /** End to end: every remembered text in the prompt is a candidate that the first scorer accepted,
      or that it did not reject and the second scorer accepted. The recency boost orders, it never
      admits. */
  lemma ContextHoldsOnlyAccepted(c: Config, primary: map<string, real>, secondary: map<string, real>,
                                 candidates: seq<string>, recent: set<string>, maxItems: int, maxChars: int, t: string)
    requires ValidConfig(c) && t in TernaryContext(c, primary, secondary, candidates, recent, maxItems, maxChars)
    ensures t in candidates
    ensures var first := if t in primary then primary[t] else 0.0;
            var second := if t in secondary then secondary[t] else 0.0;
            var threshold := match c.secondaryAccept case Some(s) => (if s != 0.0 then s else c.accept) case None => c.accept;
            first >= c.accept || (first > c.reject && second >= threshold)
  {
    hide TernaryRecall, Greedy;
    var recall := TernaryRecall(c, primary, secondary, candidates);
    var boosted := Boost(recall, recent);
    var p := GreedySelects(Ranked(boosted), maxItems, maxChars, t);
    SortPermutes(Better, boosted);
    var i :| 0 <= i < |boosted| && boosted[i] == p;
    RecallMember(c, primary, secondary, candidates, recall[i]);
  }
}
