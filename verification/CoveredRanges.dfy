/** The interval-merge kernel of the Safety Valve (intent_router_declarative.py):
    how many character positions do the captured parameter spans cover? */
module CoveredRanges {
  import Sorting

  /** A half-open span `[start, end)`; spans may be empty or inverted. */
  type Range = (int, int)

  function Max(a: int, b: int): int {
    if a < b then b else a
  }

  predicate Within(p: int, r: Range) {
    r.0 <= p < r.1
  }

  function Interval(r: Range): set<int> {
    set p | r.0 <= p < r.1 && Within(p, r)
  }

  /** The reference meaning: the union of all spans as a set of positions. */
  function Positions(ranges: seq<Range>): set<int> {
    if ranges == [] then {} else Interval(ranges[0]) + Positions(ranges[1..])
  }

  lemma {:induction false} PositionsMembership(ranges: seq<Range>, p: int)
    ensures p in Positions(ranges) <==> exists r :: r in ranges && Within(p, r)
  {
    if ranges != [] {
      PositionsMembership(ranges[1..], p);
      assert ranges == [ranges[0]] + ranges[1..];
    }
  }

  lemma {:induction false} PositionsConcat(a: seq<Range>, b: seq<Range>)
    ensures Positions(a + b) == Positions(a) + Positions(b)
  {
    if a == [] {
      assert a + b == b;
    } else {
      PositionsConcat(a[1..], b);
      assert (a + b)[1..] == a[1..] + b;
    }
  }

  /** Order and repetition of the spans do not matter. */
  lemma PositionsDependOnMembers(a: seq<Range>, b: seq<Range>)
    requires forall r :: r in a <==> r in b
    ensures Positions(a) == Positions(b)
  {
    forall p ensures p in Positions(a) <==> p in Positions(b) {
      PositionsMembership(a, p);
      PositionsMembership(b, p);
    }
  }

  /** `sorted(ranges)`: lexicographic order on pairs. */
  predicate Before(a: Range, b: Range) {
    a.0 < b.0 || (a.0 == b.0 && a.1 <= b.1)
  }

  // --- the merged list ---

  /** Non-empty spans, in order, with a gap before each next one. */
  ghost predicate Separated(m: seq<Range>) {
    && (forall i :: 0 <= i < |m| ==> m[i].0 < m[i].1)
    && (forall i, j :: 0 <= i < j < |m| ==> m[i].1 < m[j].0)
  }

  function TotalLength(m: seq<Range>): int {
    if m == [] then 0 else TotalLength(m[..|m| - 1]) + (m[|m| - 1].1 - m[|m| - 1].0)
  }

  lemma {:induction false} IntervalSize(r: Range)
    requires r.0 <= r.1
    ensures |Interval(r)| == r.1 - r.0
    decreases r.1 - r.0
  {
    if r.0 < r.1 {
      IntervalSize((r.0, r.1 - 1));
      assert Interval(r) == Interval((r.0, r.1 - 1)) + {r.1 - 1};
    }
  }

  lemma PositionsAppend(m: seq<Range>, r: Range)
    ensures Positions(m + [r]) == Positions(m) + Interval(r)
  {
    PositionsConcat(m, [r]);
    assert Positions([r]) == Interval(r) + Positions([][..]);
  }

  lemma EarlierSpansDisjoint(m: seq<Range>, last: Range)
    requires Separated(m + [last])
    ensures Positions(m) !! Interval(last)
  {
    forall p | p in Positions(m) ensures p !in Interval(last) {
      PositionsMembership(m, p);
      var r :| r in m && Within(p, r);
      var i :| 0 <= i < |m| && m[i] == r;
      assert (m + [last])[i].1 < (m + [last])[|m|].0;
    }
  }

  lemma DisjointSizes(a: set<int>, b: set<int>)
    requires a !! b
    ensures |a + b| == |a| + |b|
  {
  }

  lemma SplitSeparated(init: seq<Range>, last: Range)
    requires Separated(init + [last])
    ensures Separated(init) && last.0 < last.1
    ensures TotalLength(init + [last]) == TotalLength(init) + (last.1 - last.0)
  {
    var m := init + [last];
    assert m[..|m| - 1] == init && m[|m| - 1] == last;
    forall i | 0 <= i < |init| ensures m[i] == init[i] { }
  }

  lemma {:induction false} SeparatedSize(m: seq<Range>)
    requires Separated(m)
    ensures TotalLength(m) == |Positions(m)|
  {
    if m == [] {
    } else {
      hide *;
      var init, last := m[..|m| - 1], m[|m| - 1];
      assert m == init + [last];
      SplitSeparated(init, last);
      SeparatedSize(init);
      PositionsAppend(init, last);
      IntervalSize(last);
      EarlierSpansDisjoint(init, last);
      DisjointSizes(Positions(init), Interval(last));
    }
  }

  /** Absorbing a span that starts inside (or right at the end of) the last one. */
  lemma MergeLast(m: seq<Range>, r: Range)
    requires m != []
    requires m[|m| - 1].0 <= r.0 <= m[|m| - 1].1
    ensures Positions(m[|m| - 1 := (m[|m| - 1].0, Max(m[|m| - 1].1, r.1))]) == Positions(m) + Interval(r)
  {
    var init, last := m[..|m| - 1], m[|m| - 1];
    var wide := (last.0, Max(last.1, r.1));
    assert m == init + [last];
    assert m[|m| - 1 := wide] == init + [wide];
    PositionsAppend(init, last);
    PositionsAppend(init, wide);
    assert Interval(wide) == Interval(last) + Interval(r);
  }

  /** One round of the merge loop keeps the list separated and adds exactly the span. */
  lemma AppendKeepsSeparated(m: seq<Range>, r: Range)
    requires Separated(m) && r.0 < r.1 && (m == [] || r.0 > m[|m| - 1].1)
    ensures Separated(m + [r])
  {
  }

  lemma WidenKeepsSeparated(m: seq<Range>, r: Range)
    requires Separated(m) && m != [] && m[|m| - 1].0 <= r.0 <= m[|m| - 1].1
    ensures Separated(m[|m| - 1 := (m[|m| - 1].0, Max(m[|m| - 1].1, r.1))])
  {
  }

  lemma SortedStart(ranges: seq<Range>)
    ensures forall i, j :: 0 <= i < j < |Sorting.SortBy(Before, ranges)| ==>
      Sorting.SortBy(Before, ranges)[i].0 <= Sorting.SortBy(Before, ranges)[j].0
    ensures Positions(Sorting.SortBy(Before, ranges)) == Positions(ranges)
  {
    Sorting.SortSorts(Before, ranges);
    Sorting.SortPermutes(Before, ranges);
    var ordered := Sorting.SortBy(Before, ranges);
    forall r ensures r in ordered <==> r in ranges {
      assert r in multiset(ordered) <==> r in multiset(ranges);
    }
    PositionsDependOnMembers(ordered, ranges);
  }

  lemma NothingCovered(r: Range)
    ensures Separated([]) && Positions([]) == {}
    ensures r.1 <= r.0 ==> Interval(r) == {}
  {
  }

  method CountCoveredCharacters(ranges: seq<Range>) returns (count: int)
    ensures count == |Positions(ranges)|
  {
    hide Positions, Separated, Interval, TotalLength, Sorting.SortBy;
    NothingCovered((0, 0));
    var ordered := Sorting.SortBy(Before, ranges);
    SortedStart(ranges);
    var merged: seq<Range> := [];
    for i := 0 to |ordered|
      invariant Separated(merged)
      invariant Positions(merged) == Positions(ordered[..i])
      invariant merged != [] ==> forall k :: i <= k < |ordered| ==> merged[|merged| - 1].0 <= ordered[k].0
    {
      var r := ordered[i];
      assert ordered[..i + 1] == ordered[..i] + [r];
      PositionsAppend(ordered[..i], r);
      if r.1 <= r.0 {
        NothingCovered(r);
      } else if merged == [] || r.0 > merged[|merged| - 1].1 {
        PositionsAppend(merged, r);
        AppendKeepsSeparated(merged, r);
        merged := merged + [r];
      } else {
        MergeLast(merged, r);
        WidenKeepsSeparated(merged, r);
        var last := merged[|merged| - 1];
        merged := merged[|merged| - 1 := (last.0, Max(last.1, r.1))];
      }
    }
    assert ordered[..|ordered|] == ordered;
    SeparatedSize(merged);
    count := SumLengths(merged);
  }

  method SumLengths(merged: seq<Range>) returns (total: int)
    ensures total == TotalLength(merged)
  {
    total := 0;
    for i := 0 to |merged|
      invariant total == TotalLength(merged[..i])
    {
      assert merged[..i + 1][..i] == merged[..i];
      total := total + (merged[i].1 - merged[i].0);
    }
    assert merged[..|merged|] == merged;
  }
}
