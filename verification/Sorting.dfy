/** The library sort every component relies on: a stable sort by a total preorder. */
module Sorting {

  ghost predicate TotalPreorder<T(!new)>(le: (T, T) -> bool) {
    && (forall a, b :: le(a, b) || le(b, a))
    && (forall a, b, c :: le(a, b) && le(b, c) ==> le(a, c))
  }

  ghost predicate SortedBy<T>(le: (T, T) -> bool, s: seq<T>) {
    forall i, j :: 0 <= i < j < |s| ==> le(s[i], s[j])
  }

  function InsertBy<T>(le: (T, T) -> bool, x: T, s: seq<T>): seq<T> {
    if s == [] then [x]
    else if le(x, s[0]) then [x] + s
    else [s[0]] + InsertBy(le, x, s[1..])
  }

  /** Stable: an element is inserted before the equals that follow it in the input. */
  function SortBy<T>(le: (T, T) -> bool, s: seq<T>): seq<T> {
    if s == [] then [] else InsertBy(le, s[0], SortBy(le, s[1..]))
  }

  lemma {:induction false} InsertPermutes<T>(le: (T, T) -> bool, x: T, s: seq<T>)
    ensures multiset(InsertBy(le, x, s)) == multiset{x} + multiset(s)
  {
    if s != [] {
      assert s == [s[0]] + s[1..];
      if !le(x, s[0]) {
        InsertPermutes(le, x, s[1..]);
      }
    }
  }

  lemma {:induction false} SortPermutes<T>(le: (T, T) -> bool, s: seq<T>)
    ensures multiset(SortBy(le, s)) == multiset(s)
    ensures |SortBy(le, s)| == |s|
    ensures forall x :: x in SortBy(le, s) <==> x in s
  {
    if s != [] {
      SortPermutes(le, s[1..]);
      InsertPermutes(le, s[0], SortBy(le, s[1..]));
      assert s == [s[0]] + s[1..];
    }
    SameMembers(SortBy(le, s), s);
  }

  lemma SameMembers<T>(a: seq<T>, b: seq<T>)
    requires multiset(a) == multiset(b)
    ensures |a| == |b| && forall x :: x in a <==> x in b
  {
    assert |multiset(a)| == |a| && |multiset(b)| == |b|;
    forall x ensures x in a <==> x in b {
      assert x in a <==> x in multiset(a);
      assert x in b <==> x in multiset(b);
    }
  }

  lemma {:induction false} InsertSorts<T(!new)>(le: (T, T) -> bool, x: T, s: seq<T>)
    requires TotalPreorder(le) && SortedBy(le, s)
    ensures SortedBy(le, InsertBy(le, x, s))
  {
    if s != [] {
      if le(x, s[0]) {
        forall j | 0 <= j < |s| ensures le(x, s[j]) {
          if j > 0 { assert le(s[0], s[j]); }
        }
      } else {
        var t := InsertBy(le, x, s[1..]);
        assert SortedBy(le, s[1..]);
        InsertSorts(le, x, s[1..]);
        InsertPermutes(le, x, s[1..]);
        forall j | 0 <= j < |t| ensures le(s[0], t[j]) {
          assert t[j] in multiset(t);
          assert t[j] == x || t[j] in s[1..];
        }
      }
    }
  }

  lemma {:induction false} SortSorts<T(!new)>(le: (T, T) -> bool, s: seq<T>)
    requires TotalPreorder(le)
    ensures SortedBy(le, SortBy(le, s))
  {
    if s != [] {
      SortSorts(le, s[1..]);
      InsertSorts(le, s[0], SortBy(le, s[1..]));
    }
  }

  lemma Reflexive<T(!new)>(le: (T, T) -> bool, x: T)
    requires TotalPreorder(le)
    ensures le(x, x)
  {
  }

  lemma LeastFirst<T(!new)>(le: (T, T) -> bool, a: seq<T>, b: seq<T>)
    requires TotalPreorder(le) && SortedBy(le, a) && SortedBy(le, b)
    requires a != [] && b != [] && a[0] in b
    ensures le(b[0], a[0])
  {
    var i :| 0 <= i < |b| && b[i] == a[0];
    assert i == 0 || le(b[0], b[i]);
    Reflexive(le, b[0]);
  }

  lemma TailPermutes<T>(a: seq<T>, b: seq<T>)
    requires a != [] && b != [] && a[0] == b[0] && multiset(a) == multiset(b)
    ensures multiset(a[1..]) == multiset(b[1..])
  {
    assert a == [a[0]] + a[1..] && b == [b[0]] + b[1..];
    assert multiset(a[1..]) == multiset(a) - multiset{a[0]};
    assert multiset(b[1..]) == multiset(b) - multiset{b[0]};
  }

  ghost predicate Antisymmetric<T(!new)>(le: (T, T) -> bool) {
    forall x, y :: le(x, y) && le(y, x) ==> x == y
  }

  /** Under an antisymmetric order a multiset has one sorted arrangement. */
  lemma {:induction false} SortedUnique<T(!new)>(le: (T, T) -> bool, a: seq<T>, b: seq<T>)
    requires Antisymmetric(le) && TotalPreorder(le)
    requires SortedBy(le, a) && SortedBy(le, b) && multiset(a) == multiset(b)
    ensures a == b
  {
    SameMembers(a, b);
    if a != [] {
      assert a[0] in b && b[0] in a;
      LeastFirst(le, a, b);
      LeastFirst(le, b, a);
      TailPermutes(a, b);
      SortedUnique(le, a[1..], b[1..]);
      assert a == [a[0]] + a[1..] && b == [b[0]] + b[1..];
    }
  }

  /** `picked` are the elements of `s` that `keep` keeps, in order; `at` lists their positions. */
  ghost predicate Selects<T>(s: seq<T>, picked: seq<T>, at: seq<nat>, keep: T -> bool) {
    && |picked| == |at|
    && (forall k :: 0 <= k < |at| ==> at[k] < |s| && picked[k] == s[at[k]])
    && (forall j, k :: 0 <= j < k < |at| ==> at[j] < at[k])
    && (forall i :: 0 <= i < |s| ==> (i in at <==> keep(s[i])))
  }

  lemma SelectsNothing<T>(keep: T -> bool)
    ensures Selects([], [], [], keep)
  {
  }

  lemma SelectsLast<T>(s: seq<T>, picked: seq<T>, at: seq<nat>, keep: T -> bool, last: T)
    requires Selects(s, picked, at, keep)
    ensures if keep(last) then Selects(s + [last], picked + [last], at + [|s|], keep)
            else Selects(s + [last], picked, at, keep)
  {
    if keep(last) {
      assert (at + [|s|])[|at|] == |s|;
      forall i | 0 <= i < |s| ensures i in at + [|s|] <==> i in at { }
    }
  }

  /** The elements that rank the same as `e`, in order. */
  function Ties<T>(le: (T, T) -> bool, e: T, s: seq<T>): seq<T> {
    if s == [] then [] else (if le(s[0], e) && le(e, s[0]) then [s[0]] else []) + Ties(le, e, s[1..])
  }

  lemma {:induction false} InsertKeepsTies<T(!new)>(le: (T, T) -> bool, x: T, s: seq<T>, e: T)
    requires TotalPreorder(le)
    ensures Ties(le, e, InsertBy(le, x, s)) == Ties(le, e, [x] + s)
  {
    assert ([x] + s)[1..] == s;
    if s != [] && !le(x, s[0]) {
      InsertKeepsTies(le, x, s[1..], e);
      assert ([x] + s[1..])[1..] == s[1..];
      assert InsertBy(le, x, s)[1..] == InsertBy(le, x, s[1..]);
    }
  }

  /** The sort is stable: what ranks the same stays in its order. */
  lemma {:induction false} SortIsStable<T(!new)>(le: (T, T) -> bool, s: seq<T>, e: T)
    requires TotalPreorder(le)
    ensures Ties(le, e, SortBy(le, s)) == Ties(le, e, s)
  {
    if s != [] {
      var sorted := SortBy(le, s[1..]);
      SortIsStable(le, s[1..], e);
      InsertKeepsTies(le, s[0], sorted, e);
      assert ([s[0]] + sorted)[1..] == sorted;
    }
  }

  function MapSeq<A, B>(f: A -> B, s: seq<A>): (t: seq<B>)
    ensures |t| == |s| && forall i :: 0 <= i < |s| ==> t[i] == f(s[i])
  {
    if s == [] then [] else [f(s[0])] + MapSeq(f, s[1..])
  }

  ghost predicate OrderPreserving<A(!new), B>(le: (A, A) -> bool, f: A -> B, le': (B, B) -> bool) {
    forall x, y :: le(x, y) <==> le'(f(x), f(y))
  }

  lemma {:induction false} InsertMaps<A(!new), B>(le: (A, A) -> bool, f: A -> B, le': (B, B) -> bool, x: A, s: seq<A>)
    requires OrderPreserving(le, f, le')
    ensures MapSeq(f, InsertBy(le, x, s)) == InsertBy(le', f(x), MapSeq(f, s))
  {
    if s != [] {
      var t := InsertBy(le, x, s);
      if le(x, s[0]) {
        assert t[1..] == s;
      } else {
        assert t[1..] == InsertBy(le, x, s[1..]);
        InsertMaps(le, f, le', x, s[1..]);
      }
    }
  }

  /** Sorting commutes with a map that preserves the order both ways. */
  lemma {:induction false} SortMaps<A(!new), B>(le: (A, A) -> bool, f: A -> B, le': (B, B) -> bool, s: seq<A>)
    requires OrderPreserving(le, f, le')
    ensures MapSeq(f, SortBy(le, s)) == SortBy(le', MapSeq(f, s))
  {
    if s != [] {
      SortMaps(le, f, le', s[1..]);
      InsertMaps(le, f, le', s[0], SortBy(le, s[1..]));
      assert MapSeq(f, s)[1..] == MapSeq(f, s[1..]);
    }
  }
}
