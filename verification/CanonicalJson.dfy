/** Canonical JSON: `stableStringify` in the browser sidecar (canonicalization.js) and
    `stable_json_bytes` in the gateway (security_context.py). Both print objects with sorted
    keys; they differ only in how they compare two keys. */
module CanonicalJson {
  import opened JsonText
  import Sorting

  /** JavaScript compares UTF-16 code units, Python compares code points. */
  datatype KeyOrder = CodeUnits | CodePoints

  function Units(c: char): seq<int> {
    var n := c as int;
    if n < 0x10000 then [n] else [0xD800 + (n - 0x10000) / 0x400, 0xDC00 + (n - 0x10000) % 0x400]
  }

  function Encode(o: KeyOrder, s: string): seq<int> {
    if s == "" then []
    else (if o == CodeUnits then Units(s[0]) else [s[0] as int]) + Encode(o, s[1..])
  }

  predicate LexLe(a: seq<int>, b: seq<int>) {
    a == [] || (b != [] && (a[0] < b[0] || (a[0] == b[0] && LexLe(a[1..], b[1..]))))
  }

  predicate KeyLe(o: KeyOrder, a: string, b: string) {
    LexLe(Encode(o, a), Encode(o, b))
  }

  function KeyOrderOf(o: KeyOrder): (string, string) -> bool {
    (a, b) => KeyLe(o, a, b)
  }

  // --- key orders are total orders ---

  lemma {:induction false} LexTotal(a: seq<int>, b: seq<int>)
    ensures LexLe(a, b) || LexLe(b, a)
    ensures LexLe(a, b) && LexLe(b, a) ==> a == b
  {
    if a != [] && b != [] && a[0] == b[0] {
      LexTotal(a[1..], b[1..]);
      assert a == [a[0]] + a[1..] && b == [b[0]] + b[1..];
    }
  }

  lemma {:induction false} LexTransitive(a: seq<int>, b: seq<int>, c: seq<int>)
    requires LexLe(a, b) && LexLe(b, c)
    ensures LexLe(a, c)
  {
    if a != [] && a[0] == b[0] && b[0] == c[0] { LexTransitive(a[1..], b[1..], c[1..]); }
  }

  lemma EncodeTail(o: KeyOrder, s: string)
    requires s != ""
    ensures Encode(o, s) != []
    ensures o == CodePoints || s[0] as int < 0x10000 ==> Encode(o, s)[0] == s[0] as int && Encode(o, s)[1..] == Encode(o, s[1..])
    ensures !(o == CodePoints || s[0] as int < 0x10000) ==>
      && |Encode(o, s)| >= 2 && 0xD800 <= Encode(o, s)[0] < 0xDC00 && 0xDC00 <= Encode(o, s)[1] < 0xE000
      && s[0] as int == (Encode(o, s)[0] - 0xD800) * 0x400 + (Encode(o, s)[1] - 0xDC00) + 0x10000
      && Encode(o, s)[2..] == Encode(o, s[1..])
  {
  }

  lemma {:induction false} EncodeInjective(o: KeyOrder, a: string, b: string)
    requires Encode(o, a) == Encode(o, b)
    ensures a == b
  {
    if a != "" { EncodeTail(o, a); }
    if b != "" { EncodeTail(o, b); }
    if a != "" && b != "" {
      assert a[0] == b[0] && Encode(o, a[1..]) == Encode(o, b[1..]);
      EncodeInjective(o, a[1..], b[1..]);
      assert a == [a[0]] + a[1..] && b == [b[0]] + b[1..];
    }
  }

  lemma KeysTotallyOrdered(o: KeyOrder)
    ensures Sorting.TotalPreorder(KeyOrderOf(o)) && Sorting.Antisymmetric(KeyOrderOf(o))
  {
    var le := KeyOrderOf(o);
    forall a, b ensures (le(a, b) || le(b, a)) && (le(a, b) && le(b, a) ==> a == b) {
      LexTotal(Encode(o, a), Encode(o, b));
      if Encode(o, a) == Encode(o, b) { EncodeInjective(o, a, b); }
    }
    forall a, b, c | le(a, b) && le(b, c) ensures le(a, c) {
      LexTransitive(Encode(o, a), Encode(o, b), Encode(o, c));
    }
  }

  /** Python's order of keys: the one that is a prefix comes first, else the one with the smaller code point at
      the first difference. */
  lemma {:induction false} KeyOrderMeans(a: string, b: string)
    ensures KeyLe(CodePoints, a, b) <==>
            a <= b || exists i :: 0 <= i < |a| && i < |b| && a[..i] == b[..i] && a[i] < b[i]
  {
    if a != "" { EncodeTail(CodePoints, a); }
    if b != "" { EncodeTail(CodePoints, b); }
    if a != "" && b != "" && a[0] == b[0] {
      var x, y := a[1..], b[1..];
      KeyOrderMeans(x, y);
      assert a == [a[0]] + x && b == [b[0]] + y;
      if i :| 0 <= i < |x| && i < |y| && x[..i] == y[..i] && x[i] < y[i] {
        assert a[..i + 1] == [a[0]] + x[..i] && b[..i + 1] == [b[0]] + y[..i];
      }
      if i :| 0 <= i < |a| && i < |b| && a[..i] == b[..i] && a[i] < b[i] {
        assert i > 0 && x[..i - 1] == a[..i][1..] && y[..i - 1] == b[..i][1..];
      }
    } else if a != "" && b != "" {
      assert a[..0] == b[..0];
    }
  }

  // --- stableStringify ---

  datatype Rendered = Rendered(key: string, text: string)

  function RenderedOrder(o: KeyOrder): (Rendered, Rendered) -> bool {
    (a: Rendered, b: Rendered) => KeyLe(o, a.key, b.key)
  }

  function JoinRendered(parts: seq<Rendered>): string {
    if parts == [] then ""
    else
      var first := Quote(parts[0].key) + ":" + parts[0].text;
      if |parts| == 1 then first else first + "," + JoinRendered(parts[1..])
  }

  function StableStringify(o: KeyOrder, v: Json): string {
    match v
    case Arr(items) => "[" + StableItems(o, items) + "]"
    case Obj(members) => "{" + JoinRendered(Sorting.SortBy(RenderedOrder(o), RenderMembers(o, members))) + "}"
    case _ => Print(v)
  }

  function StableItems(o: KeyOrder, items: seq<Json>): string {
    if items == [] then ""
    else if |items| == 1 then StableStringify(o, items[0])
    else StableStringify(o, items[0]) + "," + StableItems(o, items[1..])
  }

  function RenderMembers(o: KeyOrder, members: seq<Member>): seq<Rendered> {
    if members == [] then []
    else [Rendered(members[0].key, StableStringify(o, members[0].value))] + RenderMembers(o, members[1..])
  }

  // --- the canonical value ---

  function MemberOrder(o: KeyOrder): (Member, Member) -> bool {
    (a: Member, b: Member) => KeyLe(o, a.key, b.key)
  }

  /** The same value with every object's members in key order. */
  function Canon(o: KeyOrder, v: Json): Json {
    match v
    case Arr(items) => Arr(CanonItems(o, items))
    case Obj(members) => Obj(Sorting.SortBy(MemberOrder(o), CanonMembers(o, members)))
    case _ => v
  }

  function CanonItems(o: KeyOrder, items: seq<Json>): (r: seq<Json>)
    ensures |r| == |items| && forall i :: 0 <= i < |items| ==> r[i] == Canon(o, items[i])
  {
    if items == [] then [] else [Canon(o, items[0])] + CanonItems(o, items[1..])
  }

  function CanonMembers(o: KeyOrder, members: seq<Member>): (r: seq<Member>)
    ensures |r| == |members|
    ensures forall i :: 0 <= i < |members| ==> r[i] == Member(members[i].key, Canon(o, members[i].value))
  {
    if members == [] then []
    else [Member(members[0].key, Canon(o, members[0].value))] + CanonMembers(o, members[1..])
  }

  function Render(m: Member): Rendered {
    Rendered(m.key, Print(m.value))
  }

  lemma {:induction false} JoinIsPrint(members: seq<Member>)
    ensures JoinRendered(Sorting.MapSeq(Render, members)) == PrintMembers(members)
  {
    if |members| > 1 {
      JoinIsPrint(members[1..]);
      assert Sorting.MapSeq(Render, members)[1..] == Sorting.MapSeq(Render, members[1..]);
    }
  }

  /** Sorting while printing is printing the canonical value. */
  lemma {:induction false} StringifyPrintsCanon(o: KeyOrder, v: Json)
    ensures StableStringify(o, v) == Print(Canon(o, v))
    decreases v, 0
  {
    match v
    case Arr(items) => ItemsPrintCanon(o, items);
    case Obj(members) =>
      MembersPrintCanon(o, members);
      var canon := CanonMembers(o, members);
      Sorting.SortMaps(MemberOrder(o), Render, RenderedOrder(o), canon);
      JoinIsPrint(Sorting.SortBy(MemberOrder(o), canon));
    case _ =>
  }

  lemma {:induction false} ItemsPrintCanon(o: KeyOrder, items: seq<Json>)
    ensures StableItems(o, items) == PrintItems(CanonItems(o, items))
    decreases items, 1
  {
    if items != [] {
      StringifyPrintsCanon(o, items[0]);
      ItemsPrintCanon(o, items[1..]);
      assert CanonItems(o, items)[1..] == CanonItems(o, items[1..]);
    }
  }

  lemma {:induction false} MembersPrintCanon(o: KeyOrder, members: seq<Member>)
    ensures RenderMembers(o, members) == Sorting.MapSeq(Render, CanonMembers(o, members))
    decreases members, 1
  {
    if members != [] {
      StringifyPrintsCanon(o, members[0].value);
      MembersPrintCanon(o, members[1..]);
      assert CanonMembers(o, members)[1..] == CanonMembers(o, members[1..]);
    }
  }

  /** The printer has an inverse: parsing the canonical text gives the canonical value. */
  lemma CanonicalTextParses(o: KeyOrder, v: Json)
    ensures Parse(StableStringify(o, v)) == Ok(Canon(o, v), "")
  {
    StringifyPrintsCanon(o, v);
    PrintParses(Canon(o, v), "");
    assert StableStringify(o, v) + "" == StableStringify(o, v);
  }

  lemma SameTextSameCanon(o: KeyOrder, v: Json, w: Json)
    ensures StableStringify(o, v) == StableStringify(o, w) <==> Canon(o, v) == Canon(o, w)
  {
    CanonicalTextParses(o, v);
    CanonicalTextParses(o, w);
    StringifyPrintsCanon(o, v);
    StringifyPrintsCanon(o, w);
  }

  // --- what the text determines ---

  ghost predicate DistinctKeys(members: seq<Member>) {
    forall i, j :: 0 <= i < j < |members| ==> members[i].key != members[j].key
  }

  /** No object repeats a key. */
  ghost predicate WellFormed(v: Json) {
    match v
    case Arr(items) => forall i :: 0 <= i < |items| ==> WellFormed(items[i])
    case Obj(members) => DistinctKeys(members) && forall i :: 0 <= i < |members| ==> WellFormed(members[i].value)
    case _ => true
  }

  ghost function KeySet(members: seq<Member>): set<string> {
    set i | 0 <= i < |members| :: members[i].key
  }

  /** The same JSON value, whatever the insertion order of keys. */
  ghost predicate Equivalent(v: Json, w: Json) {
    match v
    case Arr(items) =>
      w.Arr? && |items| == |w.items| && forall i :: 0 <= i < |items| ==> Equivalent(items[i], w.items[i])
    case Obj(members) =>
      && w.Obj? && KeySet(members) == KeySet(w.members)
      && (forall i, j :: 0 <= i < |members| && 0 <= j < |w.members| && members[i].key == w.members[j].key ==>
            Equivalent(members[i].value, w.members[j].value))
    case _ => v == w
  }

  function KeyOf(m: Member): string {
    m.key
  }

  lemma {:induction false} DistinctSameMultiset(s: seq<string>, t: seq<string>)
    requires forall i, j :: 0 <= i < j < |s| ==> s[i] != s[j]
    requires forall i, j :: 0 <= i < j < |t| ==> t[i] != t[j]
    requires forall x :: x in s <==> x in t
    ensures multiset(s) == multiset(t)
  {
    forall x ensures multiset(s)[x] == multiset(t)[x] {
      CountDistinct(s, x);
      CountDistinct(t, x);
    }
  }

  lemma {:induction false} CountDistinct(s: seq<string>, x: string)
    requires forall i, j :: 0 <= i < j < |s| ==> s[i] != s[j]
    ensures multiset(s)[x] == if x in s then 1 else 0
  {
    if s != [] {
      assert s == [s[0]] + s[1..];
      CountDistinct(s[1..], x);
    }
  }

  /** Two member lists with the same distinct keys are sorted into the same key sequence. */
  lemma SameKeysSameOrder(o: KeyOrder, a: seq<Member>, b: seq<Member>)
    requires DistinctKeys(a) && DistinctKeys(b) && KeySet(a) == KeySet(b)
    ensures |Sorting.SortBy(MemberOrder(o), a)| == |Sorting.SortBy(MemberOrder(o), b)|
    ensures forall p :: 0 <= p < |Sorting.SortBy(MemberOrder(o), a)| ==>
      Sorting.SortBy(MemberOrder(o), a)[p].key == Sorting.SortBy(MemberOrder(o), b)[p].key
  {
    var ka, kb := Sorting.MapSeq(KeyOf, a), Sorting.MapSeq(KeyOf, b);
    forall x ensures x in ka <==> x in kb {
      assert x in ka <==> x in KeySet(a) by { KeyListIsKeySet(a, x); }
      assert x in kb <==> x in KeySet(b) by { KeyListIsKeySet(b, x); }
    }
    DistinctSameMultiset(ka, kb);
    KeysTotallyOrdered(o);
    var le := KeyOrderOf(o);
    Sorting.SortPermutes(le, ka);
    Sorting.SortPermutes(le, kb);
    Sorting.SortSorts(le, ka);
    Sorting.SortSorts(le, kb);
    Sorting.SortedUnique(le, Sorting.SortBy(le, ka), Sorting.SortBy(le, kb));
    Sorting.SortMaps(MemberOrder(o), KeyOf, le, a);
    Sorting.SortMaps(MemberOrder(o), KeyOf, le, b);
    var sa, sb := Sorting.SortBy(MemberOrder(o), a), Sorting.SortBy(MemberOrder(o), b);
    assert Sorting.MapSeq(KeyOf, sa) == Sorting.MapSeq(KeyOf, sb);
    forall p | 0 <= p < |sa| ensures sa[p].key == sb[p].key {
      assert Sorting.MapSeq(KeyOf, sa)[p] == KeyOf(sa[p]) && Sorting.MapSeq(KeyOf, sb)[p] == KeyOf(sb[p]);
    }
  }

  lemma KeyListIsKeySet(a: seq<Member>, x: string)
    ensures x in Sorting.MapSeq(KeyOf, a) <==> x in KeySet(a)
  {
    var keys := Sorting.MapSeq(KeyOf, a);
    if x in keys {
      var i :| 0 <= i < |keys| && keys[i] == x;
      assert a[i].key == x;
    }
    if x in KeySet(a) {
      var i :| 0 <= i < |a| && a[i].key == x;
      assert keys[i] == x;
    }
  }

  /** Sorting by key neither loses nor invents a member. */
  lemma SortedMembers(o: KeyOrder, a: seq<Member>)
    ensures |Sorting.SortBy(MemberOrder(o), a)| == |a|
    ensures forall m :: m in Sorting.SortBy(MemberOrder(o), a) <==> m in a
  {
    Sorting.SortPermutes(MemberOrder(o), a);
    forall m ensures m in Sorting.SortBy(MemberOrder(o), a) <==> m in a {
      assert m in Sorting.SortBy(MemberOrder(o), a) <==> m in multiset(Sorting.SortBy(MemberOrder(o), a));
      assert m in a <==> m in multiset(a);
    }
  }

  lemma CanonKeys(o: KeyOrder, a: seq<Member>)
    ensures KeySet(CanonMembers(o, a)) == KeySet(a)
    ensures DistinctKeys(a) ==> DistinctKeys(CanonMembers(o, a))
  {
    var c := CanonMembers(o, a);
    forall i | 0 <= i < |a| ensures c[i].key == a[i].key { }
    forall k ensures k in KeySet(c) <==> k in KeySet(a) {
      if k in KeySet(c) {
        var i :| 0 <= i < |c| && c[i].key == k;
        assert a[i].key == k;
      }
      if k in KeySet(a) {
        var i :| 0 <= i < |a| && a[i].key == k;
        assert c[i].key == k;
      }
    }
  }

  /** Same keys, and the same canonical value under each key: the sorted lists coincide. */
  lemma MatchingMembersSortAlike(o: KeyOrder, a: seq<Member>, b: seq<Member>)
    requires DistinctKeys(a) && DistinctKeys(b) && KeySet(a) == KeySet(b)
    requires forall i, j :: 0 <= i < |a| && 0 <= j < |b| && a[i].key == b[j].key ==> a[i] == b[j]
    ensures Sorting.SortBy(MemberOrder(o), a) == Sorting.SortBy(MemberOrder(o), b)
  {
    SameKeysSameOrder(o, a, b);
    SortedMembers(o, a);
    SortedMembers(o, b);
    var sa, sb := Sorting.SortBy(MemberOrder(o), a), Sorting.SortBy(MemberOrder(o), b);
    forall p | 0 <= p < |sa| ensures sa[p] == sb[p] {
      assert sa[p] in a && sb[p] in b;
      var i :| 0 <= i < |a| && a[i] == sa[p];
      var j :| 0 <= j < |b| && b[j] == sb[p];
    }
  }

  /** The converse: members under the same key are equal when the sorted lists are. */
  lemma SortedAlikeMembersMatch(o: KeyOrder, o': KeyOrder, a: seq<Member>, b: seq<Member>)
    requires Sorting.SortBy(MemberOrder(o), a) == Sorting.SortBy(MemberOrder(o'), b)
    ensures KeySet(a) == KeySet(b)
    ensures DistinctKeys(b) ==>
      forall i, j :: 0 <= i < |a| && 0 <= j < |b| && a[i].key == b[j].key ==> a[i] == b[j]
  {
    SortedMembers(o, a);
    SortedMembers(o', b);
    assert forall m :: m in a <==> m in b;
    forall k ensures k in KeySet(a) <==> k in KeySet(b) {
      if k in KeySet(a) {
        var i :| 0 <= i < |a| && a[i].key == k;
        assert a[i] in b;
      }
      if k in KeySet(b) {
        var i :| 0 <= i < |b| && b[i].key == k;
        assert b[i] in a;
      }
    }
    if DistinctKeys(b) {
      forall i, j | 0 <= i < |a| && 0 <= j < |b| && a[i].key == b[j].key ensures a[i] == b[j] {
        assert a[i] in b;
        var k :| 0 <= k < |b| && b[k] == a[i];
        assert k == j;
      }
    }
  }

  lemma {:induction false} CanonDecidesEquivalence(o: KeyOrder, v: Json, w: Json)
    requires WellFormed(v) && WellFormed(w)
    ensures Canon(o, v) == Canon(o, w) <==> Equivalent(v, w)
    decreases v
  {
    if v.Arr? && w.Arr? {
      forall i | 0 <= i < |v.items| && i < |w.items|
        ensures Canon(o, v.items[i]) == Canon(o, w.items[i]) <==> Equivalent(v.items[i], w.items[i])
      {
        CanonDecidesEquivalence(o, v.items[i], w.items[i]);
      }
      ItemwiseEqual(o, v.items, w.items);
    } else if v.Obj? && w.Obj? {
      var a, b := CanonMembers(o, v.members), CanonMembers(o, w.members);
      forall i, j | 0 <= i < |v.members| && 0 <= j < |w.members|
        ensures Canon(o, v.members[i].value) == Canon(o, w.members[j].value) <==>
                Equivalent(v.members[i].value, w.members[j].value)
      {
        CanonDecidesEquivalence(o, v.members[i].value, w.members[j].value);
      }
      CanonKeys(o, v.members);
      CanonKeys(o, w.members);
      if Equivalent(v, w) { MatchingMembersSortAlike(o, a, b); }
      if Canon(o, v) == Canon(o, w) {
        SortedAlikeMembersMatch(o, o, a, b);
        forall i, j | 0 <= i < |v.members| && 0 <= j < |w.members| && v.members[i].key == w.members[j].key
          ensures Equivalent(v.members[i].value, w.members[j].value)
        {
          assert a[i] == b[j];
        }
      }
    }
  }

  lemma ItemwiseEqual(o: KeyOrder, a: seq<Json>, b: seq<Json>)
    ensures CanonItems(o, a) == CanonItems(o, b) <==>
            |a| == |b| && forall i :: 0 <= i < |a| ==> Canon(o, a[i]) == Canon(o, b[i])
  {
    if CanonItems(o, a) == CanonItems(o, b) {
      forall i | 0 <= i < |a| ensures Canon(o, a[i]) == Canon(o, b[i]) {
        assert CanonItems(o, a)[i] == CanonItems(o, b)[i];
      }
    }
  }

  /** Canonical text is injective and independent of key insertion order: two values have the
      same text exactly when they are the same JSON value. */
  lemma TextDecidesEquivalence(o: KeyOrder, v: Json, w: Json)
    requires WellFormed(v) && WellFormed(w)
    ensures StableStringify(o, v) == StableStringify(o, w) <==> Equivalent(v, w)
  {
    SameTextSameCanon(o, v, w);
    CanonDecidesEquivalence(o, v, w);
  }
}
