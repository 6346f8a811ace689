/** Where the browser sidecar (JavaScript) and the gateway (Python) print the same canonical text: they
    differ in how they compare two keys, and in how far an integer keeps its digits. */
module RuntimeAgreement {
  import opened JsonText
  import opened CanonicalJson
  import Sorting

  // --- the numbers of a JavaScript engine ---

  /** How an engine holds and prints an integer it has read: `number(n)` is what it prints for `n`. */
  datatype Engine = Engine(number: int -> Json)

  const MAX_SAFE_INTEGER := 9007199254740991
  const EXPONENT_FROM := 1000000000000000000000

  /** What ECMAScript promises (sections 6.1.6.1 and 25.5.2 of ECMA-262): safe integers print exactly;
      from 10^21 on numbers print in exponent form, or as null once they overflow to infinity. In
      between a number is rounded, so its digits are up to `number`. */
  ghost predicate EcmaScript(js: Engine) {
    && (forall n :: -MAX_SAFE_INTEGER <= n <= MAX_SAFE_INTEGER ==> js.number(n) == Num(n))
    && (forall n :: n >= EXPONENT_FROM || n <= -EXPONENT_FROM ==> js.number(n).Sci? || js.number(n).Null?)
    && (forall n :: js.number(n).Num? || js.number(n).Sci? || js.number(n).Null?)
  }

  /** The promises can be kept. */
  lemma EnginesExist() returns (js: Engine)
    ensures EcmaScript(js)
  {
    js := Engine(n => if -EXPONENT_FROM < n < EXPONENT_FROM then Num(n) else Null);
  }

  /** A value as the engine holds it. */
  function JsValue(js: Engine, v: Json): Json {
    match v
    case Num(n) => js.number(n)
    case Arr(items) => Arr(JsItems(js, items))
    case Obj(members) => Obj(JsMembers(js, members))
    case _ => v
  }

  function JsItems(js: Engine, items: seq<Json>): (r: seq<Json>)
    ensures |r| == |items| && forall i :: 0 <= i < |items| ==> r[i] == JsValue(js, items[i])
  {
    if items == [] then [] else [JsValue(js, items[0])] + JsItems(js, items[1..])
  }

  function JsMembers(js: Engine, members: seq<Member>): (r: seq<Member>)
    ensures |r| == |members|
    ensures forall i :: 0 <= i < |members| ==> r[i] == Member(members[i].key, JsValue(js, members[i].value))
  {
    if members == [] then []
    else [Member(members[0].key, JsValue(js, members[0].value))] + JsMembers(js, members[1..])
  }

  /** `stableStringify` of a value, in JavaScript. */
  function JsText(js: Engine, v: Json): string {
    StableStringify(CodeUnits, JsValue(js, v))
  }

  /** `stable_json_bytes` of a value, in Python. */
  function PyText(v: Json): string {
    StableStringify(CodePoints, v)
  }

  /** Every number in the value is an integer. */
  ghost predicate Integral(v: Json) {
    match v
    case Sci(_, _) => false
    case Arr(items) => forall i :: 0 <= i < |items| ==> Integral(items[i])
    case Obj(members) => forall i :: 0 <= i < |members| ==> Integral(members[i].value)
    case _ => true
  }

  /** The engine prints every integer of the value digit for digit. */
  ghost predicate Exact(js: Engine, v: Json) {
    match v
    case Num(n) => js.number(n) == v
    case Arr(items) => forall i :: 0 <= i < |items| ==> Exact(js, items[i])
    case Obj(members) => forall i :: 0 <= i < |members| ==> Exact(js, members[i].value)
    case _ => true
  }

  /** Every integer of the value is safe. */
  ghost predicate SafeIntegers(v: Json) {
    match v
    case Num(n) => -MAX_SAFE_INTEGER <= n <= MAX_SAFE_INTEGER
    case Arr(items) => forall i :: 0 <= i < |items| ==> SafeIntegers(items[i])
    case Obj(members) => forall i :: 0 <= i < |members| ==> SafeIntegers(members[i].value)
    case _ => true
  }

  /** Some integer of the value has 22 digits or more. */
  ghost predicate HasHuge(v: Json) {
    match v
    case Num(n) => n >= EXPONENT_FROM || n <= -EXPONENT_FROM
    case Arr(items) => exists i :: 0 <= i < |items| && HasHuge(items[i])
    case Obj(members) => exists i :: 0 <= i < |members| && HasHuge(members[i].value)
    case _ => false
  }

  lemma {:induction false} SafeIsExact(js: Engine, v: Json)
    requires EcmaScript(js) && SafeIntegers(v)
    ensures Exact(js, v)
    decreases v
  {
    match v
    case Arr(items) => forall i | 0 <= i < |items| ensures Exact(js, items[i]) { SafeIsExact(js, items[i]); }
    case Obj(members) =>
      forall i | 0 <= i < |members| ensures Exact(js, members[i].value) { SafeIsExact(js, members[i].value); }
    case _ =>
  }

  lemma {:induction false} HugeIsNotExact(js: Engine, v: Json)
    requires EcmaScript(js) && HasHuge(v)
    ensures !Exact(js, v)
    decreases v
  {
    match v
    case Arr(items) =>
      var i :| 0 <= i < |items| && HasHuge(items[i]);
      HugeIsNotExact(js, items[i]);
    case Obj(members) =>
      var i :| 0 <= i < |members| && HasHuge(members[i].value);
      HugeIsNotExact(js, members[i].value);
    case _ =>
  }

  // --- the order of keys ---

  /** At the first difference one key has a character in U+E000..U+FFFF and the other one
      beyond U+FFFF, which UTF-16 encodes with smaller units. */
  predicate Clash(a: string, b: string) {
    a != "" && b != "" &&
    if a[0] == b[0] then Clash(a[1..], b[1..])
    else (0xE000 <= a[0] as int < 0x10000 <= b[0] as int) || (0xE000 <= b[0] as int < 0x10000 <= a[0] as int)
  }

  lemma {:induction false} OrdersAgreeIff(a: string, b: string)
    ensures (KeyLe(CodeUnits, a, b) <==> KeyLe(CodePoints, a, b)) <==> !Clash(a, b)
  {
    if a != "" { EncodeTail(CodeUnits, a); EncodeTail(CodePoints, a); }
    if b != "" { EncodeTail(CodeUnits, b); EncodeTail(CodePoints, b); }
    if a != "" && b != "" && a[0] == b[0] {
      OrdersAgreeIff(a[1..], b[1..]);
      if a[0] as int >= 0x10000 { SameLead(Encode(CodeUnits, a), Encode(CodeUnits, b)); }
    } else if a != "" && b != "" {
      HeadsDecide(a, b);
    }
  }

  /** Comparing past an equal first unit. */
  lemma SameLead(x: seq<int>, y: seq<int>)
    requires |x| >= 2 && |y| >= 2 && x[0] == y[0]
    ensures x[1] != y[1] ==> (LexLe(x, y) <==> x[1] < y[1])
    ensures x[1] == y[1] ==> (LexLe(x, y) <==> LexLe(x[2..], y[2..]))
  {
    assert LexLe(x, y) <==> LexLe(x[1..], y[1..]);
    assert x[1..][0] == x[1] && y[1..][0] == y[1];
    assert x[1..][1..] == x[2..] && y[1..][1..] == y[2..];
  }

  lemma HeadsDecide(a: string, b: string)
    requires a != "" && b != "" && a[0] != b[0]
    ensures KeyLe(CodePoints, a, b) <==> a[0] < b[0]
    ensures KeyLe(CodeUnits, a, b) <==>
      if (0xE000 <= a[0] as int < 0x10000 <= b[0] as int) || (0xE000 <= b[0] as int < 0x10000 <= a[0] as int)
      then b[0] < a[0] else a[0] < b[0]
  {
    EncodeTail(CodeUnits, a);
    EncodeTail(CodePoints, a);
    EncodeTail(CodeUnits, b);
    EncodeTail(CodePoints, b);
    var x, y := Encode(CodeUnits, a), Encode(CodeUnits, b);
    if a[0] as int >= 0x10000 && b[0] as int >= 0x10000 && x[0] == y[0] {
      SameLead(x, y);
      assert x[1] != y[1];
    }
  }

  ghost predicate NoClash(v: Json) {
    match v
    case Arr(items) => forall i :: 0 <= i < |items| ==> NoClash(items[i])
    case Obj(members) =>
      && (forall i, j :: 0 <= i < |members| && 0 <= j < |members| ==> !Clash(members[i].key, members[j].key))
      && (forall i :: 0 <= i < |members| ==> NoClash(members[i].value))
    case _ => true
  }

  lemma {:induction false} InsertAgrees(m: Member, s: seq<Member>)
    requires forall x :: x in s ==> (KeyLe(CodeUnits, m.key, x.key) <==> KeyLe(CodePoints, m.key, x.key))
    ensures Sorting.InsertBy(MemberOrder(CodeUnits), m, s) == Sorting.InsertBy(MemberOrder(CodePoints), m, s)
  {
    if s != [] { InsertAgrees(m, s[1..]); }
  }

  lemma {:induction false} SortAgrees(s: seq<Member>)
    requires forall i, j :: 0 <= i < |s| && 0 <= j < |s| ==> !Clash(s[i].key, s[j].key)
    ensures Sorting.SortBy(MemberOrder(CodeUnits), s) == Sorting.SortBy(MemberOrder(CodePoints), s)
  {
    if s != [] {
      SortAgrees(s[1..]);
      var t := Sorting.SortBy(MemberOrder(CodeUnits), s[1..]);
      SortedMembers(CodeUnits, s[1..]);
      forall x | x in t ensures KeyLe(CodeUnits, s[0].key, x.key) <==> KeyLe(CodePoints, s[0].key, x.key) {
        assert x in s[1..];
        var j :| 1 <= j < |s| && s[j] == x;
        OrdersAgreeIff(s[0].key, s[j].key);
      }
      InsertAgrees(s[0], t);
    }
  }

  lemma MembersTotallyOrdered(o: KeyOrder)
    ensures Sorting.TotalPreorder(MemberOrder(o))
  {
    KeysTotallyOrdered(o);
    var le := MemberOrder(o);
    forall a: Member, b: Member ensures le(a, b) || le(b, a) {
      assert KeyOrderOf(o)(a.key, b.key) || KeyOrderOf(o)(b.key, a.key);
    }
    forall a: Member, b: Member, c: Member | le(a, b) && le(b, c) ensures le(a, c) {
      assert KeyOrderOf(o)(a.key, b.key) && KeyOrderOf(o)(b.key, c.key);
    }
  }

  /** A list sorted under both orders holds no clashing pair. */
  lemma SortedBothWaysNoClash(s: seq<Member>, i: nat, j: nat)
    requires Sorting.SortedBy(MemberOrder(CodeUnits), s) && Sorting.SortedBy(MemberOrder(CodePoints), s)
    requires i < |s| && j < |s|
    ensures !Clash(s[i].key, s[j].key)
  {
    if i < j {
      assert MemberOrder(CodeUnits)(s[i], s[j]) && MemberOrder(CodePoints)(s[i], s[j]);
      OrdersAgreeIff(s[i].key, s[j].key);
    } else if j < i {
      assert MemberOrder(CodeUnits)(s[j], s[i]) && MemberOrder(CodePoints)(s[j], s[i]);
      OrdersAgreeIff(s[j].key, s[i].key);
      ClashSymmetric(s[i].key, s[j].key);
    } else {
      OrdersAgreeIff(s[i].key, s[i].key);
      LexTotal(Encode(CodeUnits, s[i].key), Encode(CodeUnits, s[i].key));
      LexTotal(Encode(CodePoints, s[i].key), Encode(CodePoints, s[i].key));
    }
  }

  lemma ClashSymmetric(a: string, b: string)
    ensures Clash(a, b) <==> Clash(b, a)
  {
  }

  // --- agreement ---

  ghost predicate SameCanon(js: Engine, v: Json) {
    Canon(CodeUnits, JsValue(js, v)) == Canon(CodePoints, v)
  }

  lemma ItemsAgree(js: Engine, items: seq<Json>)
    ensures SameCanon(js, Arr(items)) <==> forall i :: 0 <= i < |items| ==> SameCanon(js, items[i])
  {
    var x, y := CanonItems(CodeUnits, JsItems(js, items)), CanonItems(CodePoints, items);
    if x == y {
      forall i | 0 <= i < |items| ensures SameCanon(js, items[i]) { assert x[i] == y[i]; }
    }
  }

  lemma MembersAgree(js: Engine, members: seq<Member>)
    requires DistinctKeys(members)
    requires forall i, j :: 0 <= i < |members| && 0 <= j < |members| ==> !Clash(members[i].key, members[j].key)
    requires forall i :: 0 <= i < |members| ==> SameCanon(js, members[i].value)
    ensures SameCanon(js, Obj(members))
  {
    var a, b := CanonMembers(CodeUnits, JsMembers(js, members)), CanonMembers(CodePoints, members);
    forall i | 0 <= i < |members| ensures a[i] == b[i] { assert SameCanon(js, members[i].value); }
    assert a == b;
    SortAgrees(a);
  }

  lemma AgreeingMembers(js: Engine, members: seq<Member>)
    requires DistinctKeys(members) && SameCanon(js, Obj(members))
    ensures forall i, j :: 0 <= i < |members| && 0 <= j < |members| ==> !Clash(members[i].key, members[j].key)
    ensures forall i :: 0 <= i < |members| ==> SameCanon(js, members[i].value)
  {
    var a, b := CanonMembers(CodeUnits, JsMembers(js, members)), CanonMembers(CodePoints, members);
    var s := Sorting.SortBy(MemberOrder(CodeUnits), a);
    CanonKeys(CodePoints, members);
    SortedAlikeMembersMatch(CodeUnits, CodePoints, a, b);
    forall i | 0 <= i < |members| ensures a[i] == b[i] && SameCanon(js, members[i].value) {
      assert a[i].key == b[i].key;
    }
    MembersTotallyOrdered(CodeUnits);
    MembersTotallyOrdered(CodePoints);
    Sorting.SortSorts(MemberOrder(CodeUnits), a);
    Sorting.SortSorts(MemberOrder(CodePoints), b);
    SortedMembers(CodeUnits, a);
    forall i, j | 0 <= i < |members| && 0 <= j < |members| ensures !Clash(members[i].key, members[j].key) {
      assert a[i] in s && a[j] in s;
      var p :| 0 <= p < |s| && s[p] == a[i];
      var q :| 0 <= q < |s| && s[q] == a[j];
      SortedBothWaysNoClash(s, p, q);
    }
  }

  lemma {:induction false} CanonsAgreeIff(js: Engine, v: Json)
    requires EcmaScript(js) && WellFormed(v) && Integral(v)
    ensures SameCanon(js, v) <==> NoClash(v) && Exact(js, v)
    decreases v
  {
    hide SameCanon, EcmaScript;
    match v
    case Arr(items) =>
      forall i | 0 <= i < |items| ensures SameCanon(js, items[i]) <==> NoClash(items[i]) && Exact(js, items[i]) {
        CanonsAgreeIff(js, items[i]);
      }
      ItemsAgree(js, items);
    case Obj(members) =>
      forall i | 0 <= i < |members|
        ensures SameCanon(js, members[i].value) <==> NoClash(members[i].value) && Exact(js, members[i].value)
      {
        CanonsAgreeIff(js, members[i].value);
      }
      if NoClash(v) && Exact(js, v) { MembersAgree(js, members); }
      if SameCanon(js, v) { AgreeingMembers(js, members); }
    case _ => ScalarsAgree(js, v);
  }

  lemma ScalarsAgree(js: Engine, v: Json)
    requires EcmaScript(js) && !v.Arr? && !v.Obj?
    ensures SameCanon(js, v) <==> Exact(js, v)
  {
  }

  /** JavaScript and Python print a value alike if and only if none of its objects holds two clashing
      keys and the engine keeps every integer in it digit for digit. */
  lemma RuntimesAgreeIff(js: Engine, v: Json)
    requires EcmaScript(js) && WellFormed(v) && Integral(v)
    ensures JsText(js, v) == PyText(v) <==> NoClash(v) && Exact(js, v)
  {
    CanonicalTextParses(CodeUnits, JsValue(js, v));
    CanonicalTextParses(CodePoints, v);
    StringifyPrintsCanon(CodeUnits, JsValue(js, v));
    StringifyPrintsCanon(CodePoints, v);
    CanonsAgreeIff(js, v);
  }

  /** For safe integers (up to 2^53 - 1 in size) the keys alone decide, in particular ASCII keys, or any
      keys below U+E000, always agree. */
  lemma SafeValuesAgreeIff(js: Engine, v: Json)
    requires EcmaScript(js) && WellFormed(v) && Integral(v) && SafeIntegers(v)
    ensures JsText(js, v) == PyText(v) <==> NoClash(v)
  {
    SafeIsExact(js, v);
    hide JsText, PyText;
    RuntimesAgreeIff(js, v);
  }

  /** No value with an integer of 22 digits or more is ever printed alike. */
  lemma HugeIntegersDisagree(js: Engine, v: Json)
    requires EcmaScript(js) && WellFormed(v) && Integral(v) && HasHuge(v)
    ensures JsText(js, v) != PyText(v)
  {
    HugeIsNotExact(js, v);
    hide JsText, PyText;
    RuntimesAgreeIff(js, v);
  }

  /** What JavaScript printed parses to the value it holds, in key order. */
  lemma JsTextParses(js: Engine, v: Json)
    ensures Parse(JsText(js, v)) == Ok(Canon(CodeUnits, JsValue(js, v)), "")
  {
    CanonicalTextParses(CodeUnits, JsValue(js, v));
  }

  /** A concrete disagreement on safe values: keys U+FF01 and U+1F600. */
  lemma RuntimesCanDisagree(js: Engine)
    requires EcmaScript(js)
    ensures var v := Obj([Member("\U{FF01}", Null), Member("\U{1F600}", Null)]);
            WellFormed(v) && SafeIntegers(v) && JsText(js, v) != PyText(v)
  {
    var v := Obj([Member("\U{FF01}", Null), Member("\U{1F600}", Null)]);
    assert Clash(v.members[0].key, v.members[1].key);
    hide JsText, PyText;
    SafeValuesAgreeIff(js, v);
  }
}
