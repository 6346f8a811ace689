/** The signed gateway envelope (zen_claw/security_context.py, browser/sidecar/canonicalization.js):
    a JSON object with a request hash in its metadata and a signature, both over the canonical
    text of everything else. */
module GatewayEnvelope {
  import opened Options
  import opened Text
  import opened JsonText
  import opened CanonicalJson

  /** SHA-256 and HMAC as uninterpreted functions on text; `Ideal` is what is assumed of them. */
  datatype Crypto = Crypto(hash: string -> string, sign: string -> string)

  ghost predicate Ideal(c: Crypto) {
    && (forall x, y :: c.hash(x) == c.hash(y) ==> x == y)
    && (forall x, y :: c.sign(x) == c.sign(y) ==> x == y)
    && (forall x :: c.hash(x) != "" && Trimmed(c.hash(x)))
    && (forall x :: c.sign(x) != "" && Trimmed(c.sign(x)))
  }

  // --- dictionaries as member lists ---

  function Get(members: seq<Member>, key: string): Option<Json> {
    if members == [] then None
    else if members[0].key == key then Some(members[0].value)
    else Get(members[1..], key)
  }

  function Remove(members: seq<Member>, key: string): seq<Member> {
    if members == [] then []
    else if members[0].key == key then Remove(members[1..], key)
    else [members[0]] + Remove(members[1..], key)
  }

  /** Assignment to a key: in place when present, else appended. */
  function Put(members: seq<Member>, key: string, value: Json): seq<Member> {
    if members == [] then [Member(key, value)]
    else if members[0].key == key then [Member(key, value)] + members[1..]
    else [members[0]] + Put(members[1..], key, value)
  }

  /** Clear `request_hash` inside the metadata object. */
  function WithoutRequestHash(members: seq<Member>): seq<Member> {
    var meta := Get(members, "gateway_meta");
    if meta.Some? && meta.value.Obj? then
      Put(members, "gateway_meta", Obj(Remove(meta.value.members, "request_hash")))
    else members
  }

  /** `canonical_gateway_envelope`: what is hashed and signed. */
  function CanonicalEnvelope(members: seq<Member>): seq<Member> {
    WithoutRequestHash(Remove(members, "gateway_signature"))
  }

  function CanonicalText(members: seq<Member>): string {
    StableStringify(CodePoints, Obj(CanonicalEnvelope(members)))
  }

  /** `str(value or "")`; the text of a container stands for its Python representation. */
  function TextOf(v: Option<Json>): string {
    match v
    case None => ""
    case Some(Null) => ""
    case Some(Str(s)) => s
    case Some(Bool(b)) => if b then "True" else ""
    case Some(Num(n)) => if n == 0 then "" else Integer(n)
    case Some(Sci(digits, _)) => if digits == 0 then "" else Print(v.value)
    case Some(Arr(items)) => if items == [] then "" else Print(v.value)
    case Some(Obj(members)) => if members == [] then "" else Print(v.value)
  }

  /** `bool(value)`. */
  predicate Truthy(v: Option<Json>) {
    TextOf(v) != ""
  }

  datatype Verdict = Verified | SignatureMissing | RequestHashMissing | RequestHashMismatch | SignatureInvalid
    | MalformedMeta

  /** `verify_gateway_envelope`; metadata that is neither falsy nor an object makes `dict(...)` raise, as
      long as it is not a list of pairs. */
  function Verify(c: Crypto, members: seq<Member>): Verdict {
    var meta := Get(members, "gateway_meta");
    if Truthy(meta) && !meta.value.Obj? then MalformedMeta
    else
      var signature := Trim(TextOf(Get(members, "gateway_signature")));
      var hash := if Truthy(meta) then Trim(TextOf(Get(meta.value.members, "request_hash"))) else "";
      if signature == "" then SignatureMissing
      else if hash == "" then RequestHashMissing
      else if hash != c.hash(CanonicalText(members)) then RequestHashMismatch
      else if signature != c.sign(CanonicalText(members)) then SignatureInvalid
      else Verified
  }

  /** How `issue` finishes an envelope: the request hash first, then the signature. */
  function Seal(c: Crypto, members: seq<Member>): seq<Member>
    requires Get(members, "gateway_meta").Some? && Get(members, "gateway_meta").value.Obj?
  {
    var meta := Get(members, "gateway_meta").value.members;
    var hashed := Put(members, "gateway_meta", Obj(Put(meta, "request_hash", Str(c.hash(CanonicalText(members))))));
    Put(hashed, "gateway_signature", Str(c.sign(CanonicalText(hashed))))
  }

  // --- dictionary laws ---

  lemma {:induction false} GetPut(members: seq<Member>, key: string, value: Json, other: string)
    ensures Get(Put(members, key, value), other) == if other == key then Some(value) else Get(members, other)
  {
    if members != [] && members[0].key != key {
      GetPut(members[1..], key, value, other);
      assert Put(members, key, value)[1..] == Put(members[1..], key, value);
    } else if members != [] {
      assert Put(members, key, value)[1..] == members[1..];
    }
  }

  lemma {:induction false} GetRemove(members: seq<Member>, key: string, other: string)
    ensures Get(Remove(members, key), other) == if other == key then None else Get(members, other)
  {
    if members != [] {
      GetRemove(members[1..], key, other);
      if members[0].key != key { assert Remove(members, key)[1..] == Remove(members[1..], key); }
    }
  }

  lemma {:induction false} RemovePut(members: seq<Member>, key: string, value: Json)
    ensures Remove(Put(members, key, value), key) == Remove(members, key)
  {
    if members != [] && members[0].key != key {
      RemovePut(members[1..], key, value);
      assert Put(members, key, value)[1..] == Put(members[1..], key, value);
    } else if members != [] {
      assert Put(members, key, value)[1..] == members[1..];
    } else {
      assert Put(members, key, value)[1..] == [];
    }
  }

  lemma {:induction false} RemovePutOther(members: seq<Member>, key: string, value: Json, other: string)
    requires other != key
    ensures Remove(Put(members, key, value), other) == Put(Remove(members, other), key, value)
  {
    if members != [] && members[0].key != key {
      RemovePutOther(members[1..], key, value, other);
      assert Put(members, key, value)[1..] == Put(members[1..], key, value);
      if members[0].key != other {
        assert Put(Remove(members, other), key, value)[1..] == Put(Remove(members[1..], other), key, value);
      }
    } else if members != [] {
      assert Put(members, key, value)[1..] == members[1..];
      assert Remove(members, other)[1..] == Remove(members[1..], other);
    } else {
      assert Put(members, key, value)[1..] == [];
    }
  }

  lemma {:induction false} PutPut(members: seq<Member>, key: string, v: Json, w: Json)
    ensures Put(Put(members, key, v), key, w) == Put(members, key, w)
  {
    if members != [] && members[0].key != key {
      PutPut(members[1..], key, v, w);
      assert Put(members, key, v)[1..] == Put(members[1..], key, v);
    } else if members != [] {
      assert Put(members, key, v)[1..] == members[1..];
    }
  }

  /** Writing the request hash and the signature does not change what they cover. */
  lemma SealingKeepsCanonical(members: seq<Member>, hash: Json, signature: Json)
    requires Get(members, "gateway_meta").Some? && Get(members, "gateway_meta").value.Obj?
    ensures var meta := Get(members, "gateway_meta").value.members;
            var hashed := Put(members, "gateway_meta", Obj(Put(meta, "request_hash", hash)));
            && CanonicalEnvelope(hashed) == CanonicalEnvelope(members)
            && CanonicalEnvelope(Put(hashed, "gateway_signature", signature)) == CanonicalEnvelope(members)
  {
    var meta := Get(members, "gateway_meta").value.members;
    var hashed := Put(members, "gateway_meta", Obj(Put(meta, "request_hash", hash)));
    var bare := Remove(members, "gateway_signature");
    hide Put, Get, Remove;
    RemovePutOther(members, "gateway_meta", Obj(Put(meta, "request_hash", hash)), "gateway_signature");
    RemovePut(hashed, "gateway_signature", signature);
    GetRemove(members, "gateway_signature", "gateway_meta");
    GetPut(bare, "gateway_meta", Obj(Put(meta, "request_hash", hash)), "gateway_meta");
    RemovePut(meta, "request_hash", hash);
    PutPut(bare, "gateway_meta", Obj(Put(meta, "request_hash", hash)), Obj(Remove(meta, "request_hash")));
  }

  lemma SameCanonicalSameText(a: seq<Member>, b: seq<Member>)
    requires CanonicalEnvelope(a) == CanonicalEnvelope(b)
    ensures CanonicalText(a) == CanonicalText(b)
  {
  }

  lemma ObjectTruthy(members: seq<Member>, hash: Json)
    ensures Truthy(Some(Obj(Put(members, "request_hash", hash))))
  {
    PrintStarts(Obj(Put(members, "request_hash", hash)));
  }

  lemma VerifiedWhen(c: Crypto, members: seq<Member>, meta: seq<Member>, hash: string, signature: string)
    requires Get(members, "gateway_meta") == Some(Obj(meta)) && Truthy(Some(Obj(meta)))
    requires Get(members, "gateway_signature") == Some(Str(signature)) && Get(meta, "request_hash") == Some(Str(hash))
    requires signature != "" && Trim(signature) == signature && hash != "" && Trim(hash) == hash
    requires hash == c.hash(CanonicalText(members)) && signature == c.sign(CanonicalText(members))
    ensures Verify(c, members) == Verified
  {
    hide Get, Trim, CanonicalText, Truthy;
  }

  /** What a sealed envelope holds under the keys that verification reads. */
  lemma SealedFields(c: Crypto, members: seq<Member>)
    requires Get(members, "gateway_meta").Some? && Get(members, "gateway_meta").value.Obj?
    ensures var sealed := Seal(c, members);
            var hash := c.hash(CanonicalText(members));
            var meta := Put(Get(members, "gateway_meta").value.members, "request_hash", Str(hash));
            && Get(sealed, "gateway_meta") == Some(Obj(meta))
            && Get(meta, "request_hash") == Some(Str(hash))
            && Get(sealed, "gateway_signature") == Some(Str(c.sign(CanonicalText(members))))
            && CanonicalEnvelope(sealed) == CanonicalEnvelope(members)
  {
    var meta := Get(members, "gateway_meta").value.members;
    var hash := c.hash(CanonicalText(members));
    var meta' := Put(meta, "request_hash", Str(hash));
    var hashed := Put(members, "gateway_meta", Obj(meta'));
    SealingKeepsCanonical(members, Str(hash), Str(c.sign(CanonicalText(hashed))));
    SameCanonicalSameText(hashed, members);
    hide Put, Get, CanonicalText, CanonicalEnvelope;
    var signature := c.sign(CanonicalText(hashed));
    GetPut(members, "gateway_meta", Obj(meta'), "gateway_meta");
    GetPut(hashed, "gateway_signature", Str(signature), "gateway_meta");
    GetPut(hashed, "gateway_signature", Str(signature), "gateway_signature");
    GetPut(meta, "request_hash", Str(hash), "request_hash");
  }

  /** Every sealed envelope verifies. */
  lemma SealedVerifies(c: Crypto, members: seq<Member>)
    requires Ideal(c) && Get(members, "gateway_meta").Some? && Get(members, "gateway_meta").value.Obj?
    ensures Verify(c, Seal(c, members)) == Verified
    ensures CanonicalEnvelope(Seal(c, members)) == CanonicalEnvelope(members)
  {
    var hash, signature := c.hash(CanonicalText(members)), c.sign(CanonicalText(members));
    var meta := Get(members, "gateway_meta").value.members;
    SealedFields(c, members);
    SameCanonicalSameText(Seal(c, members), members);
    ObjectTruthy(meta, Str(hash));
    TrimFixesTrimmed(hash);
    TrimFixesTrimmed(signature);
    hide Put, Get, CanonicalText, CanonicalEnvelope, Print, Trim, Trimmed, Truthy, Seal, Verify;
    VerifiedWhen(c, Seal(c, members), Put(meta, "request_hash", Str(hash)), hash, signature);
  }

  /** Two verified envelopes with the same signature are the same JSON value once the signature
      and the request hash are set aside. */
  lemma SameSignatureSameContent(c: Crypto, a: seq<Member>, b: seq<Member>)
    requires Ideal(c) && Verify(c, a) == Verified && Verify(c, b) == Verified
    requires Trim(TextOf(Get(a, "gateway_signature"))) == Trim(TextOf(Get(b, "gateway_signature")))
    requires WellFormed(Obj(CanonicalEnvelope(a))) && WellFormed(Obj(CanonicalEnvelope(b)))
    ensures Equivalent(Obj(CanonicalEnvelope(a)), Obj(CanonicalEnvelope(b)))
  {
    TextDecidesEquivalence(CodePoints, Obj(CanonicalEnvelope(a)), Obj(CanonicalEnvelope(b)));
  }

  /** A verified envelope stays verified under exactly those edits that keep its content: with
      signature and request hash kept, it verifies if and only if the rest is the same value. */
  lemma TamperDetected(c: Crypto, a: seq<Member>, b: seq<Member>)
    requires Ideal(c) && Verify(c, a) == Verified
    requires Get(b, "gateway_signature") == Get(a, "gateway_signature")
    requires Get(b, "gateway_meta").Some? && Get(b, "gateway_meta").value.Obj? && Truthy(Get(b, "gateway_meta"))
    requires Get(Get(b, "gateway_meta").value.members, "request_hash") ==
             Get(Get(a, "gateway_meta").value.members, "request_hash")
    requires WellFormed(Obj(CanonicalEnvelope(a))) && WellFormed(Obj(CanonicalEnvelope(b)))
    ensures Verify(c, b) == Verified <==> Equivalent(Obj(CanonicalEnvelope(a)), Obj(CanonicalEnvelope(b)))
  {
    TextDecidesEquivalence(CodePoints, Obj(CanonicalEnvelope(a)), Obj(CanonicalEnvelope(b)));
  }

  // --- what verification asks for, and what it covers ---

  /** An envelope verifies exactly when its metadata object carries the hash, and the envelope the signature,
      of its own canonical text. */
  lemma VerifiedIff(c: Crypto, members: seq<Member>)
    requires Ideal(c)
    ensures Verify(c, members) == Verified <==>
            && Get(members, "gateway_meta").Some? && Get(members, "gateway_meta").value.Obj?
            && Trim(TextOf(Get(Get(members, "gateway_meta").value.members, "request_hash"))) == c.hash(CanonicalText(members))
            && Trim(TextOf(Get(members, "gateway_signature"))) == c.sign(CanonicalText(members))
  {
    var meta := Get(members, "gateway_meta");
    if meta.Some? && meta.value.Obj? && !Truthy(meta) {
      FalsyObjectIsEmpty(meta.value.members);
      assert TextOf(Get(meta.value.members, "request_hash")) == "" && Trim("") == "";
    }
    hide CanonicalText, Print;
  }

  /** Null, false, zero, the empty text and the empty containers. */
  predicate Falsy(v: Json) {
    match v
    case Null => true
    case Bool(b) => !b
    case Num(n) => n == 0
    case Sci(digits, _) => digits == 0
    case Str(s) => |s| == 0
    case Arr(items) => |items| == 0
    case Obj(members) => |members| == 0
  }

  /** The text of a value: nothing for a missing or falsy one, a text as it is, `True` for true, and for a
      number what parses back to it. */
  lemma TextMeans(v: Option<Json>)
    ensures TextOf(v) == "" <==> v == None || Falsy(v.value)
    ensures v.Some? && v.value.Str? ==> TextOf(v) == v.value.s
    ensures v == Some(Bool(true)) ==> TextOf(v) == "True"
    ensures v.Some? && v.value.Num? && v.value != Num(0) ==> Parse(TextOf(v)) == Ok(v.value, "")
  {
    if v.Some? && v.value.Num? {
      PrintParses(v.value, "");
      assert Print(v.value) + "" == Print(v.value);
      hide Parse;
      IntegerNotEmpty(v.value);
    } else if v.Some? {
      hide Parse;
      PrintStarts(v.value);
    }
  }

  lemma IntegerNotEmpty(v: Json)
    requires v.Num?
    ensures Print(v) != ""
  {
    PrintStarts(v);
  }

  /** Malformed metadata is a value that is neither falsy nor an object, and it is all that is looked at. */
  lemma MalformedIff(c: Crypto, members: seq<Member>)
    ensures Verify(c, members) == MalformedMeta <==>
            var meta := Get(members, "gateway_meta"); meta.Some? && !meta.value.Obj? && !Falsy(meta.value)
  {
    TextMeans(Get(members, "gateway_meta"));
    hide TextOf, Falsy, CanonicalText, Trim;
  }

  lemma FalsyObjectIsEmpty(members: seq<Member>)
    requires !Truthy(Some(Obj(members)))
    ensures members == []
  {
    if members != [] { PrintStarts(Obj(members)); }
  }

  /** Why it does not: the first of the reasons that applies. */
  lemma VerdictMeans(c: Crypto, members: seq<Member>)
    requires Ideal(c) && Get(members, "gateway_meta").Some? && Get(members, "gateway_meta").value.Obj?
    ensures var hash := Trim(TextOf(Get(Get(members, "gateway_meta").value.members, "request_hash")));
            var signature := Trim(TextOf(Get(members, "gateway_signature")));
            && Verify(c, members) != MalformedMeta
            && (Verify(c, members) == SignatureMissing <==> signature == "")
            && (Verify(c, members) == RequestHashMissing <==> signature != "" && hash == "")
            && (Verify(c, members) == RequestHashMismatch <==>
                  signature != "" && hash != "" && hash != c.hash(CanonicalText(members)))
  {
    var meta := Get(members, "gateway_meta");
    if !Truthy(meta) {
      FalsyObjectIsEmpty(meta.value.members);
      assert TextOf(Get(meta.value.members, "request_hash")) == "" && Trim("") == "";
    }
    hide CanonicalText, Print;
  }

  /** The canonical envelope leaves out the signature and, in the metadata, the request hash, and nothing
      else. */
  lemma CanonicalCovers(members: seq<Member>, key: string)
    ensures var meta := Get(members, "gateway_meta");
            Get(CanonicalEnvelope(members), key) ==
            if key == "gateway_signature" then None
            else if key == "gateway_meta" && meta.Some? && meta.value.Obj?
            then Some(Obj(Remove(meta.value.members, "request_hash")))
            else Get(members, key)
  {
    var bare := Remove(members, "gateway_signature");
    GetRemove(members, "gateway_signature", "gateway_meta");
    GetRemove(members, "gateway_signature", key);
    var meta := Get(bare, "gateway_meta");
    if meta.Some? && meta.value.Obj? {
      GetPut(bare, "gateway_meta", Obj(Remove(meta.value.members, "request_hash")), key);
    }
    hide Get, Put, Remove;
  }

  lemma {:induction false} GetFinds(members: seq<Member>, key: string) returns (i: nat)
    ensures i <= |members|
    ensures Get(members, key) == if i == |members| then None else Some(members[i].value)
    ensures i < |members| ==> members[i].key == key
    ensures i == |members| ==> key !in KeySet(members)
  {
    i := 0;
    if members != [] && members[0].key != key {
      var k := GetFinds(members[1..], key);
      i := k + 1;
      NotInFront(members, key);
    }
  }

  lemma NotInFront(members: seq<Member>, key: string)
    requires members != [] && members[0].key != key
    ensures key in KeySet(members) ==> key in KeySet(members[1..])
  {
    if key in KeySet(members) {
      var j :| 0 <= j < |members| && members[j].key == key;
      assert members[1..][j - 1].key == key;
    }
  }

  /** Two texts of a member: both missing, or the same value. */
  ghost predicate SameValue(a: Option<Json>, b: Option<Json>) {
    if a.Some? && b.Some? then Equivalent(a.value, b.value) else a == b
  }

  lemma EquivalentMembers(a: seq<Member>, b: seq<Member>, key: string)
    requires Equivalent(Obj(a), Obj(b))
    ensures SameValue(Get(a, key), Get(b, key))
  {
    var i := GetFinds(a, key);
    var j := GetFinds(b, key);
    assert i < |a| ==> a[i].key in KeySet(a);
    assert j < |b| ==> b[j].key in KeySet(b);
  }

  /** No member can be edited: with signature and request hash kept, an envelope that still verifies has the
      same value under every key, and its metadata too. */
  lemma NoFieldCanChange(c: Crypto, a: seq<Member>, b: seq<Member>, key: string)
    requires Ideal(c) && Verify(c, a) == Verified && Verify(c, b) == Verified
    requires Get(b, "gateway_signature") == Get(a, "gateway_signature")
    requires WellFormed(Obj(CanonicalEnvelope(a))) && WellFormed(Obj(CanonicalEnvelope(b)))
    ensures Get(a, "gateway_meta").Some? && Get(a, "gateway_meta").value.Obj?
    ensures Get(b, "gateway_meta").Some? && Get(b, "gateway_meta").value.Obj?
    ensures key != "gateway_meta" && key != "gateway_signature" ==> SameValue(Get(a, key), Get(b, key))
    ensures key != "request_hash" ==>
      SameValue(Get(Get(a, "gateway_meta").value.members, key), Get(Get(b, "gateway_meta").value.members, key))
  {
    VerifiedIff(c, a);
    VerifiedIff(c, b);
    SameSignatureSameContent(c, a, b);
    hide Get, Remove, CanonicalEnvelope, CanonicalText, Verify, WellFormed, Ideal, Trim;
    var x, y := Get(a, "gateway_meta").value.members, Get(b, "gateway_meta").value.members;
    EquivalentMembers(CanonicalEnvelope(a), CanonicalEnvelope(b), key);
    EquivalentMembers(CanonicalEnvelope(a), CanonicalEnvelope(b), "gateway_meta");
    CanonicalCovers(a, key);
    CanonicalCovers(b, key);
    CanonicalCovers(a, "gateway_meta");
    CanonicalCovers(b, "gateway_meta");
    EquivalentMembers(Remove(x, "request_hash"), Remove(y, "request_hash"), key);
    GetRemove(x, "request_hash", key);
    GetRemove(y, "request_hash", key);
  }
}
