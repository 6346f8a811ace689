/** Reading an envelope back (`extract_security_context` and the look-ups of `ensure_security_envelope`,
    zen_claw/security_context.py): what the normaliser finds in the JSON object it emitted itself. */
module EnvelopeReading {
  import opened Options
  import opened Text
  import opened JsonText
  import opened GatewayEnvelope
  import opened SecurityEnvelopes

  function Texts(items: seq<Json>): seq<string> {
    if items == [] then [] else [TextOf(Some(items[0]))] + Texts(items[1..])
  }

  function GrantsField(members: seq<Member>): Option<seq<string>> {
    match Get(members, "capability_grants")
    case None => None
    case Some(v) => Some(if v.Arr? then Texts(v.items) else [])
  }

  /** What is read as grants: nothing without the member, the items' texts of an array, and no grants of a
      null or otherwise falsy value. */
  lemma GrantsFieldMeans(members: seq<Member>)
    ensures var v, grants := Get(members, "capability_grants"), GrantsField(members);
            && (v == None <==> grants == None)
            && (v.Some? && Falsy(v.value) ==> grants == Some([]))
            && (v.Some? && v.value.Arr? ==>
                  && |grants.value| == |v.value.items|
                  && forall i :: 0 <= i < |v.value.items| ==> grants.value[i] == TextOf(Some(v.value.items[i])))
  {
    var v := Get(members, "capability_grants");
    if v.Some? && v.value.Arr? { TextsInOrder(v.value.items); }
    hide Get;
  }

  lemma {:induction false} TextsInOrder(items: seq<Json>)
    ensures |Texts(items)| == |items|
    ensures forall i :: 0 <= i < |items| ==> Texts(items)[i] == TextOf(Some(items[i]))
  {
    if items != [] { TextsInOrder(items[1..]); }
    hide TextOf;
  }

  function ObjectField(members: seq<Member>, key: string): seq<Member> {
    match Get(members, key)
    case Some(Obj(inner)) => inner
    case _ => []
  }

  function TextField(members: seq<Member>, key: string): string {
    TextOf(Get(members, key))
  }

  /** The fields of a flat context, or of the inner one. */
  function FieldsOf(m: seq<Member>): Fields {
    Fields(
      TextField(m, "trace_id"), TextField(m, "channel"), TextField(m, "sender_id"), TextField(m, "chat_id"),
      TextField(m, "tenant_id"), TextField(m, "workspace_id"), TextField(m, "agent_profile"), TextField(m, "role"),
      TextField(m, "trust_level"), TextField(m, "origin_surface"), TextField(m, "channel_role"),
      TextField(m, "workspace_path"), TextField(m, "gateway_instance"),
      Truthy(Get(m, "dev_profile")), Truthy(Get(m, "trusted_local_only")),
      TextField(m, "subject_type"), TextField(m, "trust_tier"), GrantsField(m), ObjectField(m, "policy_snapshot"))
  }

  /** An envelope as the normaliser reads it. */
  function ReadEnvelope(members: seq<Member>): Raw {
    var inner := ObjectField(members, "security_context");
    Raw(if inner != [] then Some(FieldsOf(inner)) else None, FieldsOf(members),
        TextField(ObjectField(members, "gateway_meta"), "gateway_instance"))
  }

  const FIELD_NAMES: seq<string> := [
    "trace_id", "channel", "sender_id", "chat_id", "tenant_id", "workspace_id", "agent_profile", "role",
    "trust_level", "origin_surface", "channel_role", "workspace_path", "gateway_instance", "dev_profile",
    "trusted_local_only", "subject_type", "trust_tier", "capability_grants", "policy_snapshot"]

  /** Two objects that agree on every field name are read alike. */
  lemma SameFields(a: seq<Member>, b: seq<Member>)
    requires forall i :: 0 <= i < |FIELD_NAMES| ==> Get(a, FIELD_NAMES[i]) == Get(b, FIELD_NAMES[i])
    ensures FieldsOf(a) == FieldsOf(b)
  {
    hide Get;
    var n := FIELD_NAMES;
    assert Get(a, n[0]) == Get(b, n[0]) && Get(a, n[1]) == Get(b, n[1]) && Get(a, n[2]) == Get(b, n[2]);
    assert Get(a, n[3]) == Get(b, n[3]) && Get(a, n[4]) == Get(b, n[4]) && Get(a, n[5]) == Get(b, n[5]);
    assert Get(a, n[6]) == Get(b, n[6]) && Get(a, n[7]) == Get(b, n[7]) && Get(a, n[8]) == Get(b, n[8]);
    assert Get(a, n[9]) == Get(b, n[9]) && Get(a, n[10]) == Get(b, n[10]) && Get(a, n[11]) == Get(b, n[11]);
    assert Get(a, n[12]) == Get(b, n[12]) && Get(a, n[13]) == Get(b, n[13]) && Get(a, n[14]) == Get(b, n[14]);
    assert Get(a, n[15]) == Get(b, n[15]) && Get(a, n[16]) == Get(b, n[16]) && Get(a, n[17]) == Get(b, n[17]);
    assert Get(a, n[18]) == Get(b, n[18]);
  }

  lemma PutReadsAlike(members: seq<Member>, key: string, v: Json)
    requires key !in FIELD_NAMES
    ensures FieldsOf(Put(members, key, v)) == FieldsOf(members)
  {
    forall i | 0 <= i < |FIELD_NAMES|
      ensures Get(Put(members, key, v), FIELD_NAMES[i]) == Get(members, FIELD_NAMES[i])
    {
      GetPut(members, key, v, FIELD_NAMES[i]);
    }
    SameFields(Put(members, key, v), members);
  }

  lemma FrontReadsAlike(m: Member, members: seq<Member>)
    requires m.key !in FIELD_NAMES
    ensures FieldsOf([m] + members) == FieldsOf(members)
  {
    forall i | 0 <= i < |FIELD_NAMES| ensures Get([m] + members, FIELD_NAMES[i]) == Get(members, FIELD_NAMES[i]) {
      assert ([m] + members)[1..] == members;
    }
    SameFields([m] + members, members);
  }

  lemma MetaIsNoField()
    ensures "gateway_meta" !in FIELD_NAMES
  {
  }

  lemma SignatureIsNoField()
    ensures "gateway_signature" !in FIELD_NAMES
  {
  }

  lemma ContextIsNoField()
    ensures "security_context" !in FIELD_NAMES
  {
  }

  /** The first member with a key is the one found. */
  lemma {:induction false} GetIs(members: seq<Member>, i: nat)
    requires i < |members| && forall k :: 0 <= k < i ==> members[k].key != members[i].key
    ensures Get(members, members[i].key) == Some(members[i].value)
  {
    if i > 0 {
      assert members[1..][i - 1] == members[i];
      GetIs(members[1..], i - 1);
    }
  }

  lemma NamesDiffer(i: nat, k: nat)
    requires k < i < |FIELD_NAMES|
    ensures FIELD_NAMES[i] != FIELD_NAMES[k]
  {
  }

  lemma ContextKeys(f: Fields, hash: string, i: nat)
    requires i < |FIELD_NAMES|
    ensures |ContextMembers(f, hash)| == |FIELD_NAMES| + 1 && ContextMembers(f, hash)[i].key == FIELD_NAMES[i]
  {
    hide GrantItems;
  }

  /** Field number `i` of an emitted context. */
  lemma ContextField(f: Fields, hash: string, i: nat)
    requires i < |FIELD_NAMES|
    ensures |ContextMembers(f, hash)| == |FIELD_NAMES| + 1
    ensures Get(ContextMembers(f, hash), FIELD_NAMES[i]) == Some(ContextMembers(f, hash)[i].value)
  {
    ContextKeys(f, hash, i);
    forall k | 0 <= k < i ensures ContextMembers(f, hash)[k].key != ContextMembers(f, hash)[i].key {
      ContextKeys(f, hash, k);
      NamesDiffer(i, k);
    }
    hide ContextMembers, FIELD_NAMES;
    GetIs(ContextMembers(f, hash), i);
  }

  lemma {:induction false} GrantsRead(grants: seq<string>)
    ensures Texts(GrantItems(grants)) == grants
  {
    if grants != [] {
      GrantsRead(grants[1..]);
      assert GrantItems(grants)[1..] == GrantItems(grants[1..]);
      assert grants == [grants[0]] + grants[1..];
    }
  }

  lemma TextFieldsRead(f: Fields, hash: string, i: nat, text: string)
    requires i < |FIELD_NAMES| && i < |ContextMembers(f, hash)| && ContextMembers(f, hash)[i].value == Str(text)
    ensures TextField(ContextMembers(f, hash), FIELD_NAMES[i]) == text
  {
    ContextField(f, hash, i);
    hide ContextMembers, Get, FIELD_NAMES;
  }

  lemma FirstTextsRead(f: Fields, hash: string)
    ensures var m, n := ContextMembers(f, hash), FIELD_NAMES;
            && TextField(m, n[0]) == f.traceId && TextField(m, n[1]) == f.channel && TextField(m, n[2]) == f.senderId
            && TextField(m, n[3]) == f.chatId
  {
    hide TextField, GrantItems;
    TextFieldsRead(f, hash, 0, f.traceId);
    TextFieldsRead(f, hash, 1, f.channel);
    TextFieldsRead(f, hash, 2, f.senderId);
    TextFieldsRead(f, hash, 3, f.chatId);
  }

  lemma NextTextsRead(f: Fields, hash: string)
    ensures var m, n := ContextMembers(f, hash), FIELD_NAMES;
            && TextField(m, n[4]) == f.tenantId && TextField(m, n[5]) == f.workspaceId
            && TextField(m, n[6]) == f.agentProfile && TextField(m, n[7]) == f.role
  {
    hide TextField, GrantItems;
    TextFieldsRead(f, hash, 4, f.tenantId);
    TextFieldsRead(f, hash, 5, f.workspaceId);
    TextFieldsRead(f, hash, 6, f.agentProfile);
    TextFieldsRead(f, hash, 7, f.role);
  }

  lemma MoreTextsRead(f: Fields, hash: string)
    ensures var m, n := ContextMembers(f, hash), FIELD_NAMES;
            && TextField(m, n[8]) == f.trustLevel && TextField(m, n[9]) == f.originSurface
            && TextField(m, n[10]) == f.channelRole && TextField(m, n[11]) == f.workspacePath
            && TextField(m, n[12]) == f.gatewayInstance && TextField(m, n[15]) == f.subjectType
            && TextField(m, n[16]) == f.trustTier
  {
    hide TextField, GrantItems;
    TextFieldsRead(f, hash, 8, f.trustLevel);
    TextFieldsRead(f, hash, 9, f.originSurface);
    TextFieldsRead(f, hash, 10, f.channelRole);
    TextFieldsRead(f, hash, 11, f.workspacePath);
    TextFieldsRead(f, hash, 12, f.gatewayInstance);
    TextFieldsRead(f, hash, 15, f.subjectType);
    TextFieldsRead(f, hash, 16, f.trustTier);
  }

  lemma OthersRead(f: Fields, hash: string)
    requires f.grants.Some?
    ensures var m, n := ContextMembers(f, hash), FIELD_NAMES;
            && Truthy(Get(m, n[13])) == f.devProfile && Truthy(Get(m, n[14])) == f.trustedLocalOnly
            && GrantsField(m) == f.grants && ObjectField(m, n[18]) == f.policy
  {
    hide Get, Texts, GrantItems;
    ContextField(f, hash, 13);
    ContextField(f, hash, 14);
    ContextField(f, hash, 17);
    ContextField(f, hash, 18);
    GrantsRead(f.grants.value);
    assert ContextMembers(f, hash)[13].value == Bool(f.devProfile);
    assert ContextMembers(f, hash)[14].value == Bool(f.trustedLocalOnly);
    assert ContextMembers(f, hash)[17].value == Arr(GrantItems(f.grants.value));
    assert ContextMembers(f, hash)[18].value == Obj(f.policy);
  }

  /** An emitted context is read back as it was. */
  lemma ContextReads(f: Fields, hash: string)
    requires f.grants.Some?
    ensures FieldsOf(ContextMembers(f, hash)) == f
  {
    hide TextField, Get, GrantsField, ObjectField, Truthy, ContextMembers;
    FirstTextsRead(f, hash);
    NextTextsRead(f, hash);
    MoreTextsRead(f, hash);
    OthersRead(f, hash);
  }

  lemma MetaReads(c: Crypto, i: Issued)
    ensures Get(Payload(i), "gateway_meta").Some? && Get(Payload(i), "gateway_meta").value.Obj?
    ensures TextField(ObjectField(Seal(c, Payload(i)), "gateway_meta"), "gateway_instance") == i.top.gatewayInstance
  {
    PayloadHasMeta(i);
    SealedFields(c, Payload(i));
    var meta := Get(Payload(i), "gateway_meta").value.members;
    assert Get(meta, "gateway_instance") == Some(Str(i.top.gatewayInstance));
    GetPut(meta, "request_hash", Str(c.hash(CanonicalText(Payload(i)))), "gateway_instance");
    hide Seal, CanonicalText, ContextMembers, Put, CanonicalEnvelope;
  }

  /** Sealing writes outside the fields. */
  lemma SealReadsAlike(c: Crypto, members: seq<Member>)
    requires Get(members, "gateway_meta").Some? && Get(members, "gateway_meta").value.Obj?
    ensures FieldsOf(Seal(c, members)) == FieldsOf(members)
    ensures ObjectField(Seal(c, members), "security_context") == ObjectField(members, "security_context")
  {
    hide FieldsOf, Get, Put, CanonicalText, FIELD_NAMES;
    MetaIsNoField();
    SignatureIsNoField();
    var meta := Get(members, "gateway_meta").value.members;
    var hashed := Put(members, "gateway_meta", Obj(Put(meta, "request_hash", Str(c.hash(CanonicalText(members))))));
    PutReadsAlike(members, "gateway_meta", Obj(Put(meta, "request_hash", Str(c.hash(CanonicalText(members))))));
    PutReadsAlike(hashed, "gateway_signature", Str(c.sign(CanonicalText(hashed))));
    GetPut(members, "gateway_meta", Obj(Put(meta, "request_hash", Str(c.hash(CanonicalText(members))))), "security_context");
    GetPut(hashed, "gateway_signature", Str(c.sign(CanonicalText(hashed))), "security_context");
  }

  lemma PayloadReads(i: Issued)
    requires i.inner.grants.Some? && i.top.grants.Some?
    ensures FieldsOf(Payload(i)) == i.top
    ensures ObjectField(Payload(i), "security_context") == ContextMembers(i.inner, i.policyHash) != []
  {
    MetaIsNoField();
    ContextIsNoField();
    var p := Payload(i);
    var rest := ContextMembers(i.top, i.policyHash);
    assert p == [p[0]] + ([p[1]] + rest);
    FrontReadsAlike(p[0], [p[1]] + rest);
    FrontReadsAlike(p[1], rest);
    ContextReads(i.top, i.policyHash);
    assert p[1].key == "security_context" && p[0].key != p[1].key;
    GetIs(p, 1);
    hide FieldsOf, FIELD_NAMES, Get;
  }

  /** The normaliser reads its own envelope back field by field. */
  lemma EnvelopeReadsBack(c: Crypto, i: Issued)
    requires i.inner.grants.Some? && i.top.grants.Some?
    ensures Get(Payload(i), "gateway_meta").Some? && Get(Payload(i), "gateway_meta").value.Obj?
    ensures ReadEnvelope(Seal(c, Payload(i))) == Reread(i)
  {
    MetaReads(c, i);
    SealReadsAlike(c, Payload(i));
    PayloadReads(i);
    ContextReads(i.inner, i.policyHash);
    hide FieldsOf, Seal, ContextMembers, ObjectField, TextField, Payload;
  }

  lemma EnsuredHasGrants(g: Gateway, raw: Raw, o: Overrides)
    ensures Ensure(g, raw, o).inner.grants.Some? && Ensure(g, raw, o).top.grants.Some?
  {
    hide Trim, Normal, HashedPolicy;
  }

  lemma OwnEnvelopeReadsBack(g: Gateway, raw: Raw, o: Overrides)
    ensures ReadEnvelope(EnsureEnvelope(g, raw, o)) == Reread(Ensure(g, raw, o))
  {
    EnsuredHasGrants(g, raw, o);
    EnvelopeReadsBack(g.crypto, Ensure(g, raw, o));
    hide Ensure, Payload, Seal, ReadEnvelope;
  }

  /** Idempotence of what is emitted: normalising an envelope of the normaliser's own gives that very
      envelope, signature and all, if and only if the origin surface of the original input was missing,
      not blank, or without a channel to fall back to. */
  lemma EnvelopeIdempotentIff(g: Gateway, raw: Raw, o: Overrides)
    requires ValidGateway(g)
    ensures var first := EnsureEnvelope(g, raw, o);
            EnsureEnvelope(g, ReadEnvelope(first), NO_OVERRIDES) == first <==> OriginSettles(raw)
  {
    hide *;
    OwnEnvelopeReadsBack(g, raw, o);
    IdempotentIff(g, raw, o);
    var one := Ensure(g, raw, o);
    var two := Ensure(g, Reread(one), NO_OVERRIDES);
    SealedFrom(g, raw, o);
    SealedFrom(g, Reread(one), NO_OVERRIDES);
    OwnEnvelopeReadsBack(g, Reread(one), NO_OVERRIDES);
    SecondPass(g, raw, o);
    RereadKeeps(one);
    RereadKeeps(two);
  }

  lemma SealedFrom(g: Gateway, raw: Raw, o: Overrides)
    ensures Get(Payload(Ensure(g, raw, o)), "gateway_meta").Some? && Get(Payload(Ensure(g, raw, o)), "gateway_meta").value.Obj?
    ensures EnsureEnvelope(g, raw, o) == Seal(g.crypto, Payload(Ensure(g, raw, o)))
  {
    PayloadHasMeta(Ensure(g, raw, o));
    hide Ensure, Payload, Seal;
  }

  lemma RereadKeeps(i: Issued)
    ensures Reread(i).inner == Some(i.inner) && Reread(i).top == i.top
  {
  }

  // --- what is emitted, member by member ---

  lemma PayloadContext(i: Issued)
    ensures ObjectField(Payload(i), "security_context") == ContextMembers(i.inner, i.policyHash)
  {
    hide ContextMembers;
    var p := Payload(i);
    assert p[1].key == "security_context" && p[0].key != p[1].key;
    GetIs(p, 1);
  }

  lemma PayloadFront(i: Issued, name: string)
    requires name != "gateway_meta" && name != "security_context"
    ensures Get(Payload(i), name) == Get(ContextMembers(i.top, i.policyHash), name)
  {
    hide ContextMembers, Get;
    var p, top := Payload(i), ContextMembers(i.top, i.policyHash);
    assert p == [p[0]] + ([p[1]] + top);
    GetBehind(p[0], [p[1]] + top, name);
    GetBehind(p[1], top, name);
  }

  lemma PayloadField(i: Issued, n: nat)
    requires n < |FIELD_NAMES|
    ensures |ContextMembers(i.top, i.policyHash)| == |FIELD_NAMES| + 1
    ensures Get(Payload(i), FIELD_NAMES[n]) == Some(ContextMembers(i.top, i.policyHash)[n].value)
    ensures ObjectField(Payload(i), "security_context") == ContextMembers(i.inner, i.policyHash)
  {
    MetaIsNoField();
    ContextIsNoField();
    ContextField(i.top, i.policyHash, n);
    assert |ContextMembers(i.top, i.policyHash)| == 20 && |FIELD_NAMES| == 19;
    hide *;
    PayloadFront(i, FIELD_NAMES[n]);
    PayloadContext(i);
  }

  lemma SealKeeps(c: Crypto, members: seq<Member>, key: string)
    requires Get(members, "gateway_meta").Some? && Get(members, "gateway_meta").value.Obj?
    requires key != "gateway_meta" && key != "gateway_signature"
    ensures Get(Seal(c, members), key) == Get(members, key)
  {
    hide Get, Put, CanonicalText;
    var meta := Get(members, "gateway_meta").value.members;
    var hash := Str(c.hash(CanonicalText(members)));
    var hashed := Put(members, "gateway_meta", Obj(Put(meta, "request_hash", hash)));
    GetPut(members, "gateway_meta", Obj(Put(meta, "request_hash", hash)), key);
    GetPut(hashed, "gateway_signature", Str(c.sign(CanonicalText(hashed))), key);
  }

  lemma NamesAreFields(n: nat)
    requires n < |FIELD_NAMES|
    ensures FIELD_NAMES[n] != "gateway_meta" && FIELD_NAMES[n] != "gateway_signature"
  {
    MetaIsNoField();
    SignatureIsNoField();
  }

  /** Field number `n` of the sealed envelope is the one of the top level, and of its inner context. */
  lemma EmittedField(c: Crypto, i: Issued, n: nat)
    requires n < |FIELD_NAMES| && i.top == i.inner
    ensures Get(Payload(i), "gateway_meta").Some? && Get(Payload(i), "gateway_meta").value.Obj?
    ensures |ContextMembers(i.top, i.policyHash)| == |FIELD_NAMES| + 1
    ensures var sealed := Seal(c, Payload(i)); var value := ContextMembers(i.top, i.policyHash)[n].value;
            && Get(sealed, FIELD_NAMES[n]) == Some(value)
            && Get(ObjectField(sealed, "security_context"), FIELD_NAMES[n]) == Some(value)
  {
    PayloadHasMeta(i);
    NamesAreFields(n);
    hide Get, Seal, Payload, ContextMembers, FIELD_NAMES, ObjectField;
    PayloadField(i, n);
    SealKeeps(c, Payload(i), FIELD_NAMES[n]);
    SealReadsAlike(c, Payload(i));
    ContextField(i.inner, i.policyHash, n);
  }

  /** The metadata of an emitted envelope: who issued it, under which policy, and in which version. */
  lemma EmittedMeta(c: Crypto, i: Issued)
    ensures Get(Payload(i), "gateway_meta").Some? && Get(Payload(i), "gateway_meta").value.Obj?
    ensures var meta := ObjectField(Seal(c, Payload(i)), "gateway_meta");
            && Get(meta, "gateway_instance") == Some(Str(i.top.gatewayInstance))
            && Get(meta, "policy_snapshot_hash") == Some(Str(i.policyHash))
            && Get(meta, "envelope_version") == Some(Num(1))
  {
    PayloadHasMeta(i);
    SealedFields(c, Payload(i));
    var meta := Get(Payload(i), "gateway_meta").value.members;
    var hash := Str(c.hash(CanonicalText(Payload(i))));
    assert |meta| == 3 && meta[0].key == "gateway_instance" && meta[1].key == "policy_snapshot_hash"
        && meta[2].key == "envelope_version";
    GetIs(meta, 0);
    GetIs(meta, 1);
    GetIs(meta, 2);
    GetPut(meta, "request_hash", hash, "gateway_instance");
    GetPut(meta, "request_hash", hash, "policy_snapshot_hash");
    GetPut(meta, "request_hash", hash, "envelope_version");
    hide Seal, CanonicalText, ContextMembers, Put, CanonicalEnvelope, Get;
  }

  lemma GetBehind(m: Member, members: seq<Member>, key: string)
    requires m.key != key
    ensures Get([m] + members, key) == Get(members, key)
  {
    assert ([m] + members)[1..] == members;
  }

  /** The members of an emitted envelope by their names in the protocol. */
  lemma EmittedMembers(g: Gateway, raw: Raw, o: Overrides)
    requires ValidGateway(g)
    ensures var e, f := EnsureEnvelope(g, raw, o), Ensure(g, raw, o).inner;
            && Get(e, "trace_id") == Some(Str(f.traceId)) && Get(e, "channel") == Some(Str(f.channel))
            && Get(e, "sender_id") == Some(Str(f.senderId)) && Get(e, "chat_id") == Some(Str(f.chatId))
            && Get(e, "tenant_id") == Some(Str(f.tenantId)) && Get(e, "workspace_id") == Some(Str(f.workspaceId))
            && Get(e, "agent_profile") == Some(Str(f.agentProfile)) && Get(e, "role") == Some(Str(f.role))
            && Get(e, "trust_level") == Some(Str(f.trustLevel)) && Get(e, "origin_surface") == Some(Str(f.originSurface))
            && Get(e, "channel_role") == Some(Str(f.channelRole)) && Get(e, "workspace_path") == Some(Str(f.workspacePath))
            && Get(e, "gateway_instance") == Some(Str(f.gatewayInstance))
            && Get(e, "dev_profile") == Some(Bool(f.devProfile))
            && Get(e, "trusted_local_only") == Some(Bool(f.trustedLocalOnly))
            && Get(e, "subject_type") == Some(Str(f.subjectType)) && Get(e, "trust_tier") == Some(Str(f.trustTier))
            && f.grants.Some? && Get(e, "capability_grants") == Some(Arr(GrantItems(f.grants.value)))
            && Get(e, "policy_snapshot") == Some(Obj(f.policy))
  {
    var i := Ensure(g, raw, o);
    EnsuredSettled(g, raw, o);
    SealedFrom(g, raw, o);
    EnsuredHasGrants(g, raw, o);
    hide Ensure, Seal, Payload, Get, Settled, Defaulted, GrantItems, NormalGrants;
    forall n | 0 <= n < |FIELD_NAMES|
      ensures n < |ContextMembers(i.top, i.policyHash)|
              && Get(EnsureEnvelope(g, raw, o), FIELD_NAMES[n]) == Some(ContextMembers(i.top, i.policyHash)[n].value)
    {
      EmittedField(g.crypto, i, n);
    }
    MembersByName(EnsureEnvelope(g, raw, o), i.top, i.policyHash);
  }

  lemma MembersByName(e: seq<Member>, f: Fields, hash: string)
    requires f.grants.Some?
    requires forall n :: 0 <= n < |FIELD_NAMES| ==>
      n < |ContextMembers(f, hash)| && Get(e, FIELD_NAMES[n]) == Some(ContextMembers(f, hash)[n].value)
    ensures Get(e, "trace_id") == Some(Str(f.traceId)) && Get(e, "channel") == Some(Str(f.channel))
    ensures Get(e, "sender_id") == Some(Str(f.senderId)) && Get(e, "chat_id") == Some(Str(f.chatId))
    ensures Get(e, "tenant_id") == Some(Str(f.tenantId)) && Get(e, "workspace_id") == Some(Str(f.workspaceId))
    ensures Get(e, "agent_profile") == Some(Str(f.agentProfile)) && Get(e, "role") == Some(Str(f.role))
    ensures Get(e, "trust_level") == Some(Str(f.trustLevel)) && Get(e, "origin_surface") == Some(Str(f.originSurface))
    ensures Get(e, "channel_role") == Some(Str(f.channelRole)) && Get(e, "workspace_path") == Some(Str(f.workspacePath))
    ensures Get(e, "gateway_instance") == Some(Str(f.gatewayInstance))
    ensures Get(e, "dev_profile") == Some(Bool(f.devProfile))
    ensures Get(e, "trusted_local_only") == Some(Bool(f.trustedLocalOnly))
    ensures Get(e, "subject_type") == Some(Str(f.subjectType)) && Get(e, "trust_tier") == Some(Str(f.trustTier))
    ensures Get(e, "capability_grants") == Some(Arr(GrantItems(f.grants.value)))
    ensures Get(e, "policy_snapshot") == Some(Obj(f.policy))
  {
    hide Get, GrantItems;
    var n, m := FIELD_NAMES, ContextMembers(f, hash);
    assert Get(e, n[0]) == Some(m[0].value) && Get(e, n[1]) == Some(m[1].value) && Get(e, n[2]) == Some(m[2].value);
    assert Get(e, n[3]) == Some(m[3].value) && Get(e, n[4]) == Some(m[4].value) && Get(e, n[5]) == Some(m[5].value);
    assert Get(e, n[6]) == Some(m[6].value) && Get(e, n[7]) == Some(m[7].value) && Get(e, n[8]) == Some(m[8].value);
    assert Get(e, n[9]) == Some(m[9].value) && Get(e, n[10]) == Some(m[10].value) && Get(e, n[11]) == Some(m[11].value);
    assert Get(e, n[12]) == Some(m[12].value) && Get(e, n[13]) == Some(m[13].value) && Get(e, n[14]) == Some(m[14].value);
    assert Get(e, n[15]) == Some(m[15].value) && Get(e, n[16]) == Some(m[16].value) && Get(e, n[17]) == Some(m[17].value);
    assert Get(e, n[18]) == Some(m[18].value);
  }
}
