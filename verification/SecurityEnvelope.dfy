/** Normalising a security context into a signed envelope (`ensure_security_envelope` and
    `GatewayEnvelopeIssuer.issue`, zen_claw/security_context.py). A text field of "" stands for
    a missing, null or empty one, which the code treats alike. */
module SecurityEnvelopes {
  import opened Options
  import opened Text
  import opened JsonText
  import opened CanonicalJson
  import opened GatewayEnvelope

  /** The fields a flat context or an inner `security_context` can carry. */
  datatype Fields = Fields(
    traceId: string, channel: string, senderId: string, chatId: string, tenantId: string, workspaceId: string,
    agentProfile: string, role: string, trustLevel: string, originSurface: string, channelRole: string,
    workspacePath: string, gatewayInstance: string, devProfile: bool, trustedLocalOnly: bool,
    subjectType: string, trustTier: string, grants: Option<seq<string>>, policy: seq<Member>)

  /** An envelope or legacy context as the normaliser reads it: the inner context when there is
      one, the top-level fields, and the instance named in the metadata. */
  datatype Raw = Raw(inner: Option<Fields>, top: Fields, metaInstance: string)

  /** Explicit arguments override what the raw value says. */
  datatype Overrides = Overrides(traceId: string, subjectType: string, trustTier: string, grants: Option<seq<string>>)

  const NO_OVERRIDES := Overrides("", "", "", None)

  /** The identity of this gateway process and its cryptography. */
  datatype Gateway = Gateway(instance: string, crypto: Crypto)

  ghost predicate ValidGateway(g: Gateway) {
    g.instance != "" && Trimmed(g.instance) && Ideal(g.crypto)
  }

  /** Python's `a or b` on text. */
  function Or(a: string, b: string): string {
    if a != "" then a else b
  }

  /** `str(x).strip().lower()`. */
  function Normal(s: string): string {
    Lower(Trim(s))
  }

  function NormalGrants(grants: seq<string>): seq<string> {
    if grants == [] then []
    else (if Trim(grants[0]) != "" then [Normal(grants[0])] else []) + NormalGrants(grants[1..])
  }

  function PolicyHash(g: Gateway, policy: seq<Member>): string {
    g.crypto.hash(StableStringify(CodePoints, Obj(Remove(policy, "policy_snapshot_hash"))))
  }

  /** Add the hash unless the snapshot already carries one. */
  function HashedPolicy(g: Gateway, policy: seq<Member>): seq<Member> {
    if Get(policy, "policy_snapshot_hash").Some? then policy
    else policy + [Member("policy_snapshot_hash", Str(PolicyHash(g, policy)))]
  }

  /** The envelope before it is sealed: the `security_context`, the flattened top level, and the
      policy hash. The metadata names the top level's gateway instance. */
  datatype Issued = Issued(inner: Fields, top: Fields, policyHash: string)

  function AgentType(s: string): string {
    Or(Normal(Or(s, "agent")), "agent")
  }

  /** `issue`: the inner context is normalised once, the top level once more. */
  function Issue(g: Gateway, issuerInstance: string, subject: Fields, policy: seq<Member>): Issued {
    var hashed := HashedPolicy(g, policy);
    var fallback := Or(issuerInstance, g.instance);
    var sec := subject.(gatewayInstance := Trim(Or(subject.gatewayInstance, fallback)),
                        subjectType := AgentType(subject.subjectType),
                        trustTier := Normal(Or(subject.trustTier, subject.trustLevel)),
                        policy := hashed);
    Issued(sec,
           sec.(gatewayInstance := Trim(Or(sec.gatewayInstance, fallback)),
                subjectType := AgentType(sec.subjectType), trustTier := Normal(sec.trustTier)),
           Or(TextOf(Get(hashed, "policy_snapshot_hash")), PolicyHash(g, hashed)))
  }

  function Inner(raw: Raw): Fields {
    if raw.inner.Some? then raw.inner.value else raw.top
  }

  function ChosenPolicy(raw: Raw): seq<Member> {
    if raw.top.policy != [] then raw.top.policy else Inner(raw).policy
  }

  function ChosenGrants(raw: Raw, o: Overrides): seq<string> {
    if o.grants.Some? then o.grants.value
    else if raw.top.grants.Some? then raw.top.grants.value
    else if Inner(raw).grants.Some? then Inner(raw).grants.value
    else ["*"]
  }

  function SubjectOf(g: Gateway, raw: Raw, o: Overrides): Fields {
    var sec := Inner(raw);
    Fields(
      Trim(Or(o.traceId, Or(sec.traceId, raw.top.traceId))),
      Normal(sec.channel), Trim(sec.senderId), Trim(sec.chatId),
      Or(Normal(Or(sec.tenantId, "default")), "default"),
      Trim(sec.workspaceId),
      Or(Normal(Or(sec.agentProfile, "default")), "default"),
      Normal(sec.role),
      Or(Normal(Or(sec.trustLevel, "trusted_local")), "trusted_local"),
      Normal(Or(sec.originSurface, sec.channel)),
      Normal(sec.channelRole), Trim(sec.workspacePath),
      Trim(Or(sec.gatewayInstance, Or(raw.top.gatewayInstance, g.instance))),
      sec.devProfile, sec.trustedLocalOnly,
      AgentType(Or(o.subjectType, Or(raw.top.subjectType, sec.subjectType))),
      Normal(Or(o.trustTier, Or(raw.top.trustTier, Or(sec.trustTier, sec.trustLevel)))),
      Some(NormalGrants(ChosenGrants(raw, o))), [])
  }

  /** `ensure_security_envelope`, up to the final sealing. */
  function Ensure(g: Gateway, raw: Raw, o: Overrides): Issued {
    var sec := Inner(raw);
    var policy := ChosenPolicy(raw);
    var prepared := if policy != [] then HashedPolicy(g, policy) else policy;
    var instance := Trim(Or(raw.metaInstance, Or(sec.gatewayInstance, Or(raw.top.gatewayInstance, g.instance))));
    Issue(g, Or(instance, g.instance), SubjectOf(g, raw, o), prepared)
  }

  /** An issued envelope read back. */
  function Reread(i: Issued): Raw {
    Raw(Some(i.inner), i.top, i.top.gatewayInstance)
  }

  // --- the payload that is sealed ---

  function GrantItems(grants: seq<string>): seq<Json> {
    if grants == [] then [] else [Str(grants[0])] + GrantItems(grants[1..])
  }

  function ContextMembers(f: Fields, policyHash: string): seq<Member> {
    [Member("trace_id", Str(f.traceId)), Member("channel", Str(f.channel)), Member("sender_id", Str(f.senderId)),
     Member("chat_id", Str(f.chatId)), Member("tenant_id", Str(f.tenantId)), Member("workspace_id", Str(f.workspaceId)),
     Member("agent_profile", Str(f.agentProfile)), Member("role", Str(f.role)), Member("trust_level", Str(f.trustLevel)),
     Member("origin_surface", Str(f.originSurface)), Member("channel_role", Str(f.channelRole)),
     Member("workspace_path", Str(f.workspacePath)), Member("gateway_instance", Str(f.gatewayInstance)),
     Member("dev_profile", Bool(f.devProfile)), Member("trusted_local_only", Bool(f.trustedLocalOnly)),
     Member("subject_type", Str(f.subjectType)), Member("trust_tier", Str(f.trustTier)),
     Member("capability_grants", Arr(if f.grants.Some? then GrantItems(f.grants.value) else [])),
     Member("policy_snapshot", Obj(f.policy)), Member("policy_snapshot_hash", Str(policyHash))]
  }

  /** The flattened envelope with its metadata, as `issue` hands it to the hash. */
  function Payload(i: Issued): seq<Member> {
    [Member("gateway_meta", Obj([Member("gateway_instance", Str(i.top.gatewayInstance)),
                                 Member("policy_snapshot_hash", Str(i.policyHash)),
                                 Member("envelope_version", Num(1))])),
     Member("security_context", Obj(ContextMembers(i.inner, i.policyHash)))] + ContextMembers(i.top, i.policyHash)
  }

  /** The complete function: normalise, flatten, seal. */
  function EnsureEnvelope(g: Gateway, raw: Raw, o: Overrides): seq<Member> {
    PayloadHasMeta(Ensure(g, raw, o));
    Seal(g.crypto, Payload(Ensure(g, raw, o)))
  }

  lemma PayloadHasMeta(i: Issued)
    ensures Get(Payload(i), "gateway_meta").Some? && Get(Payload(i), "gateway_meta").value.Obj?
  {
  }

  /** Every envelope the normaliser issues verifies, whatever it was given. */
  lemma EnsuredVerifies(g: Gateway, raw: Raw, o: Overrides)
    requires ValidGateway(g)
    ensures Verify(g.crypto, EnsureEnvelope(g, raw, o)) == Verified
  {
    PayloadHasMeta(Ensure(g, raw, o));
    SealedVerifies(g.crypto, Payload(Ensure(g, raw, o)));
  }

  // --- idempotence ---

  lemma NormalStable(s: string)
    ensures Normal(Normal(s)) == Normal(s) && Trim(Normal(s)) == Normal(s)
    ensures Normal(s) == "" <==> Trim(s) == ""
  {
    NormalIdempotent(s);
    LowerShape(Trim(s));
  }

  lemma GrantsUnfold(first: string, rest: seq<string>)
    ensures NormalGrants([first] + rest) == (if Trim(first) != "" then [Normal(first)] else []) + NormalGrants(rest)
  {
    assert ([first] + rest)[1..] == rest;
  }

  lemma {:induction false} GrantsStable(grants: seq<string>)
    ensures NormalGrants(NormalGrants(grants)) == NormalGrants(grants)
  {
    if grants != [] {
      var first, rest := grants[0], grants[1..];
      GrantsStable(rest);
      NormalStable(first);
      hide NormalGrants, Trim, Normal;
      assert grants == [first] + rest;
      GrantsUnfold(first, rest);
      if Trim(first) != "" {
        GrantsUnfold(Normal(first), NormalGrants(rest));
      } else {
        assert [] + NormalGrants(rest) == NormalGrants(rest);
      }
    }
  }

  /** `x.strip().lower() or default` under a second pass. */
  lemma DefaultStable(s: string, default: string)
    requires default != "" && Normal(default) == default
    ensures var v := Or(Normal(Or(s, default)), default); v != "" && Or(Normal(Or(v, default)), default) == v
  {
    NormalStable(Or(s, default));
  }

  lemma Fixed(s: string)
    requires Trimmed(s) && forall i :: 0 <= i < |s| ==> LowerChar(s[i]) == s[i]
    ensures Normal(s) == s
  {
    TrimFixesTrimmed(s);
    LowerFixed(s);
  }

  lemma DefaultFixed()
    ensures Normal("default") == "default"
  {
    Fixed("default");
  }

  lemma AgentFixed()
    ensures Normal("agent") == "agent"
  {
    Fixed("agent");
  }

  lemma TrustedFixed()
    ensures Normal("trusted_local") == "trusted_local"
  {
    Fixed("trusted_local");
  }

  lemma LowerFixed(s: string)
    requires forall i :: 0 <= i < |s| ==> LowerChar(s[i]) == s[i]
    ensures Lower(s) == s
  {
    LowerShape(s);
  }

  /** A blank origin surface hides the channel on the first pass and yields to it on the second. */
  predicate OriginSettles(raw: Raw) {
    var sec := Inner(raw);
    sec.originSurface == "" || Trim(sec.originSurface) != "" || Trim(sec.channel) == ""
  }

  lemma PolicyStable(g: Gateway, policy: seq<Member>)
    ensures HashedPolicy(g, policy) != [] && HashedPolicy(g, HashedPolicy(g, policy)) == HashedPolicy(g, policy)
  {
    AppendedIsFound(policy, "policy_snapshot_hash", Str(PolicyHash(g, policy)));
  }

  lemma {:induction false} AppendedIsFound(members: seq<Member>, key: string, value: Json)
    ensures Get(members + [Member(key, value)], key).Some?
  {
    if members != [] && members[0].key != key {
      AppendedIsFound(members[1..], key, value);
      assert (members + [Member(key, value)])[1..] == members[1..] + [Member(key, value)];
    }
  }

  /** What the first pass leaves in the fields, group by group. */
  ghost predicate Settled(f: Fields) {
    && Trim(f.traceId) == f.traceId && Normal(f.channel) == f.channel && Trim(f.senderId) == f.senderId
    && Trim(f.chatId) == f.chatId && Trim(f.workspaceId) == f.workspaceId && Normal(f.role) == f.role
    && Normal(f.channelRole) == f.channelRole && Trim(f.workspacePath) == f.workspacePath
    && Normal(f.originSurface) == f.originSurface && Normal(f.trustTier) == f.trustTier
  }

  ghost predicate Defaulted(f: Fields) {
    && Or(Normal(Or(f.tenantId, "default")), "default") == f.tenantId
    && Or(Normal(Or(f.agentProfile, "default")), "default") == f.agentProfile
    && f.trustLevel != "" && Or(Normal(Or(f.trustLevel, "trusted_local")), "trusted_local") == f.trustLevel
    && Normal(f.trustLevel) == f.trustLevel
    && f.subjectType != "" && AgentType(f.subjectType) == f.subjectType
  }

  lemma SubjectSettled(g: Gateway, raw: Raw, o: Overrides)
    ensures Settled(SubjectOf(g, raw, o))
  {
    var sec := Inner(raw);
    TrimIdempotent(Or(o.traceId, Or(sec.traceId, raw.top.traceId)));
    TrimIdempotent(sec.senderId);
    TrimIdempotent(sec.chatId);
    TrimIdempotent(sec.workspaceId);
    TrimIdempotent(sec.workspacePath);
    NormalStable(sec.channel);
    NormalStable(sec.role);
    NormalStable(sec.channelRole);
    NormalStable(Or(sec.originSurface, sec.channel));
    NormalStable(Or(o.trustTier, Or(raw.top.trustTier, Or(sec.trustTier, sec.trustLevel))));
  }

  lemma SubjectDefaulted(g: Gateway, raw: Raw, o: Overrides)
    ensures Defaulted(SubjectOf(g, raw, o))
  {
    var sec := Inner(raw);
    DefaultFixed();
    AgentFixed();
    TrustedFixed();
    DefaultStable(sec.tenantId, "default");
    DefaultStable(sec.agentProfile, "default");
    DefaultStable(sec.trustLevel, "trusted_local");
    DefaultStable(Or(o.subjectType, Or(raw.top.subjectType, sec.subjectType)), "agent");
    NormalStable(Or(sec.trustLevel, "trusted_local"));
  }

  lemma OrTrimmed(a: string, b: string)
    requires Trim(a) == a && Trim(b) == b && b != ""
    ensures Or(a, b) != "" && Trim(Or(a, b)) == Or(a, b)
  {
  }

  /** The instance the first pass settles on. */
  lemma InstanceSettled(g: Gateway, raw: Raw, o: Overrides)
    requires ValidGateway(g)
    ensures var i := Ensure(g, raw, o);
            && i.inner.gatewayInstance != "" && Trim(i.inner.gatewayInstance) == i.inner.gatewayInstance
            && i.top.gatewayInstance == i.inner.gatewayInstance
  {
    var sec := Inner(raw);
    var subject := SubjectOf(g, raw, o).gatewayInstance;
    var found := Or(raw.metaInstance, Or(sec.gatewayInstance, Or(raw.top.gatewayInstance, g.instance)));
    TrimFixesTrimmed(g.instance);
    TrimIdempotent(found);
    TrimIdempotent(Or(sec.gatewayInstance, Or(raw.top.gatewayInstance, g.instance)));
    OrTrimmed(Trim(found), g.instance);
    OrTrimmed(subject, Or(Trim(found), g.instance));
  }

  /** Inside an ensured envelope the context and the top level coincide, settled. */
  lemma EnsuredSettled(g: Gateway, raw: Raw, o: Overrides)
    requires ValidGateway(g)
    ensures var i := Ensure(g, raw, o);
            && i.top == i.inner && Settled(i.inner) && Defaulted(i.inner)
            && i.inner.traceId == SubjectOf(g, raw, o).traceId
            && i.inner.grants == Some(NormalGrants(ChosenGrants(raw, o)))
            && (i.inner.trustTier == "" ==> i.inner.trustLevel == "")
            && i.inner.policy == HashedPolicy(g, ChosenPolicy(raw))
            && i.policyHash == Or(TextOf(Get(i.inner.policy, "policy_snapshot_hash")), PolicyHash(g, i.inner.policy))
  {
    var i := Ensure(g, raw, o);
    var subject := SubjectOf(g, raw, o);
    SubjectSettled(g, raw, o);
    SubjectDefaulted(g, raw, o);
    InstanceSettled(g, raw, o);
    NormalStable(Or(subject.trustTier, subject.trustLevel));
    PolicyStable(g, ChosenPolicy(raw));
    hide SubjectOf, Normal, HashedPolicy, ChosenPolicy;
    assert i.inner.trustTier == Or(subject.trustTier, subject.trustLevel);
  }

  lemma RereadFields(g: Gateway, i: Issued)
    requires ValidGateway(g) && i.top == i.inner && Settled(i.inner) && Defaulted(i.inner)
    requires i.inner.grants.Some? && NormalGrants(i.inner.grants.value) == i.inner.grants.value
    requires i.inner.gatewayInstance != "" && Trim(i.inner.gatewayInstance) == i.inner.gatewayInstance
    requires i.inner.trustTier != ""
    ensures SubjectOf(g, Reread(i), NO_OVERRIDES) ==
      i.inner.(originSurface := Normal(Or(i.inner.originSurface, i.inner.channel)), policy := [])
  {
    hide Trim, Normal;
  }

  /** One more pass over an ensured envelope can only change the origin surface. */
  lemma SecondPass(g: Gateway, raw: Raw, o: Overrides)
    requires ValidGateway(g)
    ensures var first := Ensure(g, raw, o); var second := Ensure(g, Reread(first), NO_OVERRIDES);
            var origin := Normal(Or(first.inner.originSurface, first.inner.channel));
            second == first.(inner := first.inner.(originSurface := origin), top := first.top.(originSurface := origin))
  {
    var first := Ensure(g, raw, o);
    EnsuredSettled(g, raw, o);
    InstanceSettled(g, raw, o);
    GrantsStable(ChosenGrants(raw, o));
    RereadFields(g, first);
    PolicyStable(g, ChosenPolicy(raw));
    EnsuredSettled(g, Reread(first), NO_OVERRIDES);
    InstanceSettled(g, Reread(first), NO_OVERRIDES);
  }

  /** Idempotence holds exactly when the origin surface settles: when it is missing, not blank,
      or there is no channel for it to fall back to. */
  lemma IdempotentIff(g: Gateway, raw: Raw, o: Overrides)
    requires ValidGateway(g)
    ensures Ensure(g, Reread(Ensure(g, raw, o)), NO_OVERRIDES) == Ensure(g, raw, o) <==> OriginSettles(raw)
  {
    var sec := Inner(raw);
    var first := Ensure(g, raw, o);
    SecondPass(g, raw, o);
    EnsuredSettled(g, raw, o);
    NormalStable(sec.channel);
    NormalStable(Or(sec.originSurface, sec.channel));
    NormalStable(sec.originSurface);
  }

  lemma BlankTrims()
    ensures Trim(" ") == ""
  {
    assert " "[1..] == "";
  }

  /** The failing family has members: a blank origin surface with a channel. */
  lemma NotIdempotent(g: Gateway, raw: Raw)
    requires ValidGateway(g) && Inner(raw).originSurface == " " && Trim(Inner(raw).channel) != ""
    ensures Ensure(g, Reread(Ensure(g, raw, NO_OVERRIDES)), NO_OVERRIDES) != Ensure(g, raw, NO_OVERRIDES)
  {
    BlankTrims();
    hide Trim, Ensure, Reread;
    IdempotentIff(g, raw, NO_OVERRIDES);
  }

  /** From the second pass on, normalising changes nothing, whatever the input was. */
  lemma SettlesAfterTwoPasses(g: Gateway, raw: Raw, o: Overrides)
    requires ValidGateway(g)
    ensures var second := Ensure(g, Reread(Ensure(g, raw, o)), NO_OVERRIDES);
            Ensure(g, Reread(second), NO_OVERRIDES) == second
  {
    var first := Ensure(g, raw, o);
    EnsuredSettled(g, raw, o);
    IdempotentIff(g, Reread(first), NO_OVERRIDES);
    NormalStable(first.inner.originSurface);
    NormalStable(first.inner.channel);
    if first.inner.originSurface != "" {
      assert Trim(first.inner.originSurface) == first.inner.originSurface;
    }
  }

  // --- what the normaliser makes of its input, field by field ---

  /** The first text of a list that says anything. */
  function FirstGiven(texts: seq<string>): string {
    if texts == [] then "" else if texts[0] != "" then texts[0] else FirstGiven(texts[1..])
  }

  /** A text or, when it is blank, a default. */
  function NormalOr(s: string, default: string): string {
    if Trim(s) != "" then Lower(Trim(s)) else default
  }

  lemma GivenOfTwo(a: string, b: string)
    ensures FirstGiven([a, b]) == Or(a, b)
  {
    assert [a, b][1..] == [b] && [b][1..] == [];
    assert FirstGiven([]) == "" && FirstGiven([b]) == b;
  }

  lemma GivenOfThree(a: string, b: string, c: string)
    ensures FirstGiven([a, b, c]) == Or(a, Or(b, c))
  {
    assert [a, b, c][1..] == [b, c];
    GivenOfTwo(b, c);
  }

  lemma GivenOfFour(a: string, b: string, c: string, d: string)
    ensures FirstGiven([a, b, c, d]) == Or(a, Or(b, Or(c, d)))
  {
    assert [a, b, c, d][1..] == [b, c, d];
    GivenOfThree(b, c, d);
  }

  lemma BlankOr(s: string, default: string)
    requires default != "" && Normal(default) == default
    ensures Or(Normal(Or(s, default)), default) == NormalOr(s, default)
  {
    NormalStable(s);
    if s == "" { assert Trim(s) == ""; }
  }

  /** The context the fields are read from: the inner one if there is one, else the flat top level. */
  function Context(raw: Raw): Fields {
    match raw.inner
    case Some(inner) => inner
    case None => raw.top
  }

  /** Issuing touches four fields of the subject. */
  lemma InnerIsSubject(g: Gateway, raw: Raw, o: Overrides)
    ensures var f := Ensure(g, raw, o).inner; var subject := SubjectOf(g, raw, o);
            && f == subject.(gatewayInstance := f.gatewayInstance, subjectType := f.subjectType, trustTier := f.trustTier,
                             policy := f.policy)
            && f.subjectType == AgentType(subject.subjectType)
            && f.trustTier == Normal(Or(subject.trustTier, subject.trustLevel))
  {
    hide SubjectOf, Trim, Normal, AgentType, HashedPolicy, Or, ChosenPolicy;
  }

  /** Who the envelope says is acting: each field from the first place that gives it, stripped, lower-cased
      where the code does so, and defaulted where everything is blank. */
  lemma IdentityOf(g: Gateway, raw: Raw, o: Overrides)
    ensures var f, sec, top := Ensure(g, raw, o).inner, Context(raw), raw.top;
            && f.traceId == Trim(FirstGiven([o.traceId, sec.traceId, top.traceId]))
            && f.channel == Lower(Trim(sec.channel)) && f.senderId == Trim(sec.senderId) && f.chatId == Trim(sec.chatId)
            && f.tenantId == NormalOr(sec.tenantId, "default") && f.workspaceId == Trim(sec.workspaceId)
            && f.agentProfile == NormalOr(sec.agentProfile, "default") && f.role == Lower(Trim(sec.role))
            && f.trustLevel == NormalOr(sec.trustLevel, "trusted_local")
            && f.originSurface == Lower(Trim(FirstGiven([sec.originSurface, sec.channel])))
            && f.channelRole == Lower(Trim(sec.channelRole)) && f.workspacePath == Trim(sec.workspacePath)
            && f.devProfile == sec.devProfile && f.trustedLocalOnly == sec.trustedLocalOnly
  {
    var sec := Inner(raw);
    InnerIsSubject(g, raw, o);
    GivenOfThree(o.traceId, sec.traceId, raw.top.traceId);
    GivenOfTwo(sec.originSurface, sec.channel);
    DefaultFixed();
    TrustedFixed();
    BlankOr(sec.tenantId, "default");
    BlankOr(sec.agentProfile, "default");
    BlankOr(sec.trustLevel, "trusted_local");
    hide Ensure, Trim, Lower, NormalOr, FirstGiven, Or, NormalGrants, ChosenGrants, AgentType;
  }

  /** As what it acts, and in which trust tier: an explicit argument comes first, then the top level, then the
      inner context, whose trust level also stands in for the tier. */
  lemma StandingOf(g: Gateway, raw: Raw, o: Overrides)
    ensures var f, sec, top := Ensure(g, raw, o).inner, Context(raw), raw.top;
            && f.subjectType == NormalOr(FirstGiven([o.subjectType, top.subjectType, sec.subjectType]), "agent")
            && f.trustTier == NormalOr(FirstGiven([o.trustTier, top.trustTier, sec.trustTier, sec.trustLevel]),
                                       NormalOr(sec.trustLevel, "trusted_local"))
  {
    var sec := Inner(raw);
    var type', tier := Or(o.subjectType, Or(raw.top.subjectType, sec.subjectType)),
                       Or(o.trustTier, Or(raw.top.trustTier, Or(sec.trustTier, sec.trustLevel)));
    InnerIsSubject(g, raw, o);
    SubjectStanding(g, raw, o);
    GivenOfThree(o.subjectType, raw.top.subjectType, sec.subjectType);
    GivenOfFour(o.trustTier, raw.top.trustTier, sec.trustTier, sec.trustLevel);
    AgentTypeTwice(type');
    AgentTypeIs(type');
    TierOf(tier, sec.trustLevel);
    hide Ensure, SubjectOf, AgentType, Normal, NormalOr, FirstGiven, Or;
  }

  lemma SubjectStanding(g: Gateway, raw: Raw, o: Overrides)
    ensures var subject, sec := SubjectOf(g, raw, o), Inner(raw);
            && subject.subjectType == AgentType(Or(o.subjectType, Or(raw.top.subjectType, sec.subjectType)))
            && subject.trustTier == Normal(Or(o.trustTier, Or(raw.top.trustTier, Or(sec.trustTier, sec.trustLevel))))
            && subject.trustLevel == Or(Normal(Or(sec.trustLevel, "trusted_local")), "trusted_local")
            && subject.grants == Some(NormalGrants(ChosenGrants(raw, o)))
  {
    hide Normal, Trim, Or, NormalGrants, ChosenGrants, AgentType;
  }

  lemma AgentTypeIs(s: string)
    ensures AgentType(s) == NormalOr(s, "agent")
  {
    AgentFixed();
    BlankOr(s, "agent");
  }

  lemma TierOf(tier: string, level: string)
    ensures Normal(Or(Normal(tier), Or(Normal(Or(level, "trusted_local")), "trusted_local")))
         == NormalOr(tier, NormalOr(level, "trusted_local"))
  {
    TrustedFixed();
    BlankOr(level, "trusted_local");
    NormalStable(tier);
    NormalStable(level);
    hide Trim, Lower;
  }

  /** What it may do: the grants of an explicit argument, else of the top level, else of the inner context;
      without any of them exactly ["*"]. */
  lemma GrantsOf(g: Gateway, raw: Raw, o: Overrides)
    ensures var f, sec, top := Ensure(g, raw, o).inner, Context(raw), raw.top;
            && f.grants.Some?
            && (o.grants.Some? ==> f.grants.value == NormalGrants(o.grants.value))
            && (o.grants == None && top.grants.Some? ==> f.grants.value == NormalGrants(top.grants.value))
            && (o.grants == None && top.grants == None && sec.grants.Some? ==>
                  f.grants.value == NormalGrants(sec.grants.value))
            && (o.grants == None && top.grants == None && sec.grants == None ==> f.grants.value == ["*"])
  {
    InnerIsSubject(g, raw, o);
    SubjectStanding(g, raw, o);
    StarIsKept();
    hide Ensure, SubjectOf, NormalGrants, Normal, AgentType, Or;
  }

  lemma AgentTypeTwice(s: string)
    ensures AgentType(AgentType(s)) == AgentType(s)
  {
    AgentFixed();
    DefaultStable(s, "agent");
  }

  lemma StarIsKept()
    ensures NormalGrants(["*"]) == ["*"]
  {
    Fixed("*");
    TrimFixesTrimmed("*");
    assert ["*"][1..] == [];
  }

  /** `at` lists, in order, the positions of the grants that are not blank, and `kept` holds them stripped
      and lower-cased. */
  ghost predicate KeptAt(grants: seq<string>, kept: seq<string>, at: seq<nat>) {
    && |kept| == |at|
    && (forall k :: 0 <= k < |at| ==>
          at[k] < |grants| && Trim(grants[at[k]]) != "" && kept[k] == Lower(Trim(grants[at[k]])))
    && (forall j, k :: 0 <= j < k < |at| ==> at[j] < at[k])
    && (forall i :: 0 <= i < |grants| && Trim(grants[i]) != "" ==> i in at)
  }

  lemma KeptLast(grants: seq<string>, kept: seq<string>, at: seq<nat>, last: string)
    requires KeptAt(grants, kept, at)
    ensures Trim(last) == "" ==> KeptAt(grants + [last], kept, at)
    ensures Trim(last) != "" ==> KeptAt(grants + [last], kept + [Lower(Trim(last))], at + [|grants|])
  {
    hide Trim, Lower;
    if Trim(last) != "" {
      assert (at + [|grants|])[|at|] == |grants|;
      forall i | 0 <= i < |grants + [last]| && Trim((grants + [last])[i]) != "" ensures i in at + [|grants|] {
        if i < |grants| { assert i in at; }
      }
    }
  }

  lemma {:induction false} GrantsSnoc(grants: seq<string>, last: string)
    ensures NormalGrants(grants + [last]) == NormalGrants(grants) + (if Trim(last) != "" then [Normal(last)] else [])
  {
    hide Trim, Normal;
    if grants == [] {
      assert grants + [last] == [last] && [last][1..] == [];
    } else {
      assert (grants + [last])[1..] == grants[1..] + [last];
      GrantsSnoc(grants[1..], last);
    }
  }

  /** Which of the grants are kept, and how: those that are not blank, in their order, each once, stripped
      and lower-cased. */
  lemma {:induction false} GrantsKept(grants: seq<string>) returns (at: seq<nat>)
    ensures KeptAt(grants, NormalGrants(grants), at)
    decreases |grants|
  {
    hide *;
    at := [];
    if grants == [] {
      NothingKept();
    } else {
      var before, last := grants[..|grants| - 1], grants[|grants| - 1];
      var sofar := GrantsKept(before);
      GrantsSnoc(before, last);
      KeptLast(before, NormalGrants(before), sofar, last);
      assert before + [last] == grants;
      NormalIs(last);
      assert NormalGrants(before) + [] == NormalGrants(before);
      at := if Trim(last) != "" then sofar + [|before|] else sofar;
    }
  }

  lemma NothingKept()
    ensures KeptAt([], NormalGrants([]), [])
  {
  }

  lemma NormalIs(s: string)
    ensures Normal(s) == Lower(Trim(s))
  {
  }

  /** Under which policy: the snapshot of the top level, or else of the inner context, with its hash in it. */
  lemma PolicyOf(g: Gateway, raw: Raw, o: Overrides)
    requires ValidGateway(g)
    ensures var i, sec, top := Ensure(g, raw, o), Context(raw), raw.top;
            var chosen := if top.policy != [] then top.policy else sec.policy;
            var hash := g.crypto.hash(StableStringify(CodePoints, Obj(Remove(chosen, "policy_snapshot_hash"))));
            && i.top == i.inner
            && (Get(chosen, "policy_snapshot_hash").Some? ==>
                  var given := TextOf(Get(chosen, "policy_snapshot_hash"));
                  i.inner.policy == chosen && i.policyHash == if given != "" then given else hash)
            && (Get(chosen, "policy_snapshot_hash") == None ==>
                  i.inner.policy == chosen + [Member("policy_snapshot_hash", Str(hash))] && i.policyHash == hash)
  {
    var chosen := ChosenPolicy(raw);
    EnsuredSettled(g, raw, o);
    if Get(chosen, "policy_snapshot_hash") == None { PolicyTexts(g, chosen); }
    hide Ensure, SubjectOf, Settled, Defaulted, StableStringify, Get, Remove, NormalGrants, ChosenGrants;
  }

  /** From which gateway: the context's own instance, else the one its metadata names, else this one. */
  lemma IssuedBy(g: Gateway, raw: Raw, o: Overrides)
    requires ValidGateway(g)
    ensures var sec, top := Context(raw), raw.top;
            Ensure(g, raw, o).inner.gatewayInstance ==
            FirstGiven([Trim(FirstGiven([sec.gatewayInstance, top.gatewayInstance, g.instance])),
                        Trim(FirstGiven([raw.metaInstance, sec.gatewayInstance, top.gatewayInstance, g.instance])),
                        g.instance])
  {
    var sec := Inner(raw);
    GivenOfThree(sec.gatewayInstance, raw.top.gatewayInstance, g.instance);
    GivenOfFour(raw.metaInstance, sec.gatewayInstance, raw.top.gatewayInstance, g.instance);
    GivenOfThree(Trim(Or(sec.gatewayInstance, Or(raw.top.gatewayInstance, g.instance))),
                 Trim(Or(raw.metaInstance, Or(sec.gatewayInstance, Or(raw.top.gatewayInstance, g.instance)))), g.instance);
    InstanceOf(g, raw, o);
    hide Trim, Ensure, FirstGiven;
  }

  lemma InstanceOf(g: Gateway, raw: Raw, o: Overrides)
    requires ValidGateway(g)
    ensures var sec, top := Inner(raw), raw.top;
            var own := Trim(Or(sec.gatewayInstance, Or(top.gatewayInstance, g.instance)));
            var named := Trim(Or(raw.metaInstance, Or(sec.gatewayInstance, Or(top.gatewayInstance, g.instance))));
            Ensure(g, raw, o).inner.gatewayInstance == Or(own, Or(named, g.instance))
  {
    var sec, top := Inner(raw), raw.top;
    TrimFixesTrimmed(g.instance);
    TrimIdempotent(Or(sec.gatewayInstance, Or(top.gatewayInstance, g.instance)));
    TrimIdempotent(Or(raw.metaInstance, Or(sec.gatewayInstance, Or(top.gatewayInstance, g.instance))));
    hide Trim, Normal, HashedPolicy, AgentType, NormalGrants;
  }

  lemma {:induction false} GetAppended(members: seq<Member>, key: string, value: Json)
    requires Get(members, key) == None
    ensures Get(members + [Member(key, value)], key) == Some(value)
  {
    if members != [] {
      GetAppended(members[1..], key, value);
      assert (members + [Member(key, value)])[1..] == members[1..] + [Member(key, value)];
    }
  }

  lemma PolicyTexts(g: Gateway, policy: seq<Member>)
    requires ValidGateway(g) && Get(policy, "policy_snapshot_hash") == None
    ensures TextOf(Get(HashedPolicy(g, policy), "policy_snapshot_hash")) == PolicyHash(g, policy) != ""
  {
    GetAppended(policy, "policy_snapshot_hash", Str(PolicyHash(g, policy)));
  }
}
