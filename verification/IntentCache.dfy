/** The intent-level response cache (zen_claw/agent/intent_cache.py): an ordered dictionary with
    least-recently-used eviction, a time to live per intent, and hit/miss/eviction counters. */
module IntentCaches {
  import opened Options
  import opened Text

  /** `f"{intent.lower()}:{digest}"`, with the digest of the normalised query kept as that text:
      the digest is taken to be collision free. */
  datatype Key = Key(intent: string, query: string)

  datatype Entry = Entry(content: string, expiresAt: int)

  datatype Slot = Slot(key: Key, entry: Entry)

  function Normalise(query: string): string {
    CollapseSpaces(Lower(Trim(query)))
  }

  function MakeKey(intent: string, query: string): Key {
    Key(Lower(intent), Normalise(query))
  }

  datatype Config = Config(maxsize: nat, ttls: map<string, int>, defaultTtl: nat)

  /** `max(1, int(maxsize))` and `max(0, int(default_ttl))` at construction. */
  function MakeConfig(maxsize: int, ttls: map<string, int>, defaultTtl: int): Config {
    Config(if maxsize > 1 then maxsize else 1, ttls, if defaultTtl > 0 then defaultTtl else 0)
  }

  function TtlFor(cfg: Config, intent: string): int {
    if Lower(intent) in cfg.ttls then cfg.ttls[Lower(intent)] else cfg.defaultTtl
  }

  /** The store, oldest use first, and the counters. */
  datatype State = State(store: seq<Slot>, hits: nat, misses: nat, evictions: nat)

  const EMPTY := State([], 0, 0, 0)

  function Find(store: seq<Slot>, key: Key): (i: nat)
    ensures i <= |store|
    ensures i < |store| ==> store[i].key == key
    ensures forall k :: 0 <= k < i ==> store[k].key != key
  {
    if store == [] || store[0].key == key then 0 else 1 + Find(store[1..], key)
  }

  function Drop(store: seq<Slot>, i: nat): seq<Slot>
    requires i < |store|
  {
    store[..i] + store[i + 1..]
  }

  // --- the operations on values ---

  function Get(cfg: Config, c: State, intent: string, query: string, now: int): (State, Option<string>) {
    var i := Find(c.store, MakeKey(intent, query));
    if TtlFor(cfg, intent) == 0 || i == |c.store| then (c.(misses := c.misses + 1), None)
    else if now > c.store[i].entry.expiresAt then (c.(store := Drop(c.store, i), misses := c.misses + 1), None)
    else (c.(store := Drop(c.store, i) + [c.store[i]], hits := c.hits + 1), Some(c.store[i].entry.content))
  }

  /** How many entries the eviction loop removes before a new key is stored. */
  function Surplus(cfg: Config, size: nat): nat {
    if size >= cfg.maxsize then size - cfg.maxsize + 1 else 0
  }

  function PutEntry(cfg: Config, c: State, intent: string, query: string, content: string, now: int): State {
    var ttl := TtlFor(cfg, intent);
    if ttl == 0 then c
    else
      var key := MakeKey(intent, query);
      var i := Find(c.store, key);
      var slot := Slot(key, Entry(content, now + ttl));
      if i < |c.store| then c.(store := Drop(c.store, i) + [slot])
      else
        var n := if Surplus(cfg, |c.store|) <= |c.store| then Surplus(cfg, |c.store|) else |c.store|;
        c.(store := c.store[n..] + [slot], evictions := c.evictions + n)
  }

  function Invalidate(c: State, intent: string, query: string): (State, bool) {
    var i := Find(c.store, MakeKey(intent, query));
    if i < |c.store| then (c.(store := Drop(c.store, i)), true) else (c, false)
  }

  /** The cache object. */
  class IntentCache {
    const cfg: Config
    var store: seq<Slot>
    var hits: nat
    var misses: nat
    var evictions: nat

    ghost function View(): State
      reads this
    {
      State(store, hits, misses, evictions)
    }

    constructor (maxsize: int, ttls: map<string, int>, defaultTtl: int)
      ensures cfg == MakeConfig(maxsize, ttls, defaultTtl) && cfg.maxsize >= 1 && View() == EMPTY
      ensures cfg.maxsize == (if maxsize <= 1 then 1 else maxsize) && cfg.ttls == ttls
      ensures cfg.defaultTtl == (if defaultTtl <= 0 then 0 else defaultTtl)
      ensures store == [] && hits == 0 && misses == 0 && evictions == 0
    {
      cfg := MakeConfig(maxsize, ttls, defaultTtl);
      store, hits, misses, evictions := [], 0, 0, 0;
    }

    method Lookup(intent: string, query: string, now: int) returns (content: Option<string>)
      modifies this
      ensures (View(), content) == Get(cfg, old(View()), intent, query, now)
    {
      if TtlFor(cfg, intent) == 0 {
        misses := misses + 1;
        return None;
      }
      var i := Find(store, MakeKey(intent, query));
      if i == |store| {
        misses := misses + 1;
        return None;
      }
      var slot := store[i];
      store := Drop(store, i);
      if now > slot.entry.expiresAt {
        misses := misses + 1;
        return None;
      }
      store := store + [slot];
      hits := hits + 1;
      return Some(slot.entry.content);
    }

    method Put(intent: string, query: string, content: string, now: int)
      requires cfg.maxsize >= 1
      modifies this
      ensures View() == PutEntry(cfg, old(View()), intent, query, content, now)
    {
      var ttl := TtlFor(cfg, intent);
      if ttl == 0 { return; }
      var key := MakeKey(intent, query);
      var slot := Slot(key, Entry(content, now + ttl));
      var i := Find(store, key);
      if i < |store| {
        store := Drop(store, i) + [slot];
      } else {
        while |store| >= cfg.maxsize
          invariant |store| <= |old(store)| && store == old(store)[|old(store)| - |store|..]
          invariant evictions == old(evictions) + |old(store)| - |store|
          invariant |old(store)| - |store| <= Surplus(cfg, |old(store)|)
          invariant hits == old(hits) && misses == old(misses)
          decreases |store|
        {
          store := store[1..];
          evictions := evictions + 1;
        }
        store := store + [slot];
      }
    }

    method Forget(intent: string, query: string) returns (existed: bool)
      modifies this
      ensures (View(), existed) == Invalidate(old(View()), intent, query)
    {
      var i := Find(store, MakeKey(intent, query));
      if i == |store| { return false; }
      store := Drop(store, i);
      return true;
    }

    method Clear()
      modifies this
      ensures View() == EMPTY
    {
      store, hits, misses, evictions := [], 0, 0, 0;
    }
  }

  // --- whole runs ---

  datatype Op =
    | GetOp(intent: string, query: string, now: int)
    | PutOp(intent: string, query: string, content: string, now: int)
    | InvalidateOp(intent: string, query: string)
    | ClearOp

  function Apply(cfg: Config, c: State, op: Op): State {
    match op
    case GetOp(intent, query, now) => Get(cfg, c, intent, query, now).0
    case PutOp(intent, query, content, now) => PutEntry(cfg, c, intent, query, content, now)
    case InvalidateOp(intent, query) => Invalidate(c, intent, query).0
    case ClearOp => EMPTY
  }

  /** What the run is judged by: the last write per key since it was invalidated or cleared, the
      time each key was last used, and tallies since the last clear. */
  datatype History = History(latest: map<Key, Entry>, lastUse: map<Key, nat>, clock: nat,
                             gets: nat, newPuts: nat, expiries: nat, invalidations: nat)

  const NO_HISTORY := History(map[], map[], 0, 0, 0, 0, 0)

  predicate Hits(cfg: Config, c: State, op: Op) {
    op.GetOp? && Get(cfg, c, op.intent, op.query, op.now).1.Some?
  }

  /** The key an operation uses: a stored put or a hit. */
  predicate Uses(cfg: Config, c: State, op: Op, key: Key) {
    || (op.PutOp? && TtlFor(cfg, op.intent) != 0 && key == MakeKey(op.intent, op.query))
    || (Hits(cfg, c, op) && key == MakeKey(op.intent, op.query))
  }

  predicate ExpiresEntry(cfg: Config, c: State, op: Op) {
    op.GetOp? && TtlFor(cfg, op.intent) != 0 &&
    var i := Find(c.store, MakeKey(op.intent, op.query));
    i < |c.store| && op.now > c.store[i].entry.expiresAt
  }

  function Note(cfg: Config, h: History, c: State, op: Op): History {
    var t := h.clock + 1;
    match op
    case GetOp(intent, query, now) =>
      History(h.latest, if Hits(cfg, c, op) then h.lastUse[MakeKey(intent, query) := t] else h.lastUse, t,
              h.gets + 1, h.newPuts, if ExpiresEntry(cfg, c, op) then h.expiries + 1 else h.expiries, h.invalidations)
    case PutOp(intent, query, content, now) =>
      if TtlFor(cfg, intent) == 0 then h.(clock := t)
      else
        var key := MakeKey(intent, query);
        History(h.latest[key := Entry(content, now + TtlFor(cfg, intent))], h.lastUse[key := t], t, h.gets,
                if Find(c.store, key) == |c.store| then h.newPuts + 1 else h.newPuts, h.expiries, h.invalidations)
    case InvalidateOp(intent, query) =>
      History(h.latest - {MakeKey(intent, query)}, h.lastUse, t, h.gets, h.newPuts, h.expiries,
              if Find(c.store, MakeKey(intent, query)) < |c.store| then h.invalidations + 1 else h.invalidations)
    case ClearOp => NO_HISTORY.(clock := t)
  }

  function Run(cfg: Config, ops: seq<Op>): (State, History) {
    if ops == [] then (EMPTY, NO_HISTORY)
    else
      var (c, h) := Run(cfg, ops[..|ops| - 1]);
      (Apply(cfg, c, ops[|ops| - 1]), Note(cfg, h, c, ops[|ops| - 1]))
  }

  ghost predicate DistinctSlots(store: seq<Slot>) {
    forall i, j :: 0 <= i < j < |store| ==> store[i].key != store[j].key
  }

  /** Every stored entry is the last write of its key, and the store is in order of last use. */
  ghost predicate Tidy(s: seq<Slot>, h: History) {
    && DistinctSlots(s)
    && (forall i :: 0 <= i < |s| ==> s[i].key in h.latest && h.latest[s[i].key] == s[i].entry)
    && (forall i :: 0 <= i < |s| ==> s[i].key in h.lastUse && h.lastUse[s[i].key] <= h.clock)
    && (forall i, j :: 0 <= i < j < |s| ==> h.lastUse[s[i].key] < h.lastUse[s[j].key])
  }

  /** Within capacity, tidy, and the books balance. */
  ghost predicate Consistent(cfg: Config, c: State, h: History) {
    && |c.store| <= cfg.maxsize && Tidy(c.store, h)
    && c.hits + c.misses == h.gets
    && h.newPuts == |c.store| + c.evictions + h.expiries + h.invalidations
  }

  ghost predicate Absent(s: seq<Slot>, key: Key) {
    forall k :: 0 <= k < |s| ==> s[k].key != key
  }

  lemma DropTidy(s: seq<Slot>, h: History, i: nat)
    requires Tidy(s, h) && i < |s|
    ensures Tidy(Drop(s, i), h) && Absent(Drop(s, i), s[i].key) && |Drop(s, i)| == |s| - 1
  {
    var d := Drop(s, i);
    forall k | 0 <= k < |d| ensures d[k] == s[if k < i then k else k + 1] && d[k].key != s[i].key { }
    forall k, l | 0 <= k < l < |d|
      ensures d[k].key != d[l].key && h.lastUse[d[k].key] < h.lastUse[d[l].key]
    {
      assert d[k] == s[if k < i then k else k + 1] && d[l] == s[if l < i then l else l + 1];
    }
  }

  lemma SuffixTidy(s: seq<Slot>, h: History, n: nat)
    requires Tidy(s, h) && n <= |s|
    ensures Tidy(s[n..], h) && |s[n..]| == |s| - n
    ensures forall key :: Absent(s, key) ==> Absent(s[n..], key)
  {
    var d := s[n..];
    forall k | 0 <= k < |d| ensures d[k] == s[n + k] { }
  }

  /** A used slot moves to the end with the newest time. */
  lemma AppendTidy(s: seq<Slot>, h: History, slot: Slot, h': History)
    requires Tidy(s, h) && Absent(s, slot.key)
    requires h'.latest == h.latest[slot.key := slot.entry] && h'.clock == h.clock + 1
    requires h'.lastUse == h.lastUse[slot.key := h'.clock]
    ensures Tidy(s + [slot], h')
  {
    var e := s + [slot];
    forall k | 0 <= k < |s| ensures e[k] == s[k] { }
    assert e[|s|] == slot;
  }

  lemma WiderHistoryTidy(s: seq<Slot>, h: History, h': History)
    requires Tidy(s, h) && h'.lastUse == h.lastUse && h'.clock >= h.clock
    requires forall i :: 0 <= i < |s| ==> s[i].key in h'.latest && h'.latest[s[i].key] == h.latest[s[i].key]
    ensures Tidy(s, h')
  {
  }

  lemma GetKeepsConsistent(cfg: Config, c: State, h: History, op: Op)
    requires op.GetOp? && Consistent(cfg, c, h)
    ensures Consistent(cfg, Apply(cfg, c, op), Note(cfg, h, c, op))
  {
    var i := Find(c.store, MakeKey(op.intent, op.query));
    var h' := Note(cfg, h, c, op);
    hide Tidy, MakeKey, TtlFor;
    if i < |c.store| {
      DropTidy(c.store, h, i);
      if Hits(cfg, c, op) {
        StoredIsLatest(c.store, h, i);
        AppendTidy(Drop(c.store, i), h, c.store[i], h');
      } else {
        SameLatest(Drop(c.store, i), h, h');
        SameLatest(c.store, h, h');
      }
    } else {
      SameLatest(c.store, h, h');
    }
  }

  lemma StoredIsLatest(s: seq<Slot>, h: History, i: nat)
    requires Tidy(s, h) && i < |s|
    ensures h.latest[s[i].key := s[i].entry] == h.latest
  {
  }

  lemma SameLatest(s: seq<Slot>, h: History, h': History)
    requires h'.lastUse == h.lastUse && h'.clock >= h.clock && h'.latest == h.latest
    ensures Tidy(s, h) ==> Tidy(s, h')
  {
  }

  lemma RefreshKeepsConsistent(cfg: Config, c: State, h: History, op: Op, i: nat)
    requires op.PutOp? && Consistent(cfg, c, h) && TtlFor(cfg, op.intent) != 0
    requires i == Find(c.store, MakeKey(op.intent, op.query)) < |c.store|
    ensures Consistent(cfg, Apply(cfg, c, op), Note(cfg, h, c, op))
  {
    var slot := Slot(MakeKey(op.intent, op.query), Entry(op.content, op.now + TtlFor(cfg, op.intent)));
    hide Tidy, MakeKey, TtlFor, Absent, Drop;
    DropTidy(c.store, h, i);
    AppendTidy(Drop(c.store, i), h, slot, Note(cfg, h, c, op));
  }

  lemma InsertedShape(cfg: Config, c: State, h: History, op: Op)
    requires op.PutOp? && TtlFor(cfg, op.intent) != 0 && |c.store| <= cfg.maxsize && cfg.maxsize >= 1
    requires Find(c.store, MakeKey(op.intent, op.query)) == |c.store|
    ensures Surplus(cfg, |c.store|) <= |c.store|
    ensures var key := MakeKey(op.intent, op.query);
            var slot := Slot(key, Entry(op.content, op.now + TtlFor(cfg, op.intent)));
            var n := Surplus(cfg, |c.store|);
            && Absent(c.store, key)
            && Apply(cfg, c, op) == State(c.store[n..] + [slot], c.hits, c.misses, c.evictions + n)
            && Note(cfg, h, c, op) == History(h.latest[key := slot.entry], h.lastUse[key := h.clock + 1], h.clock + 1,
                                              h.gets, h.newPuts + 1, h.expiries, h.invalidations)
  {
    hide MakeKey, TtlFor;
  }

  lemma InsertKeepsConsistent(cfg: Config, c: State, h: History, op: Op)
    requires op.PutOp? && Consistent(cfg, c, h) && TtlFor(cfg, op.intent) != 0 && cfg.maxsize >= 1
    requires Find(c.store, MakeKey(op.intent, op.query)) == |c.store|
    ensures Consistent(cfg, Apply(cfg, c, op), Note(cfg, h, c, op))
  {
    hide Tidy, MakeKey, TtlFor, Absent, Apply, Note, Find;
    InsertedShape(cfg, c, h, op);
    var slot := Slot(MakeKey(op.intent, op.query), Entry(op.content, op.now + TtlFor(cfg, op.intent)));
    var n := Surplus(cfg, |c.store|);
    SuffixTidy(c.store, h, n);
    AppendTidy(c.store[n..], h, slot, Note(cfg, h, c, op));
  }

  lemma PutKeepsConsistent(cfg: Config, c: State, h: History, op: Op)
    requires cfg.maxsize >= 1 && op.PutOp? && Consistent(cfg, c, h)
    ensures Consistent(cfg, Apply(cfg, c, op), Note(cfg, h, c, op))
  {
    hide Tidy, MakeKey;
    var i := Find(c.store, MakeKey(op.intent, op.query));
    if TtlFor(cfg, op.intent) == 0 {
      SameLatest(c.store, h, Note(cfg, h, c, op));
    } else if i < |c.store| {
      RefreshKeepsConsistent(cfg, c, h, op, i);
    } else {
      InsertKeepsConsistent(cfg, c, h, op);
    }
  }

  lemma InvalidateKeepsConsistent(cfg: Config, c: State, h: History, op: Op)
    requires op.InvalidateOp? && Consistent(cfg, c, h)
    ensures Consistent(cfg, Apply(cfg, c, op), Note(cfg, h, c, op))
  {
    var i := Find(c.store, MakeKey(op.intent, op.query));
    if i < |c.store| {
      DropTidy(c.store, h, i);
      WiderHistoryTidy(Drop(c.store, i), h, Note(cfg, h, c, op));
    } else {
      WiderHistoryTidy(c.store, h, Note(cfg, h, c, op));
    }
  }

  lemma ApplyKeepsConsistent(cfg: Config, c: State, h: History, op: Op)
    requires cfg.maxsize >= 1 && Consistent(cfg, c, h)
    ensures Consistent(cfg, Apply(cfg, c, op), Note(cfg, h, c, op))
  {
    match op
    case GetOp(_, _, _) => GetKeepsConsistent(cfg, c, h, op);
    case PutOp(_, _, _, _) => PutKeepsConsistent(cfg, c, h, op);
    case InvalidateOp(_, _) => InvalidateKeepsConsistent(cfg, c, h, op);
    case ClearOp =>
  }

  /** Every run: the size bound, agreement with the last-write map, use order, and both
      conservation laws (gets = hits + misses; new-key puts = size + evictions + expiries +
      invalidations). */
  lemma {:induction false} AlwaysConsistent(cfg: Config, ops: seq<Op>)
    requires cfg.maxsize >= 1
    ensures Consistent(cfg, Run(cfg, ops).0, Run(cfg, ops).1)
  {
    if ops != [] {
      var (c, h) := Run(cfg, ops[..|ops| - 1]);
      AlwaysConsistent(cfg, ops[..|ops| - 1]);
      ApplyKeepsConsistent(cfg, c, h, ops[|ops| - 1]);
    }
  }

  /** A hit after any run returns the latest put for that intent and normalised query since it
      was invalidated or the cache cleared, and that put has not expired. */
  lemma HitIsLatest(cfg: Config, ops: seq<Op>, intent: string, query: string, now: int)
    requires cfg.maxsize >= 1
    ensures var (c, h) := Run(cfg, ops);
            var content := Get(cfg, c, intent, query, now).1;
            content.Some? ==>
              && MakeKey(intent, query) in h.latest
              && content.value == h.latest[MakeKey(intent, query)].content
              && now <= h.latest[MakeKey(intent, query)].expiresAt
  {
    AlwaysConsistent(cfg, ops);
  }

  /** The counters count what they say: look-ups that were answered, look-ups that were not, and stored answers
      that made room for another. */
  lemma CountersCount(cfg: Config, c: State, op: Op)
    requires cfg.maxsize >= 1 && |c.store| <= cfg.maxsize
    ensures var after := Apply(cfg, c, op);
            && (op.ClearOp? ==> after == State([], 0, 0, 0))
            && (op.GetOp? ==>
                  var hit := Get(cfg, c, op.intent, op.query, op.now).1.Some?;
                  && after.hits == (if hit then c.hits + 1 else c.hits)
                  && after.misses == (if hit then c.misses else c.misses + 1) && after.evictions == c.evictions)
            && (op.PutOp? ==>
                  && after.hits == c.hits && after.misses == c.misses
                  && after.evictions - c.evictions == |c.store| + (if Stores(cfg, c, op) then 1 else 0) - |after.store|)
            && (op.InvalidateOp? ==>
                  after.hits == c.hits && after.misses == c.misses && after.evictions == c.evictions)
  {
    hide MakeKey, TtlFor;
  }

  /** A put under a new key. */
  predicate Stores(cfg: Config, c: State, op: Op) {
    op.PutOp? && TtlFor(cfg, op.intent) != 0 && Find(c.store, MakeKey(op.intent, op.query)) == |c.store|
  }

  // --- when exactly a look-up hits ---

  /** The same intent, whatever its case, and the same words, whatever their case and spacing. */
  ghost predicate SameQuestion(intent: string, query: string, intent': string, query': string) {
    Lower(intent) == Lower(intent') && Words(Lower(query)) == Words(Lower(query'))
  }

  lemma SameKeyIff(intent: string, query: string, intent': string, query': string)
    ensures MakeKey(intent, query) == MakeKey(intent', query') <==> SameQuestion(intent, query, intent', query')
  {
    LowerTrimCommute(query);
    LowerTrimCommute(query');
    SameWordsIff(Lower(query), Lower(query'));
    hide Lower, Trim, CollapseSpaces, Words;
  }

  /** Seconds an answer to the intent lives; 0 turns caching off. */
  ghost function Lifetime(cfg: Config, intent: string): int {
    var name := Lower(intent);
    if name in cfg.ttls then cfg.ttls[name] else cfg.defaultTtl
  }

  ghost predicate Writes(cfg: Config, op: Op, intent: string, query: string) {
    op.PutOp? && SameQuestion(op.intent, op.query, intent, query) && Lifetime(cfg, intent) != 0
  }

  /** The operation ends the life of what is stored for the question and expires at `until`: another write, an
      invalidation, a clear, a look-up after the expiry, or an eviction. */
  ghost predicate Dislodges(cfg: Config, c: State, op: Op, intent: string, query: string, until: int) {
    || Writes(cfg, op, intent, query)
    || (op.InvalidateOp? && SameQuestion(op.intent, op.query, intent, query))
    || op.ClearOp?
    || (op.GetOp? && SameQuestion(op.intent, op.query, intent, query) && op.now > until)
    || Evicts(cfg, c, op, MakeKey(intent, query))
  }

  /** Nothing after position `k` dislodges what it stored until then. */
  ghost predicate Undisturbed(cfg: Config, ops: seq<Op>, k: nat, intent: string, query: string, until: int) {
    forall j :: k < j < |ops| ==> !Dislodges(cfg, Run(cfg, ops[..j]).0, ops[j], intent, query, until)
  }

  /** Operation `k` stored an answer to the question, and nothing has dislodged it since. */
  ghost predicate StoredAt(cfg: Config, ops: seq<Op>, k: nat, intent: string, query: string) {
    && k < |ops| && Writes(cfg, ops[k], intent, query)
    && Undisturbed(cfg, ops, k, intent, query, ops[k].now + Lifetime(cfg, intent))
  }

  ghost predicate Holds(s: seq<Slot>, key: Key, e: Entry) {
    exists i :: 0 <= i < |s| && s[i] == Slot(key, e)
  }

  lemma HoldsFound(s: seq<Slot>, key: Key, e: Entry)
    requires DistinctSlots(s)
    ensures Holds(s, key, e) <==> Find(s, key) < |s| && s[Find(s, key)].entry == e
  {
    if Find(s, key) < |s| { assert s[Find(s, key)] == Slot(key, s[Find(s, key)].entry); }
  }

  lemma HoldsDropped(s: seq<Slot>, i: nat, key: Key, e: Entry)
    requires i < |s| && DistinctSlots(s)
    ensures Holds(Drop(s, i), key, e) <==> Holds(s, key, e) && s[i].key != key
  {
    var d := Drop(s, i);
    forall k | 0 <= k < |d| ensures d[k] == s[if k < i then k else k + 1] { }
    if j :| 0 <= j < |s| && s[j] == Slot(key, e) && j != i { assert d[if j < i then j else j - 1] == Slot(key, e); }
  }

  lemma HoldsAppended(s: seq<Slot>, slot: Slot, key: Key, e: Entry)
    ensures Holds(s + [slot], key, e) <==> Holds(s, key, e) || slot == Slot(key, e)
  {
    if j :| 0 <= j < |s| && s[j] == Slot(key, e) { assert (s + [slot])[j] == Slot(key, e); }
    if slot == Slot(key, e) { assert (s + [slot])[|s|] == Slot(key, e); }
  }

  lemma GetHolds(cfg: Config, c: State, op: Op, intent: string, query: string, e: Entry)
    requires op.GetOp? && DistinctSlots(c.store) && Lifetime(cfg, intent) != 0
    ensures Holds(Apply(cfg, c, op).store, MakeKey(intent, query), e) <==>
            Holds(c.store, MakeKey(intent, query), e)
            && !(SameQuestion(op.intent, op.query, intent, query) && op.now > e.expiresAt)
  {
    SameKeyIff(op.intent, op.query, intent, query);
    if SameQuestion(op.intent, op.query, intent, query) { TtlShared(cfg, op, intent, query); }
    var key, i := MakeKey(intent, query), Find(c.store, MakeKey(op.intent, op.query));
    hide MakeKey, SameQuestion, Lower, Holds, Find, TtlFor, Lifetime;
    HoldsFound(c.store, key, e);
    if i < |c.store| {
      HoldsDropped(c.store, i, key, e);
      HoldsAppended(Drop(c.store, i), c.store[i], key, e);
      hide Drop, DistinctSlots;
    }
  }

  lemma TtlShared(cfg: Config, op: Op, intent: string, query: string)
    requires !op.ClearOp? && SameQuestion(op.intent, op.query, intent, query)
    ensures TtlFor(cfg, op.intent) == Lifetime(cfg, intent)
  {
    hide Lower, Words;
  }

  lemma InvalidateHolds(cfg: Config, c: State, op: Op, intent: string, query: string, e: Entry)
    requires op.InvalidateOp? && DistinctSlots(c.store)
    ensures Holds(Apply(cfg, c, op).store, MakeKey(intent, query), e) <==>
            Holds(c.store, MakeKey(intent, query), e) && !SameQuestion(op.intent, op.query, intent, query)
  {
    SameKeyIff(op.intent, op.query, intent, query);
    var key, i := MakeKey(intent, query), Find(c.store, MakeKey(op.intent, op.query));
    hide MakeKey, SameQuestion, Lower, Holds, Find;
    HoldsFound(c.store, key, e);
    if i < |c.store| { HoldsDropped(c.store, i, key, e); }
  }

  /** A put stores its own answer, and what it neither replaces nor evicts stays. */
  lemma PutHolds(cfg: Config, c: State, op: Op, intent: string, query: string, e: Entry)
    requires op.PutOp? && DistinctSlots(c.store)
    ensures Holds(Apply(cfg, c, op).store, MakeKey(intent, query), e) <==>
            || (Writes(cfg, op, intent, query) && e == Entry(op.content, op.now + Lifetime(cfg, intent)))
            || (Holds(c.store, MakeKey(intent, query), e) && !Writes(cfg, op, intent, query)
                && !Evicts(cfg, c, op, MakeKey(intent, query)))
  {
    SameKeyIff(op.intent, op.query, intent, query);
    if SameQuestion(op.intent, op.query, intent, query) { TtlShared(cfg, op, intent, query); }
    var key, stored := MakeKey(intent, query), MakeKey(op.intent, op.query);
    var ttl := TtlFor(cfg, op.intent);
    var slot := Slot(stored, Entry(op.content, op.now + ttl));
    hide MakeKey, SameQuestion, Lower, Lifetime, TtlFor, Holds;
    if ttl == 0 {
      assert Apply(cfg, c, op).store == c.store;
    } else if Find(c.store, stored) < |c.store| {
      RefreshHolds(cfg, c, op, slot, key, e);
      hide Apply, Evicts, Find;
    } else {
      SuffixHolds(cfg, c, op, slot, key, e);
      hide Apply, Evicts, Find;
      HoldsFoundSome(c.store, key, e);
    }
  }

  lemma HoldsFoundSome(s: seq<Slot>, key: Key, e: Entry)
    requires DistinctSlots(s)
    ensures Holds(s, key, e) ==> Find(s, key) < |s|
  {
    HoldsFound(s, key, e);
  }

  lemma RefreshHolds(cfg: Config, c: State, op: Op, slot: Slot, key: Key, e: Entry)
    requires op.PutOp? && DistinctSlots(c.store) && TtlFor(cfg, op.intent) != 0
    requires slot == Slot(MakeKey(op.intent, op.query), Entry(op.content, op.now + TtlFor(cfg, op.intent)))
    requires Find(c.store, slot.key) < |c.store|
    ensures Holds(Apply(cfg, c, op).store, key, e) <==> slot == Slot(key, e) || (Holds(c.store, key, e) && slot.key != key)
    ensures !Evicts(cfg, c, op, key)
  {
    var i := Find(c.store, slot.key);
    var after := Apply(cfg, c, op).store;
    hide MakeKey, TtlFor, Lower, Holds;
    assert after == Drop(c.store, i) + [slot];
    HoldsDropped(c.store, i, key, e);
    HoldsAppended(Drop(c.store, i), slot, key, e);
    if Find(c.store, key) < |c.store| { RefreshKeepsKeys(c.store, i, slot, Find(c.store, key)); }
    AbsentNotFound(after, key);
    hide Drop, Find;
  }

  lemma SuffixHolds(cfg: Config, c: State, op: Op, slot: Slot, key: Key, e: Entry)
    requires op.PutOp? && DistinctSlots(c.store) && TtlFor(cfg, op.intent) != 0
    requires slot == Slot(MakeKey(op.intent, op.query), Entry(op.content, op.now + TtlFor(cfg, op.intent)))
    requires Find(c.store, slot.key) == |c.store|
    ensures Holds(Apply(cfg, c, op).store, key, e) <==>
            slot == Slot(key, e) || (Holds(c.store, key, e) && !Evicts(cfg, c, op, key))
  {
    var after := Apply(cfg, c, op).store;
    var n := if Surplus(cfg, |c.store|) <= |c.store| then Surplus(cfg, |c.store|) else |c.store|;
    hide MakeKey, TtlFor, Lower, Surplus;
    assert after == c.store[n..] + [slot];
    HoldsAppended(c.store[n..], slot, key, e);
    SuffixHasFound(c.store, n, slot, key, e);
    AbsentNotFound(after, key);
    AbsentNotFound(c.store, slot.key);
    hide Find;
  }

  lemma SuffixHasFound(s: seq<Slot>, n: nat, slot: Slot, key: Key, e: Entry)
    requires n <= |s| && DistinctSlots(s) && Absent(s, slot.key)
    ensures Holds(s[n..], key, e) <==> Holds(s, key, e) && !Absent(s[n..] + [slot], key)
    ensures Holds(s, key, e) ==> Find(s, key) < |s| && key != slot.key
  {
    HoldsFound(s, key, e);
    hide Find;
    var t := s[n..];
    if k :| 0 <= k < |t| && t[k] == Slot(key, e) {
      assert s[n + k] == Slot(key, e) && (t + [slot])[k] == t[k];
    }
    if i :| 0 <= i < |s| && s[i] == Slot(key, e) {
      if i >= n {
        assert t[i - n] == Slot(key, e);
      } else {
        assert Absent(t + [slot], key) by { hide Holds; OnlyBefore(s, n, i, slot); }
      }
    }
  }

  lemma OnlyBefore(s: seq<Slot>, n: nat, i: nat, slot: Slot)
    requires i < n <= |s| && DistinctSlots(s) && s[i].key != slot.key
    ensures Absent(s[n..] + [slot], s[i].key)
  {
    forall k | 0 <= k < |s[n..] + [slot]| ensures (s[n..] + [slot])[k].key != s[i].key {
      if k < |s| - n { assert (s[n..] + [slot])[k] == s[n + k]; }
    }
  }

  /** One operation, seen from one question: what is stored for it afterwards. */
  lemma ApplyHolds(cfg: Config, c: State, op: Op, intent: string, query: string, e: Entry)
    requires DistinctSlots(c.store) && Lifetime(cfg, intent) != 0
    ensures Holds(Apply(cfg, c, op).store, MakeKey(intent, query), e) <==>
            || (Writes(cfg, op, intent, query) && e == Entry(op.content, op.now + Lifetime(cfg, intent)))
            || (Holds(c.store, MakeKey(intent, query), e) && !Dislodges(cfg, c, op, intent, query, e.expiresAt))
  {
    hide Apply, MakeKey, Lifetime, SameQuestion, Evicts, Holds;
    OnlyPutsEvict(cfg, c, op, MakeKey(intent, query));
    match op {
      case GetOp(_, _, _) => GetHolds(cfg, c, op, intent, query, e);
      case PutOp(_, _, _, _) => PutHolds(cfg, c, op, intent, query, e);
      case InvalidateOp(_, _) => InvalidateHolds(cfg, c, op, intent, query, e);
      case ClearOp => NothingHeld(cfg, c, MakeKey(intent, query), e);
    }
  }

  lemma OnlyPutsEvict(cfg: Config, c: State, op: Op, key: Key)
    ensures Evicts(cfg, c, op, key) ==> op.PutOp?
  {
  }

  lemma NothingHeld(cfg: Config, c: State, key: Key, e: Entry)
    ensures !Holds(Apply(cfg, c, ClearOp).store, key, e)
  {
  }

  lemma StoredSnoc(cfg: Config, ops: seq<Op>, k: nat, intent: string, query: string)
    requires ops != [] && k < |ops|
    ensures var before, last := ops[..|ops| - 1], ops[|ops| - 1];
            StoredAt(cfg, ops, k, intent, query) <==>
            || (k == |before| && Writes(cfg, last, intent, query))
            || (StoredAt(cfg, before, k, intent, query)
                && !Dislodges(cfg, Run(cfg, before).0, last, intent, query, ops[k].now + Lifetime(cfg, intent)))
  {
    OnePut(cfg, ops[k], intent, query);
    var before := ops[..|ops| - 1];
    hide Dislodges, Writes, Run, Lifetime;
    if k >= |before| { assert k == |before|; }
    if k < |before| {
      assert before[k] == ops[k];
      var until := if ops[k].PutOp? then ops[k].now + Lifetime(cfg, intent) else 0;
      UndisturbedSnoc(cfg, ops, k, intent, query, until);
    }
  }

  lemma UndisturbedSnoc(cfg: Config, ops: seq<Op>, k: nat, intent: string, query: string, until: int)
    requires ops != [] && k < |ops| - 1
    ensures var before := ops[..|ops| - 1];
            Undisturbed(cfg, ops, k, intent, query, until) <==>
            && Undisturbed(cfg, before, k, intent, query, until)
            && !Dislodges(cfg, Run(cfg, before).0, ops[|before|], intent, query, until)
  {
    hide Dislodges, Run;
    var before := ops[..|ops| - 1];
    assert ops[..|before|] == before;
    forall j | k < j < |before| ensures before[..j] == ops[..j] && before[j] == ops[j] { }
    if Undisturbed(cfg, before, k, intent, query, until)
      && !Dislodges(cfg, Run(cfg, before).0, ops[|before|], intent, query, until) {
      forall j | k < j < |ops| ensures !Dislodges(cfg, Run(cfg, ops[..j]).0, ops[j], intent, query, until) {
        if j < |before| { assert before[..j] == ops[..j] && before[j] == ops[j]; }
      }
    }
  }

  /** A put of the question, still in place, left this entry. */
  ghost predicate LeftBy(cfg: Config, ops: seq<Op>, k: nat, intent: string, query: string, e: Entry) {
    && k < |ops| && StoredAt(cfg, ops, k, intent, query)
    && e == Entry(ops[k].content, ops[k].now + Lifetime(cfg, intent))
  }

  lemma LeftSnoc(cfg: Config, ops: seq<Op>, k: nat, intent: string, query: string, e: Entry)
    requires ops != [] && k < |ops|
    ensures var before, last := ops[..|ops| - 1], ops[|ops| - 1];
            LeftBy(cfg, ops, k, intent, query, e) <==>
            || (k == |before| && Writes(cfg, last, intent, query)
                && e == Entry(last.content, last.now + Lifetime(cfg, intent)))
            || (LeftBy(cfg, before, k, intent, query, e)
                && !Dislodges(cfg, Run(cfg, before).0, last, intent, query, e.expiresAt))
  {
    StoredSnoc(cfg, ops, k, intent, query);
    StoresWrite(cfg, ops, k, intent, query);
    hide Dislodges, Run, Lifetime, StoredAt;
    var before := ops[..|ops| - 1];
    if k < |before| { assert before[k] == ops[k]; }
  }

  lemma StoresWrite(cfg: Config, ops: seq<Op>, k: nat, intent: string, query: string)
    requires ops != [] && k < |ops|
    ensures StoredAt(cfg, ops, k, intent, query) ==> ops[k].PutOp?
    ensures StoredAt(cfg, ops[..|ops| - 1], k, intent, query) ==> k < |ops| - 1 && ops[..|ops| - 1][k] == ops[k] && ops[k].PutOp?
  {
  }

  /** What the cache holds for a question after any run. */
  lemma {:induction false} HeldIff(cfg: Config, ops: seq<Op>, intent: string, query: string, e: Entry)
    requires cfg.maxsize >= 1 && Lifetime(cfg, intent) != 0
    ensures Holds(Run(cfg, ops).0.store, MakeKey(intent, query), e) <==>
            exists k: nat :: LeftBy(cfg, ops, k, intent, query, e)
  {
    if ops == [] {
      hide StoredAt, MakeKey;
    } else {
      var before, last := ops[..|ops| - 1], ops[|ops| - 1];
      var c := Run(cfg, before).0;
      AlwaysConsistent(cfg, before);
      assert DistinctSlots(c.store);
      assert Run(cfg, ops).0 == Apply(cfg, c, last);
      hide *;
      HeldIff(cfg, before, intent, query, e);
      ApplyHolds(cfg, c, last, intent, query, e);
      LeftNext(cfg, ops, intent, query, e);
    }
  }

  lemma LeftNext(cfg: Config, ops: seq<Op>, intent: string, query: string, e: Entry)
    requires ops != []
    ensures var before, last := ops[..|ops| - 1], ops[|ops| - 1];
            (exists k: nat :: LeftBy(cfg, ops, k, intent, query, e)) <==>
            || (Writes(cfg, last, intent, query) && e == Entry(last.content, last.now + Lifetime(cfg, intent)))
            || ((exists k: nat :: LeftBy(cfg, before, k, intent, query, e))
                && !Dislodges(cfg, Run(cfg, before).0, last, intent, query, e.expiresAt))
  {
    hide *;
    var before, last := ops[..|ops| - 1], ops[|ops| - 1];
    OnePut(cfg, last, intent, query);
    LeftWithin(cfg, before, intent, query, e);
    LeftWithin(cfg, ops, intent, query, e);
    LeftSnoc(cfg, ops, |before|, intent, query, e);
    if k: nat :| LeftBy(cfg, ops, k, intent, query, e) { LeftSnoc(cfg, ops, k, intent, query, e); }
    if k: nat :| LeftBy(cfg, before, k, intent, query, e) { LeftSnoc(cfg, ops, k, intent, query, e); }
  }

  lemma OnePut(cfg: Config, op: Op, intent: string, query: string)
    ensures Writes(cfg, op, intent, query) ==> op.PutOp?
  {
  }

  lemma LeftWithin(cfg: Config, ops: seq<Op>, intent: string, query: string, e: Entry)
    ensures forall k: nat :: LeftBy(cfg, ops, k, intent, query, e) ==> k < |ops|
  {
  }

  /** Exactly when a look-up hits: caching is on for the intent, an answer to the same question was stored and
      not dislodged since, and it has not expired; and then that answer is returned. */
  lemma HitIff(cfg: Config, ops: seq<Op>, intent: string, query: string, now: int, content: string)
    requires cfg.maxsize >= 1
    ensures Get(cfg, Run(cfg, ops).0, intent, query, now).1 == Some(content) <==>
            Lifetime(cfg, intent) != 0
            && exists k :: 0 <= k < |ops| && StoredAt(cfg, ops, k, intent, query) && ops[k].content == content
                           && now <= ops[k].now + Lifetime(cfg, intent)
  {
    var c, key := Run(cfg, ops).0, MakeKey(intent, query);
    AlwaysConsistent(cfg, ops);
    assert DistinctSlots(c.store);
    assert TtlFor(cfg, intent) == Lifetime(cfg, intent);
    hide Run, Consistent, StoredAt, MakeKey, TtlFor, Lifetime, DistinctSlots;
    if Lifetime(cfg, intent) != 0 {
      forall e: Entry
        ensures Holds(c.store, key, e) <==> exists k: nat :: LeftBy(cfg, ops, k, intent, query, e)
      {
        HeldIff(cfg, ops, intent, query, e);
      }
      HitWhenHeld(cfg, c, intent, query, now, content);
      hide Holds, Get, Dislodges;
      if k :| 0 <= k < |ops| && StoredAt(cfg, ops, k, intent, query) && ops[k].content == content
              && now <= ops[k].now + Lifetime(cfg, intent) {
        assert LeftBy(cfg, ops, k, intent, query, Entry(content, ops[k].now + Lifetime(cfg, intent)));
        assert Holds(c.store, key, Entry(content, ops[k].now + Lifetime(cfg, intent)));
      }
    }
  }

  lemma HitWhenHeld(cfg: Config, c: State, intent: string, query: string, now: int, content: string)
    requires DistinctSlots(c.store) && TtlFor(cfg, intent) != 0
    ensures Get(cfg, c, intent, query, now).1 == Some(content) <==>
            exists until: int :: Holds(c.store, MakeKey(intent, query), Entry(content, until)) && now <= until
  {
    var key := MakeKey(intent, query);
    forall until: int
      ensures Holds(c.store, key, Entry(content, until)) <==>
              Find(c.store, key) < |c.store| && c.store[Find(c.store, key)].entry == Entry(content, until)
    {
      HoldsFound(c.store, key, Entry(content, until));
    }
    hide Holds, MakeKey, TtlFor, Find;
    var i := Find(c.store, key);
    if i < |c.store| {
      assert Holds(c.store, key, c.store[i].entry) by { HoldsFound(c.store, key, c.store[i].entry); }
    }
  }

  /** One operation moves the last use of exactly the key it uses; a clear forgets all. */
  lemma NoteTracksUses(cfg: Config, c: State, h: History, op: Op, key: Key)
    ensures Note(cfg, h, c, op).clock == h.clock + 1
    ensures Uses(cfg, c, op, key) ==> key in Note(cfg, h, c, op).lastUse && Note(cfg, h, c, op).lastUse[key] == h.clock + 1
    ensures !Uses(cfg, c, op, key) ==>
      !(key in Note(cfg, h, c, op).lastUse)
      || (!op.ClearOp? && key in h.lastUse && Note(cfg, h, c, op).lastUse[key] == h.lastUse[key])
    ensures !Uses(cfg, c, op, key) && !op.ClearOp? && key in h.lastUse ==> key in Note(cfg, h, c, op).lastUse
  {
    hide MakeKey, TtlFor, Get;
  }

  /** No operation from position `from` on uses the key. */
  ghost predicate UnusedSince(cfg: Config, ops: seq<Op>, from: nat, key: Key) {
    forall k :: from <= k < |ops| ==> !Uses(cfg, Run(cfg, ops[..k]).0, ops[k], key)
  }

  lemma UnusedSoFar(cfg: Config, ops: seq<Op>, from: nat, key: Key)
    requires ops != [] && UnusedSince(cfg, ops[..|ops| - 1], from, key)
    requires from < |ops| ==> !Uses(cfg, Run(cfg, ops[..|ops| - 1]).0, ops[|ops| - 1], key)
    ensures UnusedSince(cfg, ops, from, key)
  {
    hide Uses, Run;
    var init := ops[..|ops| - 1];
    forall k | from <= k < |ops| ensures !Uses(cfg, Run(cfg, ops[..k]).0, ops[k], key) {
      if k < |init| { assert init[..k] == ops[..k] && init[k] == ops[k]; } else { assert ops[..k] == init; }
    }
  }

  /** What `lastUse` records: the operation at that time used the key, and none since has. */
  lemma {:induction false} LastUseIsLastUse(cfg: Config, ops: seq<Op>, key: Key)
    ensures Run(cfg, ops).1.clock == |ops|
    ensures key in Run(cfg, ops).1.lastUse ==>
      var t := Run(cfg, ops).1.lastUse[key];
      1 <= t <= |ops| && Uses(cfg, Run(cfg, ops[..t - 1]).0, ops[t - 1], key) && UnusedSince(cfg, ops, t, key)
  {
    if ops != [] {
      var init, op := ops[..|ops| - 1], ops[|ops| - 1];
      var (c, h) := Run(cfg, init);
      assert Run(cfg, ops).1 == Note(cfg, h, c, op);
      hide Uses, Note, Run, UnusedSince;
      LastUseIsLastUse(cfg, init, key);
      NoteTracksUses(cfg, c, h, op, key);
      if Uses(cfg, c, op, key) {
        assert ops[..|ops| - 1] == init;
        NothingSince(cfg, ops, key);
      } else if key in Note(cfg, h, c, op).lastUse {
        var t := h.lastUse[key];
        assert init[..t - 1] == ops[..t - 1] && init[t - 1] == ops[t - 1];
        UnusedSoFar(cfg, ops, t, key);
      }
    }
  }

  lemma NothingSince(cfg: Config, ops: seq<Op>, key: Key)
    ensures UnusedSince(cfg, ops, |ops|, key)
  {
  }

  /** The keys a put evicts. */
  predicate Evicts(cfg: Config, c: State, op: Op, key: Key) {
    op.PutOp? && Find(c.store, key) < |c.store| && Find(PutEntry(cfg, c, op.intent, op.query, op.content, op.now).store, key)
      == |PutEntry(cfg, c, op.intent, op.query, op.content, op.now).store|
  }

  lemma AbsentNotFound(s: seq<Slot>, key: Key)
    ensures Find(s, key) == |s| <==> Absent(s, key)
  {
  }

  /** A key is evicted only after at least `maxsize` distinct other keys have been used since its
      own last use, the one being stored included. */
  lemma EvictionNeedsMaxsizeOthers(cfg: Config, ops: seq<Op>, op: Op, key: Key)
    requires cfg.maxsize >= 1
    requires Evicts(cfg, Run(cfg, ops).0, op, key)
    ensures var (c, h) := Run(cfg, ops); var h' := Note(cfg, h, c, op);
            && key in h.lastUse
            && exists others: set<Key> :: |others| >= cfg.maxsize && key !in others
                 && forall k :: k in others ==> k in h'.lastUse && h'.lastUse[k] > h.lastUse[key]
  {
    hide *;
    AlwaysConsistent(cfg, ops);
    var (c, h) := Run(cfg, ops);
    EvictionInState(cfg, c, h, op, key);
  }

  lemma EvictionInState(cfg: Config, c: State, h: History, op: Op, key: Key)
    requires cfg.maxsize >= 1 && Consistent(cfg, c, h) && Evicts(cfg, c, op, key)
    ensures var h' := Note(cfg, h, c, op);
            && key in h.lastUse
            && exists others: set<Key> :: |others| >= cfg.maxsize && key !in others
                 && forall k :: k in others ==> k in h'.lastUse && h'.lastUse[k] > h.lastUse[key]
  {
    hide Find, PutEntry, MakeKey, TtlFor;
    VictimIsFirst(cfg, c, op, key);
    var s, stored := c.store, MakeKey(op.intent, op.query);
    var others := KeysOf(s[1..]) + {stored};
    OthersAreCounted(s, key, stored);
    forall k | k in others ensures k in Note(cfg, h, c, op).lastUse && Note(cfg, h, c, op).lastUse[k] > h.lastUse[key] {
      if k != stored {
        KeysMembership(s[1..], k);
        var j :| 0 <= j < |s[1..]| && s[1..][j].key == k;
        assert s[j + 1].key == k;
      }
    }
  }

  lemma OthersAreCounted(s: seq<Slot>, key: Key, stored: Key)
    requires s != [] && DistinctSlots(s) && s[0].key == key && Absent(s, stored)
    ensures var others := KeysOf(s[1..]) + {stored};
            |others| == |s| && key !in others
  {
    KeysCount(s[1..]);
    KeysMembership(s[1..], stored);
    KeysMembership(s[1..], key);
  }

  ghost function KeysOf(s: seq<Slot>): set<Key> {
    if s == [] then {} else {s[0].key} + KeysOf(s[1..])
  }

  lemma {:induction false} KeysMembership(s: seq<Slot>, key: Key)
    ensures key in KeysOf(s) <==> exists i :: 0 <= i < |s| && s[i].key == key
  {
    if s != [] {
      KeysMembership(s[1..], key);
      if key in KeysOf(s[1..]) {
        var i :| 0 <= i < |s[1..]| && s[1..][i].key == key;
        assert s[i + 1].key == key;
      }
      if i :| 0 <= i < |s| && s[i].key == key && i > 0 { assert s[1..][i - 1].key == key; }
    }
  }

  lemma {:induction false} KeysCount(s: seq<Slot>)
    requires DistinctSlots(s)
    ensures |KeysOf(s)| == |s|
  {
    if s != [] {
      KeysCount(s[1..]);
      KeysMembership(s[1..], s[0].key);
    }
  }

  lemma RefreshKeepsKeys(s: seq<Slot>, i: nat, slot: Slot, v: nat)
    requires i < |s| && v < |s| && slot.key == s[i].key
    ensures !Absent(Drop(s, i) + [slot], s[v].key)
  {
    var after := Drop(s, i) + [slot];
    var j := if v == i then |s| - 1 else if v < i then v else v - 1;
    assert after[j].key == s[v].key;
  }

  lemma SuffixKeepsKeys(s: seq<Slot>, n: nat, slot: Slot, v: nat)
    requires n <= v < |s|
    ensures !Absent(s[n..] + [slot], s[v].key)
  {
    assert (s[n..] + [slot])[v - n].key == s[v].key;
  }

  /** Eviction happens only at exact capacity, and takes the least recently used key. */
  lemma VictimIsFirst(cfg: Config, c: State, op: Op, key: Key)
    requires |c.store| <= cfg.maxsize && DistinctSlots(c.store) && cfg.maxsize >= 1
    requires Evicts(cfg, c, op, key)
    ensures |c.store| == cfg.maxsize && c.store[0].key == key && TtlFor(cfg, op.intent) != 0
    ensures Absent(c.store, MakeKey(op.intent, op.query))
  {
    var s, stored := c.store, MakeKey(op.intent, op.query);
    var after := PutEntry(cfg, c, op.intent, op.query, op.content, op.now).store;
    var v, i := Find(s, key), Find(s, stored);
    AbsentNotFound(after, key);
    AbsentNotFound(s, stored);
    if TtlFor(cfg, op.intent) != 0 {
      var slot := Slot(stored, Entry(op.content, op.now + TtlFor(cfg, op.intent)));
      if i < |s| {
        RefreshKeepsKeys(s, i, slot, v);
      } else if v >= Surplus(cfg, |s|) {
        SuffixKeepsKeys(s, Surplus(cfg, |s|), slot, v);
      }
    }
  }
}
