/**
 * What one `get_key` call reads from and writes to the JWKS cache.
 *
 * The state shared by all callers is `Store`: the entries in recency order and the
 * negative cache.  A call is cut where the source cuts it, at the network: `Open`
 * decides before any fetch, `Settle` reacts to the fetch's outcome.  The sequential
 * class, the async protocol and the threaded protocol are all built from these.
 *
 * A key set remembers which URL it was fetched from and when that fetch completed.
 * No operation looks at those two fields: they only let properties speak of them.
 */
module JwksStore {
  import opened Wrappers
  import Lru

  type Url(==, !new)
  type Kid(==, !new)
  type Key(==, !new)

  datatype KeySet = KeySet(byKid: map<Kid, Key>, origin: Url, completed: real)

  datatype Entry = Entry(keys: KeySet, fetchedAt: real)

  datatype Config = Config(cacheTtl: real, staleTtl: real, maxUrls: nat, unknownKidTtl: real, httpTimeout: real) {
    /** What the constructor checks.  It does not order the two lifetimes. */
    predicate Valid() {
      maxUrls >= 1 && unknownKidTtl >= 0.0
    }

    /** The longest age at which an entry is still served. */
    function ServeLimit(): real {
      if cacheTtl < staleTtl then staleTtl else cacheTtl
    }

    /** The oldest a served key may be: a key fetched by the call itself has age zero at most. */
    function AgeBound(): real {
      if ServeLimit() < 0.0 then 0.0 else ServeLimit()
    }
  }

  /** `_entries` as a key order (oldest first) with a lookup table, and `_unknown_kids`. */
  datatype Store = Store(order: seq<Url>, entries: map<Url, Entry>, unknown: map<Url, map<Kid, real>>) {
    /** The order lists the table's keys once each, at most `cap` of them. */
    ghost predicate Valid(cap: nat) {
      Lru.NoDups(order) && Lru.Elems(order) == entries.Keys && |order| <= cap
    }
  }

  const Empty: Store := Store([], map[], map[])

  /** The table without the keys that are no longer in the order. */
  function Keep(entries: map<Url, Entry>, order: seq<Url>): (r: map<Url, Entry>) {
    map u | u in entries && u in order :: entries[u]
  }

  /** `_store_entry`: insert or refresh at the recent end, then drop the oldest beyond the cap. */
  function Put(s: Store, url: Url, e: Entry, cap: nat): (r: Store) {
    var order := Lru.Store(s.order, url, cap);
    s.(order := order, entries := Keep(s.entries[url := e], order))
  }

  /** `_touch_entry`. */
  function Touch(s: Store, url: Url): (r: Store) {
    s.(order := Lru.Touch(s.order, url))
  }

  /** When `kid` was last found missing at `url`. */
  function MissedAt(s: Store, url: Url, kid: Kid): (r: Option<real>) {
    if url in s.unknown && kid in s.unknown[url] then Some(s.unknown[url][kid]) else None
  }

  /** Record that `kid` was missing at `url` at time `now`. */
  function Stamp(s: Store, url: Url, kid: Kid, now: real): (r: Store) {
    var kids := if url in s.unknown then s.unknown[url] else map[];
    s.(unknown := s.unknown[url := kids[kid := now]])
  }

  /** `kid` has not been found missing at `url` since `since`. */
  predicate NoStampSince(s: Store, url: Url, kid: Kid, since: real) {
    MissedAt(s, url, kid).Some? ==> MissedAt(s, url, kid).value < since
  }

  /** The negative cache rejects the call without a fetch. */
  predicate Rejects(cfg: Config, s: Store, url: Url, kid: Kid, now: real) {
    var missed := MissedAt(s, url, kid);
    missed.Some? && now - missed.value <= cfg.unknownKidTtl
  }

  function Lookup(s: Store, url: Url): (r: Option<Entry>) {
    if url in s.entries then Some(s.entries[url]) else None
  }

  /** Why a call fetches: no fresh entry (`held` is the old one), or a fresh one without the kid. */
  datatype Need = Refresh(held: Option<Entry>) | Probe

  datatype Answer = Found(key: Key) | NegativeCached | FetchFailed | UnknownKid

  datatype Outcome = Fetched(keys: KeySet) | Failed

  /** What a call that was not rejected does with the entry it read. */
  datatype Opening = Serve(key: Key) | Fetch(need: Need)

  function Open(cfg: Config, held: Option<Entry>, kid: Kid, now: real): (r: Opening) {
    if held.None? || now - held.value.fetchedAt > cfg.cacheTtl then Fetch(Refresh(held))
    else if kid in held.value.keys.byKid then Serve(held.value.keys.byKid[kid])
    else Fetch(Probe)
  }

  predicate HasKid(o: Outcome, kid: Kid) {
    o.Fetched? && kid in o.keys.byKid
  }

  /** What the parser makes of a response; `None` if the fetch raised. */
  type Body = Option<map<Kid, Key>>

  /** The parser refuses a document without usable keys. */
  predicate Parsed(body: Body) {
    body.Some? ==> body.value != map[]
  }

  datatype Reply = Reply(store: Store, answer: Answer)

  /** The end of a call: the kid is looked up in the key set at hand, or stamped as missing. */
  function Conclude(s: Store, url: Url, kid: Kid, now: real, keys: map<Kid, Key>): (r: Reply) {
    if kid in keys then Reply(s, Found(keys[kid])) else Reply(Stamp(s, url, kid, now), UnknownKid)
  }

  /** A call's fetch has ended. */
  function Settle(cfg: Config, s: Store, url: Url, kid: Kid, now: real, need: Need, o: Outcome): (r: Reply) {
    match o
    case Fetched(keys) =>
      Conclude(Put(s, url, Entry(keys, now), cfg.maxUrls), url, kid, now, keys.byKid)
    case Failed =>
      if need.Probe? then Conclude(s, url, kid, now, map[])
      else if need.held.Some? && now - need.held.value.fetchedAt <= cfg.staleTtl then
        Conclude(s, url, kid, now, need.held.value.keys.byKid)
      else Reply(s, FetchFailed)
  }

  // ---------------------------------------------------------------------------
  // What the bookkeeping does
  // ---------------------------------------------------------------------------

  /** `_store_entry` keeps the table well formed, holds the new entry, and alters no other. */
  lemma PutKeeps(s: Store, url: Url, e: Entry, cap: nat)
    requires s.Valid(cap) && cap >= 1
    ensures Put(s, url, e, cap).Valid(cap)
    ensures Lookup(Put(s, url, e, cap), url) == Some(e)
    ensures forall u :: u != url && u in Put(s, url, e, cap).entries ==>
      u in s.entries && Put(s, url, e, cap).entries[u] == s.entries[u]
    ensures url in s.entries || |s.order| < cap ==> Put(s, url, e, cap).entries == s.entries[url := e]
    ensures url !in s.entries && |s.order| == cap ==>
      Put(s, url, e, cap).entries == (s.entries - {s.order[0]})[url := e]
  {
    var order := Put(s, url, e, cap).order;
    Lru.StoreElems(s.order, url, cap);
    assert forall u :: u in order <==> u in Lru.Elems(order);
    assert forall u :: u in s.order <==> u in Lru.Elems(s.order);
    assert Lru.Elems(order) <= s.entries.Keys + {url};
    assert Put(s, url, e, cap).entries.Keys == Lru.Elems(order);
  }

  /** `_touch_entry` alters neither entries nor stamps. */
  lemma TouchKeeps(s: Store, url: Url, cap: nat)
    requires s.Valid(cap)
    ensures Touch(s, url).Valid(cap) && Touch(s, url).entries == s.entries && Touch(s, url).unknown == s.unknown
  {
    Lru.MoveToEndNoDups(s.order, url);
    assert url in s.order <==> url in Lru.Elems(s.order);
  }

  /** It makes a cached URL the most recent and keeps the order of the others; any other URL it ignores. */
  lemma TouchMakesRecent(s: Store, url: Url, cap: nat)
    requires s.Valid(cap)
    ensures url !in s.entries ==> Touch(s, url) == s
    ensures url in s.entries ==>
      var order := Touch(s, url).order;
      && |order| == |s.order| && order[|order| - 1] == url
      && Lru.Without(order, url) == Lru.Without(s.order, url)
  {
    var others := Lru.Without(s.order, url);
    Lru.MoveToEndNoDups(s.order, url);
    Lru.WithoutElems(s.order, url);
    Lru.WithoutElems(others, url);
    Lru.WithoutSnoc(others, url, url);
    assert url in s.order <==> url in Lru.Elems(s.order);
  }

  /** A stamp changes the negative cache at one place only. */
  lemma StampAt(s: Store, url: Url, kid: Kid, now: real, url': Url, kid': Kid)
    ensures MissedAt(Stamp(s, url, kid, now), url', kid') ==
      if url' == url && kid' == kid then Some(now) else MissedAt(s, url', kid')
  {
  }

  // ---------------------------------------------------------------------------
  // Where served keys come from, and how old they may be
  // ---------------------------------------------------------------------------

  /** No entry claims to be younger than the fetch it came from. */
  ghost predicate Sound(s: Store, log: set<KeySet>) {
    forall u :: u in s.entries ==> SoundEntry(u, s.entries[u], log)
  }

  predicate SoundEntry(url: Url, e: Entry, log: set<KeySet>) {
    FetchedBy(url, e.keys, log) && e.fetchedAt <= e.keys.completed
  }

  /** The key set is what some successful fetch of this very URL returned. */
  predicate FetchedBy(url: Url, keys: KeySet, log: set<KeySet>) {
    keys in log && keys.origin == url
  }

  ghost predicate SoundNeed(url: Url, need: Need, log: set<KeySet>) {
    need.Refresh? && need.held.Some? ==> SoundEntry(url, need.held.value, log)
  }

  /** The key is `kid`'s in a key set fetched from `url` no earlier than `since`. */
  ghost predicate Vouched(url: Url, kid: Kid, key: Key, log: set<KeySet>, since: real) {
    exists ks :: FetchedBy(url, ks, log) && ks.completed >= since && kid in ks.byKid && ks.byKid[kid] == key
  }

  /** Every key answered is vouched for since `since`. */
  ghost predicate VouchedAnswer(url: Url, kid: Kid, answer: Answer, log: set<KeySet>, since: real) {
    answer.Found? ==> Vouched(url, kid, answer.key, log, since)
  }

  /** The entry read is still served when its refresh fails, and gives the kid this key. */
  predicate FallsBackOn(cfg: Config, need: Need, kid: Kid, now: real, key: Key) {
    && need.Refresh? && need.held.Some? && now - need.held.value.fetchedAt <= cfg.staleTtl
    && kid in need.held.value.keys.byKid && need.held.value.keys.byKid[kid] == key
  }

  lemma VouchedGrows(url: Url, kid: Kid, answer: Answer, log: set<KeySet>, more: set<KeySet>, since: real)
    requires VouchedAnswer(url, kid, answer, log, since) && log <= more
    ensures VouchedAnswer(url, kid, answer, more, since)
  {
    if answer.Found? {
      var ks :| FetchedBy(url, ks, log) && ks.completed >= since && kid in ks.byKid && ks.byKid[kid] == answer.key;
      assert FetchedBy(url, ks, more);
    }
  }

  lemma SoundGrows(s: Store, log: set<KeySet>, more: set<KeySet>)
    requires Sound(s, log) && log <= more
    ensures Sound(s, more)
  {
  }

  lemma OpenIsSound(cfg: Config, url: Url, held: Option<Entry>, kid: Kid, now: real, log: set<KeySet>)
    requires held.Some? ==> SoundEntry(url, held.value, log)
    ensures var opening := Open(cfg, held, kid, now);
      && (opening.Serve? ==> Vouched(url, kid, opening.key, log, now - cfg.AgeBound()))
      && (opening.Fetch? ==> SoundNeed(url, opening.need, log))
  {
    if Open(cfg, held, kid, now).Serve? {
      assert FetchedBy(url, held.value.keys, log);
    }
  }

  /** What a settled call answers is within the age bound. */
  lemma SettledAnswerIsSound(cfg: Config, s: Store, url: Url, kid: Kid, now: real, need: Need, o: Outcome,
                             log: set<KeySet>)
    requires SoundNeed(url, need, log)
    requires o.Fetched? ==> FetchedBy(url, o.keys, log) && o.keys.completed >= now
    ensures VouchedAnswer(url, kid, Settle(cfg, s, url, kid, now, need, o).answer, log, now - cfg.AgeBound())
  {
    if o.Fetched? {
      assert FetchedBy(url, o.keys, log);
    } else if need.Refresh? && need.held.Some? {
      assert FetchedBy(url, need.held.value.keys, log);
    }
  }

  /** Settling a call keeps the store sound, and what it serves is within the age bound. */
  lemma SettleIsSound(cfg: Config, s: Store, url: Url, kid: Kid, now: real, need: Need, o: Outcome, log: set<KeySet>)
    requires cfg.Valid() && s.Valid(cfg.maxUrls) && Sound(s, log) && SoundNeed(url, need, log)
    requires o.Fetched? ==> FetchedBy(url, o.keys, log) && o.keys.completed >= now
    ensures var end := Settle(cfg, s, url, kid, now, need, o);
      && end.store.Valid(cfg.maxUrls) && Sound(end.store, log)
      && VouchedAnswer(url, kid, end.answer, log, now - cfg.AgeBound())
  {
    SettledAnswerIsSound(cfg, s, url, kid, now, need, o, log);
    if o.Fetched? { PutKeeps(s, url, Entry(o.keys, now), cfg.maxUrls); }
  }
}
