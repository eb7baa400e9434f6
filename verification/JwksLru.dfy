/** Which URLs a run of non-overlapping calls keeps cached, and how often it fetches because of that. */
module JwksLru {
  import opened Wrappers
  import opened JwksStore
  import opened JwksCache
  import opened JwksRuns
  import Lru
  import Rates

  // ---------------------------------------------------------------------------
  // Eviction follows recency of use
  // ---------------------------------------------------------------------------

  /** What a call does to the entries: nothing if rejected, else a lookup, and a store of what it fetched. */
  function Bookkept(cfg: Config, s: Store, q: Request, e: Effect): (r: Store) {
    if e.answer.NegativeCached? then s
    else if e.fetched && q.outcome.Fetched? then Put(Touch(s, q.url), q.url, Entry(q.outcome.keys, q.now), cfg.maxUrls)
    else Touch(s, q.url)
  }

  predicate SameEntries(s: Store, t: Store) {
    s.order == t.order && s.entries == t.entries
  }

  lemma SettleBookkeeping(cfg: Config, s: Store, url: Url, kid: Kid, now: real, need: Need, o: Outcome)
    ensures var end := Settle(cfg, s, url, kid, now, need, o);
      && SameEntries(end.store, if o.Fetched? then Put(s, url, Entry(o.keys, now), cfg.maxUrls) else s)
      && !end.answer.NegativeCached?
  {
    if o.Fetched? {
      assert SameEntries(Stamp(Put(s, url, Entry(o.keys, now), cfg.maxUrls), url, kid, now),
        Put(s, url, Entry(o.keys, now), cfg.maxUrls));
    }
  }

  lemma CallBookkeeping(cfg: Config, s: Store, q: Request)
    ensures SameEntries(GetKeyEffect(cfg, s, q).store, Bookkept(cfg, s, q, GetKeyEffect(cfg, s, q)))
  {
    var opening := Open(cfg, Lookup(s, q.url), q.kid, q.now);
    if !Rejects(cfg, s, q.url, q.kid, q.now) && opening.Fetch? {
      SettleBookkeeping(cfg, Touch(s, q.url), q.url, q.kid, q.now, opening.need, q.outcome);
    }
  }

  /** How a call uses its URL: not at all if it was rejected, else it looks the entry up, and stores what it fetched. */
  function Uses(e: Effect, q: Request): (r: seq<Lru.Op<Url>>) {
    if e.answer.NegativeCached? then []
    else if e.fetched && q.outcome.Fetched? then [Lru.Touched(q.url), Lru.Stored(q.url)]
    else [Lru.Touched(q.url)]
  }

  function Trace(cfg: Config, qs: seq<Request>): (r: seq<Lru.Op<Url>>) {
    if qs == [] then []
    else Trace(cfg, qs[..|qs| - 1]) + Uses(EffectAt(cfg, Empty, qs, |qs| - 1), qs[|qs| - 1])
  }

  lemma RunSnoc(ops: seq<Lru.Op<Url>>, op: Lru.Op<Url>, cap: nat)
    ensures Lru.Run(ops + [op], cap) == Lru.Apply(Lru.Run(ops, cap), op, cap)
  {
    assert (ops + [op])[..|ops|] == ops;
  }

  lemma CallUses(cfg: Config, s: Store, q: Request, ops: seq<Lru.Op<Url>>)
    requires s.order == Lru.Run(ops, cfg.maxUrls)
    ensures GetKeyEffect(cfg, s, q).store.order == Lru.Run(ops + Uses(GetKeyEffect(cfg, s, q), q), cfg.maxUrls)
  {
    var touched, stored := Lru.Touched(q.url), Lru.Stored(q.url);
    RunSnoc(ops, touched, cfg.maxUrls);
    RunSnoc(ops + [touched], stored, cfg.maxUrls);
    CallBookkeeping(cfg, s, q);
    assert ops + [] == ops && ops + [touched, stored] == ops + [touched] + [stored];
  }

  lemma {:induction false} OrderIsLruRun(cfg: Config, qs: seq<Request>)
    ensures After(cfg, Empty, qs).order == Lru.Run(Trace(cfg, qs), cfg.maxUrls)
  {
    if qs != [] {
      OrderIsLruRun(cfg, qs[..|qs| - 1]);
      CallUses(cfg, After(cfg, Empty, qs[..|qs| - 1]), qs[|qs| - 1], Trace(cfg, qs[..|qs| - 1]));
    }
  }

  lemma {:induction false} StaysValid(cfg: Config, qs: seq<Request>)
    requires cfg.Valid()
    ensures After(cfg, Empty, qs).Valid(cfg.maxUrls)
  {
    if qs != [] {
      StaysValid(cfg, qs[..|qs| - 1]);
      CallKeepsValid(cfg, After(cfg, Empty, qs[..|qs| - 1]), qs[|qs| - 1]);
    }
  }

  lemma CallKeepsValid(cfg: Config, s: Store, q: Request)
    requires cfg.Valid() && s.Valid(cfg.maxUrls)
    ensures GetKeyEffect(cfg, s, q).store.Valid(cfg.maxUrls)
  {
    CallBookkeeping(cfg, s, q);
    TouchKeeps(s, q.url, cfg.maxUrls);
    if q.outcome.Fetched? {
      PutKeeps(Touch(s, q.url), q.url, Entry(q.outcome.keys, q.now), cfg.maxUrls);
    }
  }

  /**
   * After any run a URL is cached exactly when fewer than `max_urls` other URLs were used
   * since its own last use, where a use is a stored fetch or a lookup that found an entry.
   */
  lemma CachedExactlyWhenRecent(cfg: Config, qs: seq<Request>, url: Url)
    requires cfg.Valid()
    ensures url in After(cfg, Empty, qs).entries <==>
      Lru.Resident(Lru.EffectiveUses(Trace(cfg, qs), cfg.maxUrls), cfg.maxUrls, url)
  {
    OrderIsLruRun(cfg, qs);
    StaysValid(cfg, qs);
    Lru.LruRefinesRecency(Trace(cfg, qs), cfg.maxUrls);
    assert url in After(cfg, Empty, qs).order <==> url in Lru.Elems(After(cfg, Empty, qs).order);
  }

  // ---------------------------------------------------------------------------
  // No eviction while the URLs fit
  // ---------------------------------------------------------------------------

  function Urls(qs: seq<Request>): (r: set<Url>) {
    set q | q in qs :: q.url
  }

  lemma {:induction false} SubsetSize<T>(a: set<T>, b: set<T>)
    requires a <= b
    ensures |a| <= |b|
  {
    if x :| x in a {
      SubsetSize(a - {x}, b - {x});
    }
  }

  /** A URL the cache has room for: storing it drops nothing. */
  lemma RoomFor(s: Store, url: Url, cap: nat, urls: set<Url>)
    requires s.Valid(cap) && s.entries.Keys <= urls && url in urls && |urls| <= cap
    ensures url in s.entries || |s.order| < cap
  {
    Lru.NoDupsCount(s.order);
    if url !in s.entries {
      SubsetSize(s.entries.Keys + {url}, urls);
    }
  }

  lemma FittingPut(s: Store, url: Url, e: Entry, cap: nat, urls: set<Url>)
    requires cap >= 1 && s.Valid(cap) && s.entries.Keys <= urls && url in urls && |urls| <= cap
    ensures Put(s, url, e, cap).entries == s.entries[url := e]
  {
    RoomFor(s, url, cap, urls);
    PutKeeps(s, url, e, cap);
  }

  /** What one call does to the entries when its URLs fit into the cache. */
  lemma FittingCall(cfg: Config, s: Store, q: Request, urls: set<Url>)
    requires cfg.Valid() && s.Valid(cfg.maxUrls) && s.entries.Keys <= urls && q.url in urls && |urls| <= cfg.maxUrls
    ensures var e := GetKeyEffect(cfg, s, q);
      && e.store.entries == (if e.fetched && q.outcome.Fetched? then s.entries[q.url := Entry(q.outcome.keys, q.now)]
          else s.entries)
      && e.store.Valid(cfg.maxUrls) && e.store.entries.Keys <= urls
  {
    TouchKeeps(s, q.url, cfg.maxUrls);
    CallBookkeeping(cfg, s, q);
    CallKeepsValid(cfg, s, q);
    if q.outcome.Fetched? {
      FittingPut(Touch(s, q.url), q.url, Entry(q.outcome.keys, q.now), cfg.maxUrls, urls);
    }
  }

  // ---------------------------------------------------------------------------
  // The cache spares fetches
  // ---------------------------------------------------------------------------

  /** When calls on a URL made a fetch, whatever the kid, among those between `from` and `to`. */
  function UrlFetchTimes(cfg: Config, qs: seq<Request>, url: Url, from: real, to: real): (r: seq<real>) {
    if qs == [] then []
    else
      var n := |qs| - 1;
      var before := UrlFetchTimes(cfg, qs[..n], url, from, to);
      if qs[n].url == url && from <= qs[n].now <= to && EffectAt(cfg, Empty, qs, n).fetched
      then before + [qs[n].now] else before
  }

  /** Every fetch of the URL succeeds, and its keys include every kid that is asked for. */
  predicate Complete(qs: seq<Request>, url: Url, kids: set<Kid>) {
    forall q :: q in qs && q.url == url ==> q.kid in kids && q.outcome.Fetched? && kids <= q.outcome.keys.byKid.Keys
  }

  ghost predicate Covered(s: Store, url: Url, kids: set<Kid>, times: seq<real>) {
    && (url in s.entries ==> kids <= s.entries[url].keys.byKid.Keys)
    && (times != [] ==> url in s.entries && s.entries[url].fetchedAt >= times[|times| - 1])
  }

  /** Under `Covered`, a call on the URL fetches only when the last fetch is more than `cache_ttl` ago. */
  lemma CoveredCall(cfg: Config, s: Store, q: Request, url: Url, kids: set<Kid>, times: seq<real>)
    requires cfg.cacheTtl >= 0.0 && Covered(s, url, kids, times)
    requires q.url == url ==> q.kid in kids && q.outcome.Fetched? && kids <= q.outcome.keys.byKid.Keys
    requires var e := GetKeyEffect(cfg, s, q);
      e.store.entries == if e.fetched && q.outcome.Fetched? then s.entries[q.url := Entry(q.outcome.keys, q.now)]
        else s.entries
    ensures var e := GetKeyEffect(cfg, s, q);
      && Covered(e.store, url, kids, times)
      && (q.url == url && e.fetched ==>
            Covered(e.store, url, kids, times + [q.now]) && (times != [] ==> q.now - times[|times| - 1] > cfg.cacheTtl))
  {
    if q.url == url && GetKeyEffect(cfg, s, q).fetched && times != [] {
      assert q.now - s.entries[url].fetchedAt > cfg.cacheTtl;
    }
  }

  lemma {:induction false} RunFits(cfg: Config, qs: seq<Request>, urls: set<Url>)
    requires cfg.Valid() && Urls(qs) <= urls && |urls| <= cfg.maxUrls
    ensures After(cfg, Empty, qs).Valid(cfg.maxUrls) && After(cfg, Empty, qs).entries.Keys <= urls
  {
    if qs != [] {
      var n := |qs| - 1;
      assert Urls(qs[..n]) <= Urls(qs);
      RunFits(cfg, qs[..n], urls);
      assert qs[n].url in Urls(qs);
      FittingCall(cfg, After(cfg, Empty, qs[..n]), qs[n], urls);
    }
  }

  /** Times spaced by more than `cache_ttl`, within the window, that `s` has a covering entry for. */
  ghost predicate SpacedCover(cfg: Config, s: Store, url: Url, kids: set<Kid>, times: seq<real>, from: real, to: real) {
    && Covered(s, url, kids, times)
    && Rates.Spaced(times, cfg.cacheTtl)
    && (forall t :: t in times ==> from <= t <= to)
  }

  /** One more call on a cache that its URLs fit into. */
  lemma NextCallIsSpaced(cfg: Config, s: Store, q: Request, url: Url, kids: set<Kid>, urls: set<Url>,
                         times: seq<real>, from: real, to: real)
    requires cfg.Valid() && cfg.cacheTtl >= 0.0 && SpacedCover(cfg, s, url, kids, times, from, to)
    requires s.Valid(cfg.maxUrls) && s.entries.Keys <= urls && q.url in urls && |urls| <= cfg.maxUrls
    requires q.url == url ==> q.kid in kids && q.outcome.Fetched? && kids <= q.outcome.keys.byKid.Keys
    ensures var e := GetKeyEffect(cfg, s, q);
      SpacedCover(cfg, e.store, url, kids,
        if q.url == url && from <= q.now <= to && e.fetched then times + [q.now] else times, from, to)
  {
    FittingCall(cfg, s, q, urls);
    CoveredCall(cfg, s, q, url, kids, times);
  }

  lemma {:induction false} UrlFetchesAreSpaced(cfg: Config, qs: seq<Request>, url: Url, kids: set<Kid>, urls: set<Url>,
                                               from: real, to: real)
    requires cfg.Valid() && cfg.cacheTtl >= 0.0
    requires Complete(qs, url, kids) && Urls(qs) <= urls && |urls| <= cfg.maxUrls
    ensures SpacedCover(cfg, After(cfg, Empty, qs), url, kids, UrlFetchTimes(cfg, qs, url, from, to), from, to)
  {
    if qs != [] {
      var n := |qs| - 1;
      assert Urls(qs[..n]) <= Urls(qs);
      UrlFetchesAreSpaced(cfg, qs[..n], url, kids, urls, from, to);
      RunFits(cfg, qs[..n], urls);
      assert qs[n] in qs && qs[n].url in Urls(qs);
      NextCallIsSpaced(cfg, After(cfg, Empty, qs[..n]), qs[n], url, kids, urls,
                       UrlFetchTimes(cfg, qs[..n], url, from, to), from, to);
    }
  }

  /**
   * The fetch-rate bound of the key cache: while the URLs in use fit into it and the kids
   * asked for exist, calls on one URL make at most 1 + floor(W / cache_ttl) fetches in any
   * window of length W.
   */
  lemma KnownKidFetchRate(cfg: Config, qs: seq<Request>, url: Url, kids: set<Kid>, from: real, to: real)
    requires cfg.Valid() && cfg.cacheTtl > 0.0 && from <= to
    requires Complete(qs, url, kids) && |Urls(qs)| <= cfg.maxUrls
    ensures |UrlFetchTimes(cfg, qs, url, from, to)| <= 1 + ((to - from) / cfg.cacheTtl).Floor
  {
    UrlFetchesAreSpaced(cfg, qs, url, kids, Urls(qs), from, to);
    var times := UrlFetchTimes(cfg, qs, url, from, to);
    assert forall i :: 0 <= i < |times| ==> times[i] in times;
    Rates.RateBound(times, cfg.cacheTtl, from, to);
  }

  /** When a call on the URL last made a fetch. */
  function LastFetch(cfg: Config, qs: seq<Request>, url: Url): (r: Option<real>) {
    if qs == [] then None
    else
      var n := |qs| - 1;
      if qs[n].url == url && EffectAt(cfg, Empty, qs, n).fetched then Some(qs[n].now) else LastFetch(cfg, qs[..n], url)
  }

  /** The URL's entry dates from the last fetch and has all the kids, and none of them has ever been missed. */
  ghost predicate Current(s: Store, url: Url, kids: set<Kid>, last: Option<real>) {
    && (url in s.entries <==> last.Some?)
    && (last.Some? ==> s.entries[url].fetchedAt == last.value && kids <= s.entries[url].keys.byKid.Keys)
    && (forall kid :: kid in kids ==> MissedAt(s, url, kid).None?)
  }

  /** Whether a call fetches, when the URL's entry is current. */
  predicate IsDue(cfg: Config, last: Option<real>, now: real) {
    last.None? || now - last.value > cfg.cacheTtl
  }

  lemma CurrentCall(cfg: Config, s: Store, q: Request, url: Url, kids: set<Kid>, last: Option<real>)
    requires Current(s, url, kids, last) && q.url == url && q.kid in kids
    requires q.outcome.Fetched? && kids <= q.outcome.keys.byKid.Keys
    ensures GetKeyEffect(cfg, s, q).fetched <==> IsDue(cfg, last, q.now)
    ensures GetKeyEffect(cfg, s, q).answer.Found?
  {
    assert !Rejects(cfg, s, url, q.kid, q.now);
  }

  /** One more call on a cache that its URLs fit into, on the URL or another one. */
  lemma StaysCurrent(cfg: Config, s: Store, q: Request, url: Url, kids: set<Kid>, urls: set<Url>, last: Option<real>)
    requires cfg.Valid() && Current(s, url, kids, last)
    requires s.Valid(cfg.maxUrls) && s.entries.Keys <= urls && q.url in urls && |urls| <= cfg.maxUrls
    requires q.url == url ==> q.kid in kids && q.outcome.Fetched? && kids <= q.outcome.keys.byKid.Keys
    ensures var e := GetKeyEffect(cfg, s, q);
      Current(e.store, url, kids, if q.url == url && e.fetched then Some(q.now) else last)
  {
    FittingCall(cfg, s, q, urls);
    if q.url == url { CurrentCall(cfg, s, q, url, kids, last); }
    forall kid | kid in kids ensures MissedAt(GetKeyEffect(cfg, s, q).store, url, kid).None? {
      EffectOnStamps(cfg, s, q, url, kid);
    }
  }

  lemma {:induction false} RunCurrent(cfg: Config, qs: seq<Request>, url: Url, kids: set<Kid>, urls: set<Url>)
    requires cfg.Valid() && Complete(qs, url, kids) && Urls(qs) <= urls && |urls| <= cfg.maxUrls
    ensures Current(After(cfg, Empty, qs), url, kids, LastFetch(cfg, qs, url))
  {
    if qs != [] {
      var n := |qs| - 1;
      assert Urls(qs[..n]) <= Urls(qs);
      RunCurrent(cfg, qs[..n], url, kids, urls);
      RunFits(cfg, qs[..n], urls);
      assert qs[n] in qs && qs[n].url in Urls(qs);
      StaysCurrent(cfg, After(cfg, Empty, qs[..n]), qs[n], url, kids, urls, LastFetch(cfg, qs[..n], url));
    }
  }

  /**
   * Fresh means fresh, exactly: while the URLs in use fit into the cache and the kids asked
   * for exist, a call fetches if and only if its URL has not been fetched before or was last
   * fetched more than `cache_ttl` ago; and it always returns a key.
   */
  lemma KnownKidFetchesExactlyWhen(cfg: Config, qs: seq<Request>, url: Url, kids: set<Kid>, i: nat)
    requires cfg.Valid() && Complete(qs, url, kids) && |Urls(qs)| <= cfg.maxUrls
    requires i < |qs| && qs[i].url == url
    ensures var last := LastFetch(cfg, qs[..i], url);
      EffectAt(cfg, Empty, qs, i).fetched <==> last.None? || qs[i].now - last.value > cfg.cacheTtl
    ensures EffectAt(cfg, Empty, qs, i).answer.Found?
  {
    assert Urls(qs[..i]) <= Urls(qs);
    RunCurrent(cfg, qs[..i], url, kids, Urls(qs));
    assert qs[i] in qs;
    CurrentCall(cfg, After(cfg, Empty, qs[..i]), qs[i], url, kids, LastFetch(cfg, qs[..i], url));
  }
}
