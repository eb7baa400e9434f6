/** Properties of whole runs of non-overlapping `get_key` calls. */
module JwksRuns {
  import opened Wrappers
  import opened JwksStore
  import opened JwksCache
  import Rates

  /** The store after the calls `qs`, made one after the other on `s`. */
  function After(cfg: Config, s: Store, qs: seq<Request>): (r: Store) {
    if qs == [] then s
    else GetKeyEffect(cfg, After(cfg, s, qs[..|qs| - 1]), qs[|qs| - 1]).store
  }

  /** What call number `i` of the run does. */
  function EffectAt(cfg: Config, s: Store, qs: seq<Request>, i: nat): (r: Effect)
    requires i < |qs|
  {
    GetKeyEffect(cfg, After(cfg, s, qs[..i]), qs[i])
  }

  lemma AfterNext(cfg: Config, s: Store, qs: seq<Request>, i: nat)
    requires i < |qs|
    ensures After(cfg, s, qs[..i + 1]) == EffectAt(cfg, s, qs, i).store
  {
    assert qs[..i + 1][..i] == qs[..i];
  }

  predicate Asks(q: Request, url: Url, kid: Kid) {
    q.url == url && q.kid == kid
  }

  // ---------------------------------------------------------------------------
  // The negative cache
  // ---------------------------------------------------------------------------

  /** A call writes a stamp exactly when it answers "unknown kid", and only its own. */
  lemma EffectOnStamps(cfg: Config, s: Store, q: Request, url: Url, kid: Kid)
    ensures MissedAt(GetKeyEffect(cfg, s, q).store, url, kid) ==
      if GetKeyEffect(cfg, s, q).answer.UnknownKid? && Asks(q, url, kid) then Some(q.now) else MissedAt(s, url, kid)
  {
  }

  /** All calls for the kid in the run fall into the window that the stamp `missed` opened. */
  predicate InWindow(cfg: Config, qs: seq<Request>, url: Url, kid: Kid, missed: real) {
    forall q :: q in qs && Asks(q, url, kid) ==> q.now - missed <= cfg.unknownKidTtl
  }

  lemma {:induction false} WindowKeepsStamp(cfg: Config, s: Store, qs: seq<Request>, url: Url, kid: Kid, missed: real)
    requires MissedAt(s, url, kid) == Some(missed) && InWindow(cfg, qs, url, kid, missed)
    ensures MissedAt(After(cfg, s, qs), url, kid) == Some(missed)
  {
    if qs != [] {
      var n := |qs| - 1;
      WindowKeepsStamp(cfg, s, qs[..n], url, kid, missed);
      EffectOnStamps(cfg, After(cfg, s, qs[..n]), qs[n], url, kid);
      assert qs[n] in qs;
    }
  }

  lemma NegativeExactlyWhen(cfg: Config, s: Store, q: Request)
    ensures GetKeyEffect(cfg, s, q).answer.NegativeCached? <==> Rejects(cfg, s, q.url, q.kid, q.now)
    ensures Rejects(cfg, s, q.url, q.kid, q.now) ==> GetKeyEffect(cfg, s, q) == Effect(s, NegativeCached, false)
  {
  }

  /**
   * The window a stamp opens is exact and is never extended: however often the kid has been
   * asked for inside it, and whatever else has been called, the next call for the kid is
   * rejected without a fetch if and only if it comes within `unknown_kid_ttl` of the stamp.
   */
  lemma WindowIsExact(cfg: Config, s: Store, qs: seq<Request>, url: Url, kid: Kid, missed: real, i: nat)
    requires MissedAt(s, url, kid) == Some(missed)
    requires i < |qs| && Asks(qs[i], url, kid) && InWindow(cfg, qs[..i], url, kid, missed)
    ensures EffectAt(cfg, s, qs, i).answer.NegativeCached? <==> qs[i].now - missed <= cfg.unknownKidTtl
    ensures EffectAt(cfg, s, qs, i).answer.NegativeCached? ==>
      !EffectAt(cfg, s, qs, i).fetched && After(cfg, s, qs[..i + 1]) == After(cfg, s, qs[..i])
  {
    WindowKeepsStamp(cfg, s, qs[..i], url, kid, missed);
    NegativeExactlyWhen(cfg, After(cfg, s, qs[..i]), qs[i]);
    AfterNext(cfg, s, qs, i);
  }

  /** One call never moves a stamp back. */
  lemma StampAdvances(cfg: Config, s: Store, q: Request, url: Url, kid: Kid)
    requires cfg.unknownKidTtl >= 0.0 && MissedAt(s, url, kid).Some?
    ensures var missed := MissedAt(GetKeyEffect(cfg, s, q).store, url, kid);
      missed.Some? && missed.value >= MissedAt(s, url, kid).value
  {
    EffectOnStamps(cfg, s, q, url, kid);
  }

  /** The stamp for (url, kid) is there, and no older than `since`. */
  predicate StampedSince(s: Store, url: Url, kid: Kid, since: real) {
    MissedAt(s, url, kid).Some? && MissedAt(s, url, kid).value >= since
  }

  lemma {:induction false} StampKept(cfg: Config, s: Store, qs: seq<Request>, i: nat, j: nat, url: Url, kid: Kid,
                                     since: real)
    requires i <= j <= |qs| && cfg.unknownKidTtl >= 0.0
    requires StampedSince(After(cfg, s, qs[..i]), url, kid, since)
    ensures StampedSince(After(cfg, s, qs[..j]), url, kid, since)
  {
    if i < j {
      StampKept(cfg, s, qs, i, j - 1, url, kid, since);
      AfterNext(cfg, s, qs, j - 1);
      StampAdvances(cfg, After(cfg, s, qs[..j - 1]), qs[j - 1], url, kid);
    }
  }

  /** Once (url, kid) has been stamped, its stamp never moves back, whatever is called or evicted. */
  lemma StampStays(cfg: Config, s: Store, qs: seq<Request>, i: nat, j: nat)
    requires i < j <= |qs| && EffectAt(cfg, s, qs, i).answer.UnknownKid? && cfg.unknownKidTtl >= 0.0
    ensures StampedSince(After(cfg, s, qs[..j]), qs[i].url, qs[i].kid, qs[i].now)
  {
    AfterNext(cfg, s, qs, i);
    EffectOnStamps(cfg, After(cfg, s, qs[..i]), qs[i], qs[i].url, qs[i].kid);
    StampKept(cfg, s, qs, i + 1, j, qs[i].url, qs[i].kid, qs[i].now);
  }

  /** Two stamps for the same kid are more than `unknown_kid_ttl` apart. */
  lemma StampsAreSpaced(cfg: Config, s: Store, qs: seq<Request>, i: nat, j: nat)
    requires i < j < |qs| && cfg.unknownKidTtl >= 0.0 && Asks(qs[j], qs[i].url, qs[i].kid)
    requires EffectAt(cfg, s, qs, i).answer.UnknownKid? && EffectAt(cfg, s, qs, j).answer.UnknownKid?
    ensures qs[j].now - qs[i].now > cfg.unknownKidTtl
  {
    StampStays(cfg, s, qs, i, j);
  }

  /** When calls for (url, kid) made a fetch, among those between `from` and `to`. */
  function FetchTimes(cfg: Config, s: Store, qs: seq<Request>, url: Url, kid: Kid, from: real,
                      to: real): (r: seq<real>) {
    if qs == [] then []
    else
      var n := |qs| - 1;
      var before := FetchTimes(cfg, s, qs[..n], url, kid, from, to);
      if Asks(qs[n], url, kid) && from <= qs[n].now <= to && EffectAt(cfg, s, qs, n).fetched
      then before + [qs[n].now] else before
  }

  /** No fetch made for (url, kid) finds the kid. */
  predicate NeverFinds(qs: seq<Request>, url: Url, kid: Kid) {
    forall q :: q in qs && Asks(q, url, kid) ==> q.outcome.Fetched? && kid !in q.outcome.keys.byKid
  }

  /** Times more than `unknown_kid_ttl` apart, within the window, the last one no later than the kid's stamp. */
  predicate StampedTimes(cfg: Config, s: Store, url: Url, kid: Kid, times: seq<real>, from: real, to: real) {
    && Rates.Spaced(times, cfg.unknownKidTtl)
    && (forall i :: 0 <= i < |times| ==> from <= times[i] <= to)
    && (times != [] ==> StampedSince(s, url, kid, times[|times| - 1]))
  }

  /** A fetch that does not find the kid is made outside the window of its stamp, and stamps it anew. */
  lemma FetchStamps(cfg: Config, s: Store, q: Request, url: Url, kid: Kid)
    requires Asks(q, url, kid) && GetKeyEffect(cfg, s, q).fetched
    requires q.outcome.Fetched? && kid !in q.outcome.keys.byKid
    ensures MissedAt(GetKeyEffect(cfg, s, q).store, url, kid) == Some(q.now)
    ensures MissedAt(s, url, kid).Some? ==> q.now - MissedAt(s, url, kid).value > cfg.unknownKidTtl
  {
    EffectOnStamps(cfg, s, q, url, kid);
  }

  lemma NextFetchIsSpaced(cfg: Config, s: Store, q: Request, url: Url, kid: Kid, times: seq<real>, from: real, to: real)
    requires cfg.unknownKidTtl >= 0.0 && StampedTimes(cfg, s, url, kid, times, from, to)
    requires Asks(q, url, kid) ==> q.outcome.Fetched? && kid !in q.outcome.keys.byKid
    ensures var e := GetKeyEffect(cfg, s, q);
      StampedTimes(cfg, e.store, url, kid,
        if Asks(q, url, kid) && from <= q.now <= to && e.fetched then times + [q.now] else times, from, to)
  {
    if Asks(q, url, kid) && GetKeyEffect(cfg, s, q).fetched { FetchStamps(cfg, s, q, url, kid); }
    if times != [] { StampAdvances(cfg, s, q, url, kid); }
  }

  lemma {:induction false} FetchesAreSpaced(cfg: Config, s: Store, qs: seq<Request>, url: Url, kid: Kid,
                                            from: real, to: real)
    requires cfg.unknownKidTtl >= 0.0 && NeverFinds(qs, url, kid)
    ensures StampedTimes(cfg, After(cfg, s, qs), url, kid, FetchTimes(cfg, s, qs, url, kid, from, to), from, to)
  {
    if qs != [] {
      var n := |qs| - 1;
      FetchesAreSpaced(cfg, s, qs[..n], url, kid, from, to);
      assert qs[n] in qs;
      NextFetchIsSpaced(cfg, After(cfg, s, qs[..n]), qs[n], url, kid,
                        FetchTimes(cfg, s, qs[..n], url, kid, from, to), from, to);
    }
  }

  /**
   * The fetch-rate bound of the negative cache: if the kid is never found, calls for
   * it make at most 1 + floor(W / unknown_kid_ttl) fetches in any window of length W,
   * however many calls there are and whatever other URLs push out of the cache.
   */
  lemma UnknownKidFetchRate(cfg: Config, s: Store, qs: seq<Request>, url: Url, kid: Kid, from: real, to: real)
    requires cfg.unknownKidTtl > 0.0 && from <= to && NeverFinds(qs, url, kid)
    ensures |FetchTimes(cfg, s, qs, url, kid, from, to)| <= 1 + ((to - from) / cfg.unknownKidTtl).Floor
  {
    FetchesAreSpaced(cfg, s, qs, url, kid, from, to);
    Rates.RateBound(FetchTimes(cfg, s, qs, url, kid, from, to), cfg.unknownKidTtl, from, to);
  }

  /**
   * The bound needs fetches to succeed.  After a call that yields no key, an
   * immediate retry is throttled if and only if the call was itself throttled, or its
   * fetch succeeded, or there was an entry young enough to serve.
   */
  lemma ThrottledExactlyWhen(cfg: Config, s: Store, q: Request)
    requires cfg.Valid() && !GetKeyEffect(cfg, s, q).answer.Found?
    ensures Rejects(cfg, GetKeyEffect(cfg, s, q).store, q.url, q.kid, q.now) <==>
      || Rejects(cfg, s, q.url, q.kid, q.now)
      || q.outcome.Fetched?
      || (q.url in s.entries && q.now - s.entries[q.url].fetchedAt <= cfg.ServeLimit())
  {
    EffectOnStamps(cfg, s, q, q.url, q.kid);
  }

  /** During an outage with a cold cache nothing is throttled: every single call fetches. */
  lemma {:induction false} ColdOutageIsUnthrottled(cfg: Config, qs: seq<Request>, url: Url, i: nat)
    requires i < |qs| && forall q :: q in qs ==> q.url == url && q.outcome.Failed?
    ensures EffectAt(cfg, Empty, qs, i).fetched && EffectAt(cfg, Empty, qs, i).answer.FetchFailed?
    ensures After(cfg, Empty, qs[..i]) == Empty
  {
    assert qs[i] in qs;
    if i > 0 {
      ColdOutageIsUnthrottled(cfg, qs, url, i - 1);
      AfterNext(cfg, Empty, qs, i - 1);
    }
  }

  // ---------------------------------------------------------------------------
  // Key rotation
  // ---------------------------------------------------------------------------

  /** From `since` on, every fetch of the URL succeeds and yields the kid. */
  predicate RotatedIn(qs: seq<Request>, url: Url, kid: Kid, since: real) {
    forall q :: q in qs && q.url == url && q.now >= since ==> q.outcome.Fetched? && kid in q.outcome.keys.byKid
  }

  lemma {:induction false} NoStampAfter(cfg: Config, s: Store, qs: seq<Request>, url: Url, kid: Kid, since: real)
    requires RotatedIn(qs, url, kid, since) && NoStampSince(s, url, kid, since)
    ensures NoStampSince(After(cfg, s, qs), url, kid, since)
  {
    if qs != [] {
      var n := |qs| - 1;
      NoStampAfter(cfg, s, qs[..n], url, kid, since);
      EffectOnStamps(cfg, After(cfg, s, qs[..n]), qs[n], url, kid);
      assert qs[n] in qs;
    }
  }

  /** A rotated-in kid is served by every call made at least `unknown_kid_ttl` after the rotation. */
  lemma RotationBecomesVisible(cfg: Config, s: Store, qs: seq<Request>, url: Url, kid: Kid, since: real, i: nat)
    requires cfg.Valid() && RotatedIn(qs, url, kid, since) && NoStampSince(s, url, kid, since)
    requires i < |qs| && Asks(qs[i], url, kid) && qs[i].now >= since + cfg.unknownKidTtl
    ensures EffectAt(cfg, s, qs, i).answer.Found?
  {
    assert RotatedIn(qs[..i], url, kid, since);
    NoStampAfter(cfg, s, qs[..i], url, kid, since);
    assert qs[i] in qs;
  }

  // ---------------------------------------------------------------------------
  // Outages
  // ---------------------------------------------------------------------------

  ghost predicate Outage(qs: seq<Request>, begin: real) {
    forall q :: q in qs ==> q.outcome.Failed? && q.now >= begin
  }

  /** At `begin` the cache holds `kid`, and no negative stamp hides it. */
  ghost predicate Holds(cfg: Config, s: Store, url: Url, kid: Kid, begin: real) {
    && url in s.entries && kid in s.entries[url].keys.byKid
    && !Rejects(cfg, s, url, kid, begin)
  }

  /** A call whose fetch would fail: no entry changes, and a kid that is held gets no stamp. */
  lemma FailingCall(cfg: Config, s: Store, q: Request, url: Url, kid: Kid)
    requires s.Valid(cfg.maxUrls) && q.outcome.Failed?
    requires url in s.entries && kid in s.entries[url].keys.byKid
    ensures var after := GetKeyEffect(cfg, s, q).store;
      && after.Valid(cfg.maxUrls) && after.entries == s.entries
      && MissedAt(after, url, kid) == MissedAt(s, url, kid)
  {
    TouchKeeps(s, q.url, cfg.maxUrls);
    EffectOnStamps(cfg, s, q, url, kid);
  }

  lemma {:induction false} OutageKeeps(cfg: Config, s: Store, qs: seq<Request>, url: Url, kid: Kid, begin: real)
    requires s.Valid(cfg.maxUrls) && Outage(qs, begin) && Holds(cfg, s, url, kid, begin)
    ensures After(cfg, s, qs).Valid(cfg.maxUrls) && After(cfg, s, qs).entries == s.entries
    ensures MissedAt(After(cfg, s, qs), url, kid) == MissedAt(s, url, kid)
  {
    if qs != [] {
      var n := |qs| - 1;
      OutageKeeps(cfg, s, qs[..n], url, kid, begin);
      assert qs[n] in qs;
      FailingCall(cfg, After(cfg, s, qs[..n]), qs[n], url, kid);
    }
  }

  /**
   * Outage tolerance is exact: while every fetch fails, no call on any URL evicts or
   * alters an entry, and a held kid is served with its key precisely while the entry's
   * age is at most max(cache_ttl, stale_ttl); after that every call raises.
   */
  lemma OutageTolerance(cfg: Config, s: Store, qs: seq<Request>, url: Url, kid: Kid, begin: real, i: nat)
    requires s.Valid(cfg.maxUrls) && Outage(qs, begin) && Holds(cfg, s, url, kid, begin)
    requires i < |qs|
    ensures After(cfg, s, qs[..i + 1]).entries == s.entries
    ensures Asks(qs[i], url, kid) && qs[i].now - s.entries[url].fetchedAt <= cfg.ServeLimit() ==>
      EffectAt(cfg, s, qs, i).answer == Found(s.entries[url].keys.byKid[kid])
    ensures Asks(qs[i], url, kid) && qs[i].now - s.entries[url].fetchedAt > cfg.ServeLimit() ==>
      EffectAt(cfg, s, qs, i).answer == FetchFailed
  {
    OutageKeeps(cfg, s, qs[..i], url, kid, begin);
    OutageKeeps(cfg, s, qs[..i + 1], url, kid, begin);
    assert qs[i] in qs;
  }

  // ---------------------------------------------------------------------------
  // Age
  // ---------------------------------------------------------------------------

  /** The key sets that the run's successful fetches returned. */
  function FetchLog(cfg: Config, s: Store, qs: seq<Request>): (r: set<KeySet>) {
    set i | 0 <= i < |qs| && EffectAt(cfg, s, qs, i).fetched && qs[i].outcome.Fetched? :: qs[i].outcome.keys
  }

  /** Fetches return keys of the URL asked for, after the call began. */
  predicate WellTimed(qs: seq<Request>) {
    forall q :: q in qs && q.outcome.Fetched? ==> q.outcome.keys.origin == q.url && q.outcome.keys.completed >= q.now
  }

  lemma FetchLogGrows(cfg: Config, s: Store, qs: seq<Request>, n: nat)
    requires n < |qs|
    ensures FetchLog(cfg, s, qs[..n]) <= FetchLog(cfg, s, qs[..n + 1])
    ensures EffectAt(cfg, s, qs, n).fetched && qs[n].outcome.Fetched? ==>
      qs[n].outcome.keys in FetchLog(cfg, s, qs[..n + 1])
  {
    var a, b := qs[..n], qs[..n + 1];
    assert forall i :: 0 <= i <= n ==> b[..i] == qs[..i] && b[i] == qs[i];
    assert forall i :: 0 <= i < n ==> a[..i] == qs[..i] && a[i] == qs[i];
    forall ks | ks in FetchLog(cfg, s, a) ensures ks in FetchLog(cfg, s, b) {
      var i :| 0 <= i < n && EffectAt(cfg, s, a, i).fetched && a[i].outcome.Fetched? && ks == a[i].outcome.keys;
      assert EffectAt(cfg, s, b, i) == EffectAt(cfg, s, a, i);
    }
    assert EffectAt(cfg, s, b, n) == EffectAt(cfg, s, qs, n);
  }

  lemma CallIsSound(cfg: Config, s: Store, q: Request, log: set<KeySet>)
    requires cfg.Valid() && s.Valid(cfg.maxUrls) && Sound(s, log)
    requires GetKeyEffect(cfg, s, q).fetched && q.outcome.Fetched? ==>
      FetchedBy(q.url, q.outcome.keys, log) && q.outcome.keys.completed >= q.now
    ensures var e := GetKeyEffect(cfg, s, q);
      && e.store.Valid(cfg.maxUrls) && Sound(e.store, log)
      && VouchedAnswer(q.url, q.kid, e.answer, log, q.now - cfg.AgeBound())
  {
    TouchKeeps(s, q.url, cfg.maxUrls);
    OpenIsSound(cfg, q.url, Lookup(s, q.url), q.kid, q.now, log);
    var opening := Open(cfg, Lookup(s, q.url), q.kid, q.now);
    if opening.Fetch? && GetKeyEffect(cfg, s, q).fetched {
      SettleIsSound(cfg, Touch(s, q.url), q.url, q.kid, q.now, opening.need, q.outcome, log);
    }
  }

  lemma {:induction false} RunIsSound(cfg: Config, qs: seq<Request>, n: nat)
    requires cfg.Valid() && WellTimed(qs) && n <= |qs|
    ensures var s := After(cfg, Empty, qs[..n]);
      s.Valid(cfg.maxUrls) && Sound(s, FetchLog(cfg, Empty, qs[..n]))
  {
    if n > 0 {
      RunIsSound(cfg, qs, n - 1);
      AfterNext(cfg, Empty, qs, n - 1);
      FetchLogGrows(cfg, Empty, qs, n - 1);
      SoundGrows(After(cfg, Empty, qs[..n - 1]), FetchLog(cfg, Empty, qs[..n - 1]), FetchLog(cfg, Empty, qs[..n]));
      assert qs[n - 1] in qs;
      CallIsSound(cfg, After(cfg, Empty, qs[..n - 1]), qs[n - 1], FetchLog(cfg, Empty, qs[..n]));
    }
  }

  /**
   * Age soundness of sequential runs: a key returned by call `i` is that kid's key in
   * what a successful fetch of the same URL, made by the run so far, returned no
   * earlier than max(cache_ttl, stale_ttl) before the call.
   */
  lemma SequentialAgeBound(cfg: Config, qs: seq<Request>, i: nat)
    requires cfg.Valid() && WellTimed(qs) && i < |qs|
    ensures VouchedAnswer(qs[i].url, qs[i].kid, EffectAt(cfg, Empty, qs, i).answer,
                          FetchLog(cfg, Empty, qs[..i + 1]), qs[i].now - cfg.AgeBound())
  {
    RunIsSound(cfg, qs, i);
    FetchLogGrows(cfg, Empty, qs, i);
    SoundGrows(After(cfg, Empty, qs[..i]), FetchLog(cfg, Empty, qs[..i]), FetchLog(cfg, Empty, qs[..i + 1]));
    assert qs[i] in qs;
    CallIsSound(cfg, After(cfg, Empty, qs[..i]), qs[i], FetchLog(cfg, Empty, qs[..i + 1]));
  }
}
