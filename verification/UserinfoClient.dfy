/** `UserinfoClient` and `SyncUserinfoClient` when their calls do not overlap. */
module UserinfoClient {
  import opened Wrappers
  import opened UserKeys
  import opened UserinfoStore

  /** What `fetch` returns: the claims of the caller's own token, a cached response, or its own. */
  datatype Answer = Fallback | Cached(payload: Response) | Own(payload: Response)

  datatype Effect = Effect(cache: Cache, answer: Answer, requested: bool)

  /** A whole `fetch` with nothing running beside it; `reply` is what its request yields if it makes one. */
  function FetchEffect(cache: Cache, key: string, ttl: real, now: real, reply: Option<Response>): (r: Effect) {
    var hit := Hit(cache, key, ttl, now);
    if hit.Some? then Effect(cache, Cached(hit.value), false)
    else if reply.None? then Effect(cache, Fallback, true)
    else Effect(cache[key := Entry(reply.value.completed + ttl, reply.value)], Own(reply.value), true)
  }

  /** The history after a call. */
  function Recorded(log: seq<Record>, answer: Answer): (r: seq<Record>) {
    if answer.Own? then log + [Stored(answer.payload)] else log
  }

  /**
   * A call in terms of the history: no request is made exactly when the caller's ttl is
   * positive and the latest response stored for the user and token since the user's last
   * invalidation is unexpired by its writer's ttl, and then that response is the answer.
   */
  ghost predicate AnswersFromHistory(log: seq<Record>, user: int, prefix: string, ttl: real, now: real,
                                     reply: Option<Response>, answer: Answer, requested: bool) {
    var last := LiveLast(log, user, prefix);
    && (!requested <==> ttl > 0.0 && last.Some? && now < last.value.completed + last.value.ttl)
    && answer == if !requested then Cached(last.value) else if reply.Some? then Own(reply.value) else Fallback
  }

  lemma EffectInHistory(cache: Cache, log: seq<Record>, user: int, prefix: string, ttl: real, now: real,
                        reply: Option<Response>)
    requires Mirrors(cache, log)
    requires reply.Some? ==> reply.value.user == user && reply.value.prefix == prefix && reply.value.ttl == ttl
    ensures var e := FetchEffect(cache, CacheKey(user, prefix), ttl, now, reply);
      && AnswersFromHistory(log, user, prefix, ttl, now, reply, e.answer, e.requested)
      && Mirrors(e.cache, Recorded(log, e.answer))
  {
    HitIsLive(cache, log, user, prefix, ttl, now);
    if reply.Some? { MirrorsStored(cache, log, reply.value); }
  }

  /** A client with its history: the responses it has stored and the invalidations, in order. */
  class Client {
    const ttl: real
    var cache: Cache
    ghost var log: seq<Record>

    ghost predicate Valid()
      reads this
    {
      Mirrors(cache, log)
    }

    constructor (ttl: real)
      ensures this.ttl == ttl && Valid() && cache == map[] && log == []
    {
      this.ttl := ttl;
      cache := map[];
      log := [];
    }

    /**
     * `fetch` for the user id read from the claims (`None` if it is missing or not a
     * number).  `reply` is what the HTTP request yields if one is made; its `completed` is
     * the time at which the entry's expiry is computed.
     */
    method Fetch(user: Option<int>, prefix: string, ttlSeconds: Option<real>, now: real, reply: Option<Response>)
      returns (answer: Answer, requested: bool)
      requires Valid()
      requires reply.Some? && user.Some? ==>
        var r := reply.value;
        r.user == user.value && r.prefix == prefix && r.ttl == (if ttlSeconds.None? then ttl else ttlSeconds.value)
      modifies this
      ensures Valid()
      ensures user.None? ==> answer == Fallback && !requested && log == old(log)
      ensures user.Some? ==>
        var t := if ttlSeconds.None? then ttl else ttlSeconds.value;
        && AnswersFromHistory(old(log), user.value, prefix, t, now, reply, answer, requested)
        && log == Recorded(old(log), answer)
        && Effect(cache, answer, requested) == FetchEffect(old(cache), CacheKey(user.value, prefix), t, now, reply)
    {
      if user.None? {
        return Fallback, false;
      }
      var t := if ttlSeconds.None? then ttl else ttlSeconds.value;
      var key := CacheKey(user.value, prefix);
      EffectInHistory(cache, log, user.value, prefix, t, now, reply);
      if t > 0.0 && key in cache && cache[key].expiresAt > now {
        return Cached(cache[key].payload), false;
      }
      if reply.None? {
        return Fallback, true;
      }
      cache := cache[key := Entry(reply.value.completed + t, reply.value)];
      log := log + [Stored(reply.value)];
      return Own(reply.value), true;
    }

    /** `invalidate`: a scan over a snapshot of the keys that deletes those of the user. */
    method Invalidate(user: int)
      requires Valid()
      modifies this
      ensures Valid() && log == old(log) + [Dropped(user)]
      ensures forall k :: k in cache <==> k in old(cache) && old(cache)[k].payload.user != user
      ensures forall k :: k in cache ==> cache[k] == old(cache)[k]
    {
      InvalidatesExactlyTheUser(cache, user);
      MirrorsDropped(cache, log, user);
      Scan(user);
      log := log + [Dropped(user)];
    }

    method Scan(user: int)
      modifies this`cache
      ensures cache == Invalidated(old(cache), user)
    {
      var todo := cache.Keys;
      while todo != {}
        invariant cache == Scanned(old(cache), user, todo)
        decreases |todo|
      {
        var k :| k in todo;
        ScanStep(old(cache), user, todo, k);
        if UserPrefix(user) <= k {
          cache := cache - {k};
        }
        todo := todo - {k};
      }
    }
  }

  // ---------------------------------------------------------------------------
  // Calls after one another
  // ---------------------------------------------------------------------------

  /**
   * After a fetch that stored a response, a second one for the same user and token makes no
   * request exactly when it has a positive ttl itself and the first one's ttl has not run
   * out.  So a forced fetch, with ttl 0, leaves an entry that helps no later caller.
   */
  lemma SecondFetchExactlyWhen(cache: Cache, key: string, ttl: real, now: real, reply: Response,
                               ttl': real, now': real, reply': Option<Response>)
    requires FetchEffect(cache, key, ttl, now, Some(reply)).requested
    ensures var first := FetchEffect(cache, key, ttl, now, Some(reply));
      var second := FetchEffect(first.cache, key, ttl', now', reply');
      && first.answer == Own(reply)
      && (!second.requested <==> ttl' > 0.0 && now' < reply.completed + ttl)
      && (!second.requested ==> second.answer == Cached(reply) && second.cache == first.cache)
      && (ttl == 0.0 && now' >= reply.completed ==> second.requested)
  {
  }

  /** After `invalidate(u)` the next fetch for u makes a request; fetches for other users are as before. */
  lemma FetchAfterInvalidate(cache: Cache, user: int, other: int, prefix: string, ttl: real, now: real,
                             reply: Option<Response>)
    ensures FetchEffect(Invalidated(cache, user), CacheKey(user, prefix), ttl, now, reply).requested
    ensures other != user ==>
      FetchEffect(Invalidated(cache, user), CacheKey(other, prefix), ttl, now, reply).answer ==
      FetchEffect(cache, CacheKey(other, prefix), ttl, now, reply).answer
  {
    PrefixNamesUser(user, prefix, user);
    PrefixNamesUser(other, prefix, user);
  }
}
