/**
 * The cache of the userinfo clients.
 *
 * A response remembers for whom it was requested, when its request began (as a time
 * and as a position in the run), when it completed, and its caller's ttl.  No
 * operation looks at those fields: they only let properties speak of them.
 */
module UserinfoStore {
  import opened Wrappers
  import opened UserKeys

  type Body(==, !new)

  datatype Response = Response(
    body: Body, user: int, prefix: string, requested: nat, began: real, completed: real, ttl: real)

  datatype Entry = Entry(expiresAt: real, payload: Response)

  type Cache = map<string, Entry>

  /** The cache test of `fetch`: a caller with ttl 0 never hits. */
  function Hit(cache: Cache, key: string, ttl: real, now: real): (r: Option<Response>) {
    if ttl > 0.0 && key in cache && cache[key].expiresAt > now then Some(cache[key].payload) else None
  }

  /** `invalidate`: the cache without the keys that start with the user's prefix. */
  function Invalidated(cache: Cache, user: int): (r: Cache) {
    map k | k in cache && !(UserPrefix(user) <= k) :: cache[k]
  }

  /** The cache when the scan has yet to visit the keys in `todo`. */
  function Scanned(cache: Cache, user: int, todo: set<string>): (r: Cache) {
    map k | k in cache && (k in todo || !(UserPrefix(user) <= k)) :: cache[k]
  }

  lemma ScanStep(cache: Cache, user: int, todo: set<string>, k: string)
    requires k in todo
    ensures Scanned(cache, user, todo - {k}) ==
      if UserPrefix(user) <= k then Scanned(cache, user, todo) - {k} else Scanned(cache, user, todo)
  {
  }

  /** Every entry sits under its own user's and token's key. */
  ghost predicate Keyed(cache: Cache) {
    forall k :: k in cache ==> k == CacheKey(cache[k].payload.user, cache[k].payload.prefix)
  }

  /** `invalidate(u)` removes exactly user u's entries and alters no other. */
  lemma InvalidatesExactlyTheUser(cache: Cache, user: int)
    requires Keyed(cache)
    ensures var r := Invalidated(cache, user);
      && Keyed(r)
      && (forall k :: k in r <==> k in cache && cache[k].payload.user != user)
      && (forall k :: k in r ==> r[k] == cache[k])
  {
    forall k | k in cache ensures UserPrefix(user) <= k <==> cache[k].payload.user == user {
      PrefixNamesUser(cache[k].payload.user, cache[k].payload.prefix, user);
    }
  }

  // ---------------------------------------------------------------------------
  // The cache as a record of what was stored
  // ---------------------------------------------------------------------------

  /** What happened to a client's cache, in order: responses stored, and invalidations. */
  datatype Record = Stored(response: Response) | Dropped(user: int)

  /** The record is a response stored for this user and token prefix. */
  predicate StoredFor(x: Record, user: int, prefix: string) {
    x.Stored? && x.response.user == user && x.response.prefix == prefix
  }

  /** The latest response stored for a user and token prefix. */
  function LastStored(log: seq<Record>, user: int, prefix: string): (r: Option<Response>) {
    if log == [] then None
    else if StoredFor(log[|log| - 1], user, prefix) then Some(log[|log| - 1].response)
    else LastStored(log[..|log| - 1], user, prefix)
  }

  /** The same, unless the user was invalidated since. */
  function LiveLast(log: seq<Record>, user: int, prefix: string): (r: Option<Response>) {
    if log == [] || log[|log| - 1] == Dropped(user) then None
    else if StoredFor(log[|log| - 1], user, prefix) then Some(log[|log| - 1].response)
    else LiveLast(log[..|log| - 1], user, prefix)
  }

  lemma LastSnoc(log: seq<Record>, x: Record, user: int, prefix: string)
    ensures LastStored(log + [x], user, prefix) ==
      if StoredFor(x, user, prefix) then Some(x.response) else LastStored(log, user, prefix)
    ensures LiveLast(log + [x], user, prefix) ==
      if x == Dropped(user) then None
      else if StoredFor(x, user, prefix) then Some(x.response) else LiveLast(log, user, prefix)
  {
    assert (log + [x])[..|log|] == log;
  }

  /** What the cache has under a user's and token's key. */
  function CachedFor(cache: Cache, user: int, prefix: string): (r: Option<Response>) {
    if CacheKey(user, prefix) in cache then Some(cache[CacheKey(user, prefix)].payload) else None
  }

  /**
   * The cache holds, for every user and token, the latest response stored since the user
   * was last invalidated, and it expires by its writer's ttl.
   */
  ghost predicate Mirrors(cache: Cache, log: seq<Record>) {
    && Keyed(cache)
    && (forall k :: k in cache ==> cache[k].expiresAt == cache[k].payload.completed + cache[k].payload.ttl)
    && (forall u, p :: CachedFor(cache, u, p) == LiveLast(log, u, p))
  }

  /** The cache test, in terms of the history. */
  lemma HitIsLive(cache: Cache, log: seq<Record>, user: int, prefix: string, ttl: real, now: real)
    requires Mirrors(cache, log)
    ensures var last := LiveLast(log, user, prefix);
      Hit(cache, CacheKey(user, prefix), ttl, now) ==
        if ttl > 0.0 && last.Some? && now < last.value.completed + last.value.ttl then last else None
  {
    assert CachedFor(cache, user, prefix) == LiveLast(log, user, prefix);
  }

  lemma MirrorsStored(cache: Cache, log: seq<Record>, r: Response)
    requires Mirrors(cache, log)
    ensures Mirrors(cache[CacheKey(r.user, r.prefix) := Entry(r.completed + r.ttl, r)], log + [Stored(r)])
  {
    var more := cache[CacheKey(r.user, r.prefix) := Entry(r.completed + r.ttl, r)];
    forall u, p ensures CachedFor(more, u, p) == LiveLast(log + [Stored(r)], u, p) {
      LastSnoc(log, Stored(r), u, p);
      KeysSeparateUsers(u, p, r.user, r.prefix);
    }
  }

  lemma MirrorsDropped(cache: Cache, log: seq<Record>, user: int)
    requires Mirrors(cache, log)
    ensures Mirrors(Invalidated(cache, user), log + [Dropped(user)])
  {
    InvalidatesExactlyTheUser(cache, user);
    forall u, p ensures CachedFor(Invalidated(cache, user), u, p) == LiveLast(log + [Dropped(user)], u, p) {
      LastSnoc(log, Dropped(user), u, p);
      PrefixNamesUser(u, p, user);
    }
  }

  /** A response of the log is one for the key it was stored under. */
  lemma {:induction false} LiveLastIsFor(log: seq<Record>, user: int, prefix: string)
    ensures var last := LiveLast(log, user, prefix);
      last.Some? ==> last.value.user == user && last.value.prefix == prefix && Stored(last.value) in log
  {
    if log != [] && log[|log| - 1] != Dropped(user) { LiveLastIsFor(log[..|log| - 1], user, prefix); }
  }
}
