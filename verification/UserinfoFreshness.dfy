/** What the userinfo cache holds, what callers get from it, and how often it is refilled. */
module UserinfoFreshness {
  import opened Wrappers
  import opened UserKeys
  import opened UserinfoStore
  import opened UserinfoClient
  import opened UserinfoProtocol
  import Rates

  /** The request began only once the live entry, if there is one, had expired. */
  predicate Cleared(log: seq<Record>, user: int, prefix: string, began: real) {
    var last := LiveLast(log, user, prefix);
    last.Some? ==> began >= last.value.completed + last.value.ttl
  }

  // ---------------------------------------------------------------------------
  // The cache against the log
  // ---------------------------------------------------------------------------

  /** An entry is the latest response stored under its key, and expires by its writer's ttl. */
  ghost predicate BackedEntry(k: string, e: Entry, log: seq<Record>) {
    && k == CacheKey(e.payload.user, e.payload.prefix)
    && e.expiresAt == e.payload.completed + e.payload.ttl
    && LastStored(log, e.payload.user, e.payload.prefix) == Some(e.payload)
  }

  ghost predicate Backed(cache: Cache, log: seq<Record>) {
    forall k :: k in cache ==> BackedEntry(k, cache[k], log)
  }

  /** Nothing stored is lost except by invalidation. */
  ghost predicate Complete(cache: Cache, log: seq<Record>) {
    forall u, p :: LiveLast(log, u, p).Some? ==> Present(cache, u, p, LiveLast(log, u, p).value)
  }

  ghost predicate Present(cache: Cache, user: int, prefix: string, response: Response) {
    CacheKey(user, prefix) in cache && cache[CacheKey(user, prefix)].payload == response
  }

  lemma WriteKeepsCache(cache: Cache, log: seq<Record>, e: Entry)
    requires Backed(cache, log) && Complete(cache, log) && e.expiresAt == e.payload.completed + e.payload.ttl
    ensures var k := CacheKey(e.payload.user, e.payload.prefix);
      Backed(cache[k := e], log + [Stored(e.payload)]) && Complete(cache[k := e], log + [Stored(e.payload)])
  {
    var key := CacheKey(e.payload.user, e.payload.prefix);
    var cache', log' := cache[key := e], log + [Stored(e.payload)];
    forall k | k in cache' ensures BackedEntry(k, cache'[k], log') {
      var r := cache'[k].payload;
      LastSnoc(log, Stored(e.payload), r.user, r.prefix);
      if k != key { assert BackedEntry(k, cache[k], log); }
    }
    forall u, p | LiveLast(log', u, p).Some? ensures Present(cache', u, p, LiveLast(log', u, p).value) {
      LastSnoc(log, Stored(e.payload), u, p);
      KeysSeparateUsers(u, p, e.payload.user, e.payload.prefix);
    }
  }

  /** Recording an invalidation, whatever part of the user's entries is deleted with it. */
  lemma DropKeepsCache(cache: Cache, less: Cache, log: seq<Record>, user: int)
    requires Backed(cache, log) && Complete(cache, log)
    requires forall k :: k in less ==> k in cache && less[k] == cache[k]
    requires forall k :: k in cache && !(UserPrefix(user) <= k) ==> k in less
    ensures Backed(less, log + [Dropped(user)]) && Complete(less, log + [Dropped(user)])
  {
    var log' := log + [Dropped(user)];
    forall k | k in less ensures BackedEntry(k, less[k], log') {
      assert BackedEntry(k, cache[k], log);
      LastSnoc(log, Dropped(user), less[k].payload.user, less[k].payload.prefix);
    }
    forall u, p | LiveLast(log', u, p).Some? ensures Present(less, u, p, LiveLast(log', u, p).value) {
      LastSnoc(log, Dropped(user), u, p);
      PrefixNamesUser(u, p, user);
    }
  }

  /** Deleting a key of a user who has no live entry. */
  lemma VisitKeepsCache(cache: Cache, log: seq<Record>, user: int, k: string)
    requires Backed(cache, log) && Complete(cache, log) && UserPrefix(user) <= k
    requires forall p :: LiveLast(log, user, p).None?
    ensures Backed(cache - {k}, log) && Complete(cache - {k}, log)
  {
    forall x | x in cache - {k} ensures BackedEntry(x, cache[x], log) {}
    forall u, p | LiveLast(log, u, p).Some? ensures Present(cache - {k}, u, p, LiveLast(log, u, p).value) {
      PrefixNamesUser(u, p, user);
    }
  }

  // ---------------------------------------------------------------------------
  // The parties against the log
  // ---------------------------------------------------------------------------

  /** The response was requested for exactly this call. */
  predicate ResponseFor(p: Party, r: Response) {
    r.user == p.user && r.prefix == p.prefix && r.ttl == p.ttl && r.requested >= p.started && r.began <= r.completed
  }

  /** What a call may return: its fallback, its own response, or one that was fresh when it began. */
  ghost predicate GoodAnswer(p: Party, answer: Answer, seen: nat, log: seq<Record>) {
    match answer
    case Fallback => true
    case Own(r) => ResponseFor(p, r) && Stored(r) in log
    case Cached(r) => p.logged <= seen <= |log| && LatestWhenSeen(p, r, log[..seen]) && p.now < r.completed + r.ttl
  }

  /** With the log as it was when the cache was read, the response is the latest one stored for the key. */
  predicate LatestWhenSeen(p: Party, r: Response, log: seq<Record>) {
    r.user == p.user && r.prefix == p.prefix && LastStored(log, p.user, p.prefix) == Some(r)
  }

  ghost predicate GoodParty(s: State, p: Party) {
    && p.now <= s.clock && p.started < s.steps && p.logged <= |s.log|
    && match p.pc
       case Requesting(requested, began) =>
         && p.started <= requested < s.steps && began <= s.clock
         && (p.ttl > 0.0 ==> Cleared(s.log, p.user, p.prefix, began))
       case Writing(e) =>
         && ResponseFor(p, e.payload) && e.expiresAt == e.payload.completed + e.payload.ttl
         && (p.ttl > 0.0 ==> Cleared(s.log, p.user, p.prefix, e.payload.began))
       case Scanning(_, _) => forall x :: LiveLast(s.log, p.user, x).None?
       case Answered(answer, seen) => GoodAnswer(p, answer, seen, s.log)
       case _ => true
  }

  /** Every stored response by a caller with a ttl was requested after the entry it replaces had expired. */
  ghost predicate SpacedLog(log: seq<Record>) {
    forall j :: 0 <= j < |log| && log[j].Stored? ==> SpacedRecord(log, j)
  }

  ghost predicate SpacedRecord(log: seq<Record>, j: nat)
    requires j < |log| && log[j].Stored?
  {
    var r := log[j].response;
    r.began <= r.completed && (r.ttl > 0.0 ==> Cleared(log[..j], r.user, r.prefix, r.began))
  }

  ghost predicate Good(s: State) {
    && Exclusive(s)
    && Backed(s.cache, s.log) && Complete(s.cache, s.log) && SpacedLog(s.log)
    && (forall t :: t in s.parties ==> GoodParty(s, s.parties[t]))
  }

  /** The unlocked look, and the look under the lock, find the latest response stored, fresh at call time. */
  lemma HitIsLatest(cache: Cache, log: seq<Record>, user: int, prefix: string, ttl: real, now: real)
    requires Backed(cache, log)
    ensures var hit := Hit(cache, CacheKey(user, prefix), ttl, now);
      hit.Some? ==>
        && hit == LastStored(log, user, prefix)
        && hit.value.user == user && hit.value.prefix == prefix
        && now < hit.value.completed + hit.value.ttl
  {
    var k := CacheKey(user, prefix);
    if k in cache {
      assert BackedEntry(k, cache[k], log);
      KeysSeparateUsers(user, prefix, cache[k].payload.user, cache[k].payload.prefix);
    }
  }

  /** A miss of a caller with a ttl means that no live entry is fresh any more. */
  lemma MissIsCleared(cache: Cache, log: seq<Record>, user: int, prefix: string, ttl: real, now: real, began: real)
    requires Backed(cache, log) && Complete(cache, log) && now <= began && ttl > 0.0
    requires Hit(cache, CacheKey(user, prefix), ttl, now).None?
    ensures Cleared(log, user, prefix, began)
  {
    if LiveLast(log, user, prefix).Some? {
      assert Present(cache, user, prefix, LiveLast(log, user, prefix).value);
      assert BackedEntry(CacheKey(user, prefix), cache[CacheKey(user, prefix)], log);
    }
  }

  /** A party that does not move stays good while the log stays, or grows by a record that spares it. */
  lemma BystanderStaysGood(s: State, r: State, p: Party)
    requires GoodParty(s, p) && s.clock <= r.clock && s.steps <= r.steps
    requires r.log == s.log ||
      (exists x :: r.log == s.log + [x] && (x.Dropped? || !Holds(p.pc)))
    ensures GoodParty(r, p)
  {
    if r.log != s.log {
      var x :| r.log == s.log + [x] && (x.Dropped? || !Holds(p.pc));
      LastSnoc(s.log, x, p.user, p.prefix);
      if p.pc.Answered? && p.pc.answer.Cached? { assert r.log[..p.pc.seen] == s.log[..p.pc.seen]; }
      if p.pc.Scanning? {
        forall y ensures LiveLast(r.log, p.user, y).None? { LastSnoc(s.log, x, p.user, y); }
      }
    }
  }

  lemma SpacedSnoc(log: seq<Record>, x: Record)
    requires SpacedLog(log)
    requires x.Stored? ==>
      x.response.began <= x.response.completed &&
      (x.response.ttl > 0.0 ==> Cleared(log, x.response.user, x.response.prefix, x.response.began))
    ensures SpacedLog(log + [x])
  {
    var log' := log + [x];
    forall j | 0 <= j < |log'| && log'[j].Stored? ensures SpacedRecord(log', j) {
      if j < |log| {
        assert SpacedRecord(log, j);
        assert log'[..j] == log[..j];
      } else {
        assert log'[..j] == log;
      }
    }
  }

  /** The event leaves cache and log in agreement. */
  lemma StepKeepsCache(locked: bool, s: State, ev: Event)
    requires Backed(s.cache, s.log) && Complete(s.cache, s.log) && SpacedLog(s.log) && Enabled(locked, s, ev)
    requires ev.Write? || ev.Visit? ==> GoodParty(s, s.parties[ev.id])
    ensures var r := Step(locked, s, ev);
      Backed(r.cache, r.log) && Complete(r.cache, r.log) && SpacedLog(r.log)
  {
    match ev
    case Write(t) =>
      var p := s.parties[t];
      WriteKeepsCache(s.cache, s.log, p.pc.entry);
      SpacedSnoc(s.log, Stored(p.pc.entry.payload));
    case Acquire(t) =>
      if s.parties[t].pc.InvalidateQueued? {
        DropKeepsCache(s.cache, s.cache, s.log, s.parties[t].user);
        SpacedSnoc(s.log, Dropped(s.parties[t].user));
      }
    case Visit(t, k) =>
      var p := s.parties[t];
      if UserPrefix(p.user) <= k { VisitKeepsCache(s.cache, s.log, p.user, k); }
    case InvalidateNow(user) =>
      DropKeepsCache(s.cache, Invalidated(s.cache, user), s.log, user);
      SpacedSnoc(s.log, Dropped(user));
    case _ =>
  }

  /** A look at the cache gives a good answer, whichever look it is. */
  lemma HitIsGood(s: State, p: Party)
    requires Backed(s.cache, s.log) && p.logged <= |s.log|
    ensures var hit := Hit(s.cache, Key(p), p.ttl, p.now);
      hit.Some? ==> GoodAnswer(p, Cached(hit.value), |s.log|, s.log)
  {
    HitIsLatest(s.cache, s.log, p.user, p.prefix, p.ttl, p.now);
    assert s.log[..|s.log|] == s.log;
  }

  /** The party that moves is good afterwards. */
  lemma ActorStaysGood(locked: bool, s: State, ev: Event, t: PartyId)
    requires Backed(s.cache, s.log) && Complete(s.cache, s.log) && Enabled(locked, s, ev)
    requires t in s.parties && Actor(ev) == Some(t) && GoodParty(s, s.parties[t])
    ensures var r := Step(locked, s, ev); t in r.parties && GoodParty(r, r.parties[t])
  {
    var p := s.parties[t];
    match ev
    case Look(_) => HitIsGood(s, p);
    case Acquire(_) =>
      forall y
        ensures LiveLast(s.log + [Dropped(p.user)], p.user, y).None? { LastSnoc(s.log, Dropped(p.user), p.user, y); }
    case LookAgain(_) => LookAgainStaysGood(locked, s, t);
    case _ =>
  }

  lemma LookAgainStaysGood(locked: bool, s: State, t: PartyId)
    requires Backed(s.cache, s.log) && Complete(s.cache, s.log) && Enabled(locked, s, LookAgain(t))
    requires GoodParty(s, s.parties[t])
    ensures var r := Step(locked, s, LookAgain(t)); t in r.parties && GoodParty(r, r.parties[t])
  {
    var p := s.parties[t];
    HitIsGood(s, p);
    if p.ttl > 0.0 && Hit(s.cache, Key(p), p.ttl, p.now).None? {
      MissIsCleared(s.cache, s.log, p.user, p.prefix, p.ttl, p.now, s.clock);
    }
  }

  lemma StepGood(locked: bool, s: State, ev: Event)
    requires Good(s) && Enabled(locked, s, ev)
    ensures Good(Step(locked, s, ev))
  {
    var r := Step(locked, s, ev);
    StepExclusive(locked, s, ev);
    StepKeepsCache(locked, s, ev);
    forall t | t in r.parties ensures GoodParty(r, r.parties[t]) {
      if t !in s.parties {
        StepAdmits(locked, s, ev, t);
      } else if Actor(ev) == Some(t) {
        ActorStaysGood(locked, s, ev, t);
      } else {
        StepIsLocal(locked, s, ev, t);
        StepLog(locked, s, ev, t);
        BystanderStaysGood(s, r, s.parties[t]);
      }
    }
  }

  /** The log grows by one record at most; a stored response is recorded by the party that holds the lock. */
  lemma StepLog(locked: bool, s: State, ev: Event, t: PartyId)
    requires Exclusive(s) && Enabled(locked, s, ev) && t in s.parties && Actor(ev) != Some(t)
    ensures var r := Step(locked, s, ev);
      && r.clock >= s.clock && r.steps == s.steps + 1
      && (r.log == s.log || (exists x :: r.log == s.log + [x] && (x.Dropped? || !Holds(s.parties[t].pc))))
  {
    var r := Step(locked, s, ev);
    if ev.Write? {
      var x := Stored(s.parties[ev.id].pc.entry.payload);
      assert r.log == s.log + [x] && !Holds(s.parties[t].pc);
    } else if ev.InvalidateNow? {
      var x := Dropped(ev.user);
      assert r.log == s.log + [x] && x.Dropped?;
    } else if ev.Acquire? && s.parties[ev.id].pc.InvalidateQueued? {
      var x := Dropped(s.parties[ev.id].user);
      assert r.log == s.log + [x] && x.Dropped?;
    }
  }

  lemma {:induction false} RunGood(locked: bool, evs: seq<Event>)
    requires Possible(locked, Initial, evs)
    ensures Good(Exec(locked, Initial, evs))
  {
    if evs != [] {
      RunGood(locked, evs[..|evs| - 1]);
      StepGood(locked, Exec(locked, Initial, evs[..|evs| - 1]), evs[|evs| - 1]);
    }
  }

  // ---------------------------------------------------------------------------
  // What callers get
  // ---------------------------------------------------------------------------

  /**
   * Provenance and freshness in every interleaving: a payload returned by `fetch` is
   * the caller's own fallback, the response to its own request, or the response that was,
   * at some moment since the call began, the latest one stored for the same user id and
   * token prefix, and that had not expired, by its writer's ttl, when the call began.
   */
  lemma AnswersAreFresh(locked: bool, evs: seq<Event>, t: PartyId)
    requires Possible(locked, Initial, evs)
    requires t in Exec(locked, Initial, evs).parties && Exec(locked, Initial, evs).parties[t].pc.Answered?
    ensures var s := Exec(locked, Initial, evs);
      GoodAnswer(s.parties[t], s.parties[t].pc.answer, s.parties[t].pc.seen, s.log)
  {
    RunGood(locked, evs);
    var s := Exec(locked, Initial, evs);
    assert GoodParty(s, s.parties[t]);
  }

  /** A caller that hits at this moment gets the latest response stored for its key. */
  lemma CacheServesLatest(locked: bool, evs: seq<Event>, user: int, prefix: string, ttl: real, now: real)
    requires Possible(locked, Initial, evs)
    ensures var s := Exec(locked, Initial, evs);
      var hit := Hit(s.cache, CacheKey(user, prefix), ttl, now);
      hit.Some? ==> hit == LastStored(s.log, user, prefix) && now < hit.value.completed + hit.value.ttl
  {
    RunGood(locked, evs);
    var s := Exec(locked, Initial, evs);
    HitIsLatest(s.cache, s.log, user, prefix, ttl, now);
  }

  // ---------------------------------------------------------------------------
  // How often requests succeed
  // ---------------------------------------------------------------------------

  /** Nothing recorded from `i` on and before `j` concerns the user's key. */
  predicate Quiet(log: seq<Record>, i: nat, j: nat, user: int, prefix: string)
    requires i <= j <= |log|
  {
    forall k :: i <= k < j ==> !StoredFor(log[k], user, prefix) && log[k] != Dropped(user)
  }

  lemma {:induction false} LiveLastIs(log: seq<Record>, i: nat, j: nat, user: int, prefix: string)
    requires i < j <= |log| && StoredFor(log[i], user, prefix) && Quiet(log, i + 1, j, user, prefix)
    ensures LiveLast(log[..j], user, prefix) == Some(log[i].response)
  {
    assert log[..j][..j - 1] == log[..j - 1];
    if i < j - 1 { LiveLastIs(log, i, j - 1, user, prefix); }
  }

  /**
   * The rate bound: between invalidations of the user, a successful request by a caller
   * with a ttl that follows another one for the same key began no earlier than that
   * one's completion plus its ttl.
   */
  lemma RequestsAreSpaced(locked: bool, evs: seq<Event>, i: nat, j: nat)
    requires Possible(locked, Initial, evs)
    requires var log := Exec(locked, Initial, evs).log;
      && i < j < |log| && log[j].Stored? && log[j].response.ttl > 0.0
      && StoredFor(log[i], log[j].response.user, log[j].response.prefix)
      && Quiet(log, i + 1, j, log[j].response.user, log[j].response.prefix)
    ensures var log := Exec(locked, Initial, evs).log;
      && log[j].response.began >= log[i].response.completed + log[i].response.ttl
      && log[i].response.completed >= log[i].response.began
  {
    RunGood(locked, evs);
    var log := Exec(locked, Initial, evs).log;
    assert SpacedRecord(log, j) && SpacedRecord(log, i);
    LiveLastIs(log, i, j, log[j].response.user, log[j].response.prefix);
  }

  /** When the successful requests for a key, recorded from `a` on and before `b`, began, within a window. */
  function RequestTimes(log: seq<Record>, a: nat, b: nat, user: int, prefix: string, from: real,
                        to: real): (r: seq<real>)
    requires a <= b <= |log|
    decreases b
  {
    if a == b then []
    else
      var before := RequestTimes(log, a, b - 1, user, prefix, from, to);
      if StoredFor(log[b - 1], user, prefix) && from <= log[b - 1].response.began <= to
      then before + [log[b - 1].response.began] else before
  }

  /** In this stretch of the log the user is not invalidated and all callers for the key share `ttl`. */
  ghost predicate SharedTtl(log: seq<Record>, a: nat, b: nat, user: int, prefix: string, ttl: real)
    requires a <= b <= |log|
  {
    forall k :: a <= k < b ==>
      log[k] != Dropped(user) && (StoredFor(log[k], user, prefix) ==> log[k].response.ttl == ttl)
  }

  /** The last response of the stretch, if any, began at or after the last time counted. */
  lemma {:induction false} TimesAreSpaced(log: seq<Record>, a: nat, b: nat, user: int, prefix: string, ttl: real,
                                          from: real, to: real)
    requires a <= b <= |log| && ttl > 0.0 && SpacedLog(log) && SharedTtl(log, a, b, user, prefix, ttl)
    ensures var times := RequestTimes(log, a, b, user, prefix, from, to);
      && Rates.Spaced(times, ttl)
      && (forall i :: 0 <= i < |times| ==> from <= times[i] <= to)
      && (times != [] ==>
           var last := LiveLast(log[..b], user, prefix);
           last.Some? && last.value.began >= times[|times| - 1] && last.value.ttl == ttl &&
           last.value.completed >= last.value.began)
    decreases b
  {
    if a < b {
      TimesAreSpaced(log, a, b - 1, user, prefix, ttl, from, to);
      assert log[..b] == log[..b - 1] + [log[b - 1]];
      LastSnoc(log[..b - 1], log[b - 1], user, prefix);
      if log[b - 1].Stored? { assert SpacedRecord(log, b - 1); }
    }
  }

  /**
   * When all callers for a key share a ttl, any window of length W sees at most
   * 1 + floor(W / ttl) successful requests for it between two invalidations of the user.
   */
  lemma SuccessfulRequestRate(locked: bool, evs: seq<Event>, a: nat, b: nat, user: int, prefix: string, ttl: real,
                              from: real, to: real)
    requires Possible(locked, Initial, evs) && ttl > 0.0 && from <= to
    requires var log := Exec(locked, Initial, evs).log;
      a <= b <= |log| && SharedTtl(log, a, b, user, prefix, ttl)
    ensures var log := Exec(locked, Initial, evs).log;
      |RequestTimes(log, a, b, user, prefix, from, to)| <= 1 + ((to - from) / ttl).Floor
  {
    RunGood(locked, evs);
    var log := Exec(locked, Initial, evs).log;
    TimesAreSpaced(log, a, b, user, prefix, ttl, from, to);
    Rates.RateBound(RequestTimes(log, a, b, user, prefix, from, to), ttl, from, to);
  }
}
