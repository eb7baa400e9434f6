/**
 * What `invalidate` guarantees against requests that are on their way.
 *
 * The synchronous client's `invalidate` waits for the lock, so nothing requested
 * before it can be served to a call that starts after it.  The asynchronous client's
 * does not wait: there the guarantee holds exactly when no request for the user is in
 * flight at that moment.
 */
module UserinfoInvalidation {
  import opened Wrappers
  import opened UserKeys
  import opened UserinfoStore
  import opened UserinfoClient
  import opened UserinfoProtocol
  import opened UserinfoFreshness

  /** The party is answered with a payload, its own or a cached one. */
  predicate HasPayload(p: Party) {
    p.pc.Answered? && !p.pc.answer.Fallback?
  }

  /** What the party holds or returned for the user was requested after position `at`. */
  ghost predicate CleanParty(p: Party, user: int, at: nat, since: nat) {
    p.user == user ==>
      && (p.pc.Requesting? ==> p.pc.requested > at)
      && (p.pc.Writing? ==> p.pc.entry.payload.requested > at)
      && (HasPayload(p) && p.started > since ==> p.pc.answer.payload.requested > at)
  }

  ghost predicate CleanCache(cache: Cache, user: int, at: nat) {
    forall k :: k in cache && cache[k].payload.user == user ==> cache[k].payload.requested > at
  }

  /** Nothing requested for the user up to `at` can reach a call that starts after `since`. */
  ghost predicate CleanSince(s: State, user: int, at: nat, since: nat) {
    && at < s.steps && CleanCache(s.cache, user, at)
    && (forall t :: t in s.parties ==> CleanParty(s.parties[t], user, at, since))
  }

  lemma HitIsClean(s: State, p: Party, user: int, at: nat)
    requires Backed(s.cache, s.log) && CleanCache(s.cache, user, at) && p.user == user
    ensures var hit := Hit(s.cache, Key(p), p.ttl, p.now); hit.Some? ==> hit.value.requested > at
  {
    HitIsLatest(s.cache, s.log, p.user, p.prefix, p.ttl, p.now);
  }

  lemma LookStaysClean(locked: bool, s: State, ev: Event, user: int, at: nat, since: nat)
    requires Backed(s.cache, s.log) && CleanCache(s.cache, user, at) && at < s.steps && Enabled(locked, s, ev)
    requires ev.Look? || ev.LookAgain?
    ensures var r := Step(locked, s, ev); ev.id in r.parties && CleanParty(r.parties[ev.id], user, at, since)
  {
    if s.parties[ev.id].user == user { HitIsClean(s, s.parties[ev.id], user, at); }
  }

  lemma ActorStaysClean(locked: bool, s: State, ev: Event, t: PartyId, user: int, at: nat, since: nat)
    requires Backed(s.cache, s.log) && CleanCache(s.cache, user, at) && at < s.steps && Enabled(locked, s, ev)
    requires t in s.parties && Actor(ev) == Some(t) && CleanParty(s.parties[t], user, at, since)
    ensures var r := Step(locked, s, ev); t in r.parties && CleanParty(r.parties[t], user, at, since)
  {
    if ev.Look? || ev.LookAgain? { LookStaysClean(locked, s, ev, user, at, since); }
  }

  lemma CacheStaysClean(locked: bool, s: State, ev: Event, user: int, at: nat, since: nat)
    requires CleanCache(s.cache, user, at) && Enabled(locked, s, ev)
    requires ev.Write? ==> GoodParty(s, s.parties[ev.id]) && CleanParty(s.parties[ev.id], user, at, since)
    ensures CleanCache(Step(locked, s, ev).cache, user, at)
  {
  }

  lemma StepStaysClean(locked: bool, s: State, ev: Event, user: int, at: nat, since: nat)
    requires Good(s) && CleanSince(s, user, at, since) && Enabled(locked, s, ev)
    ensures CleanSince(Step(locked, s, ev), user, at, since)
  {
    var r := Step(locked, s, ev);
    if ev.Write? { assert GoodParty(s, s.parties[ev.id]); }
    CacheStaysClean(locked, s, ev, user, at, since);
    forall t | t in r.parties ensures CleanParty(r.parties[t], user, at, since) {
      if t !in s.parties {
        StepAdmits(locked, s, ev, t);
      } else if Actor(ev) == Some(t) {
        ActorStaysClean(locked, s, ev, t, user, at, since);
      } else {
        StepIsLocal(locked, s, ev, t);
      }
    }
  }

  // ---------------------------------------------------------------------------
  // The synchronous client
  // ---------------------------------------------------------------------------

  /** An invalidation at work has only unvisited keys of its user left; a finished one has left a clean cache. */
  ghost predicate FlushedBy(s: State, p: Party) {
    match p.pc
    case Scanning(acquired, todo) =>
      && p.started <= acquired < s.steps
      && (forall k :: k in s.cache && s.cache[k].payload.user == p.user ==> k in todo)
    case InvalidateDone(acquired, returned) =>
      && p.started <= acquired < returned && CleanSince(s, p.user, acquired, returned)
    case _ => true
  }

  ghost predicate Flushed(s: State) {
    forall t :: t in s.parties ==> FlushedBy(s, s.parties[t])
  }

  lemma VisitFlushes(s: State, p: Party, k: string)
    requires Backed(s.cache, s.log) && p.pc.Scanning? && FlushedBy(s, p)
    ensures var cache := if UserPrefix(p.user) <= k then s.cache - {k} else s.cache;
      forall x :: x in cache && cache[x].payload.user == p.user ==> x in p.pc.todo - {k}
  {
    if k in s.cache {
      assert BackedEntry(k, s.cache[k], s.log);
      PrefixNamesUser(s.cache[k].payload.user, s.cache[k].payload.prefix, p.user);
    }
  }

  /** When the scan is over, nothing of the user is left, held or on its way. */
  lemma ReleaseFlushes(locked: bool, s: State, t: PartyId)
    requires Good(s) && Enabled(locked, s, Release(t)) && FlushedBy(s, s.parties[t])
    ensures var r := Step(locked, s, Release(t));
      t in r.parties && FlushedBy(r, r.parties[t])
  {
    var r := Step(locked, s, Release(t));
    var p := s.parties[t];
    forall x | x in r.parties ensures CleanParty(r.parties[x], p.user, p.pc.acquired, s.steps) {
      assert GoodParty(s, s.parties[x]);
    }
  }

  lemma ActorFlushes(locked: bool, s: State, ev: Event, t: PartyId)
    requires Good(s) && Enabled(locked, s, ev) && Actor(ev) == Some(t) && t in s.parties
    requires FlushedBy(s, s.parties[t])
    ensures var r := Step(locked, s, ev); t in r.parties && FlushedBy(r, r.parties[t])
  {
    assert GoodParty(s, s.parties[t]);
    match ev
    case Release(_) => ReleaseFlushes(locked, s, t);
    case Visit(_, k) => VisitFlushes(s, s.parties[t], k);
    case _ =>
  }

  lemma BystanderStaysFlushed(locked: bool, s: State, ev: Event, t: PartyId)
    requires Good(s) && Enabled(locked, s, ev) && Actor(ev) != Some(t) && t in s.parties
    requires FlushedBy(s, s.parties[t])
    ensures FlushedBy(Step(locked, s, ev), s.parties[t])
  {
    var p := s.parties[t];
    if p.pc.InvalidateDone? {
      StepStaysClean(locked, s, ev, p.user, p.pc.acquired, p.pc.returned);
    }
  }

  lemma StepFlushed(locked: bool, s: State, ev: Event)
    requires Good(s) && Flushed(s) && Enabled(locked, s, ev)
    ensures Flushed(Step(locked, s, ev))
  {
    var r := Step(locked, s, ev);
    forall t | t in r.parties ensures FlushedBy(r, r.parties[t]) {
      if t !in s.parties {
        StepAdmits(locked, s, ev, t);
      } else if Actor(ev) == Some(t) {
        ActorFlushes(locked, s, ev, t);
      } else {
        StepIsLocal(locked, s, ev, t);
        BystanderStaysFlushed(locked, s, ev, t);
      }
    }
  }

  lemma {:induction false} RunFlushed(locked: bool, evs: seq<Event>)
    requires Possible(locked, Initial, evs)
    ensures Flushed(Exec(locked, Initial, evs))
  {
    if evs != [] {
      var s := Exec(locked, Initial, evs[..|evs| - 1]);
      RunFlushed(locked, evs[..|evs| - 1]);
      RunGood(locked, evs[..|evs| - 1]);
      StepFlushed(locked, s, evs[|evs| - 1]);
    }
  }

  /**
   * Synchronous invalidation is linearizable against concurrent fetches: a fetch that
   * starts after `invalidate(u)` has returned never yields, for user u, a payload whose
   * HTTP request began before that invalidation took the lock.
   */
  lemma SyncInvalidationIsLinearizable(evs: seq<Event>, v: PartyId, f: PartyId)
    requires Possible(true, Initial, evs)
    requires var s := Exec(true, Initial, evs);
      && v in s.parties && s.parties[v].pc.InvalidateDone?
      && f in s.parties && HasPayload(s.parties[f])
      && s.parties[f].user == s.parties[v].user && s.parties[f].started > s.parties[v].pc.returned
    ensures var s := Exec(true, Initial, evs);
      s.parties[f].pc.answer.payload.requested > s.parties[v].pc.acquired >= s.parties[v].started
  {
    RunFlushed(true, evs);
    var s := Exec(true, Initial, evs);
    assert FlushedBy(s, s.parties[v]);
    assert CleanParty(s.parties[f], s.parties[v].user, s.parties[v].pc.acquired, s.parties[v].pc.returned);
  }

  // ---------------------------------------------------------------------------
  // The asynchronous client
  // ---------------------------------------------------------------------------

  /** A request for the user is on its way, or its response is about to be written. */
  ghost predicate RequestInFlight(s: State, user: int) {
    exists t :: t in s.parties && s.parties[t].user == user && (s.parties[t].pc.Requesting? || s.parties[t].pc.Writing?)
  }

  /** In `r`, a call for the user that began after `s` has been given a payload requested before `s`. */
  ghost predicate ServesOld(s: State, r: State, user: int) {
    exists g :: g in r.parties && g !in s.parties && r.parties[g].user == user &&
      HasPayload(r.parties[g]) && r.parties[g].pc.answer.payload.requested < s.steps
  }

  lemma {:induction false} StaysClean(locked: bool, s: State, evs: seq<Event>, user: int, at: nat, since: nat)
    requires Good(s) && CleanSince(s, user, at, since) && Possible(locked, s, evs)
    ensures Good(Exec(locked, s, evs)) && CleanSince(Exec(locked, s, evs), user, at, since)
  {
    if evs != [] {
      StaysClean(locked, s, evs[..|evs| - 1], user, at, since);
      StepStaysClean(locked, Exec(locked, s, evs[..|evs| - 1]), evs[|evs| - 1], user, at, since);
      StepGood(locked, Exec(locked, s, evs[..|evs| - 1]), evs[|evs| - 1]);
    }
  }

  /** Parties that appear after `s` began after `s`. */
  lemma {:induction false} NewcomersAreLater(locked: bool, s: State, evs: seq<Event>, t: PartyId)
    requires Possible(locked, s, evs) && t !in s.parties && t in Exec(locked, s, evs).parties
    ensures Exec(locked, s, evs).parties[t].started >= s.steps && Exec(locked, s, evs).steps >= s.steps
  {
    var before, ev := Exec(locked, s, evs[..|evs| - 1]), evs[|evs| - 1];
    StepsGrow(locked, s, evs[..|evs| - 1]);
    if t in before.parties {
      NewcomersAreLater(locked, s, evs[..|evs| - 1], t);
      StepIsLocal(locked, before, ev, t);
    } else {
      StepAdmits(locked, before, ev, t);
    }
  }

  lemma {:induction false} StepsGrow(locked: bool, s: State, evs: seq<Event>)
    ensures Exec(locked, s, evs).steps >= s.steps
  {
    if evs != [] { StepsGrow(locked, s, evs[..|evs| - 1]); }
  }

  /** With no request for the user in flight, the unlocked invalidation is as good as the locked one. */
  lemma NothingInFlightIsSafe(s: State, user: int, evs: seq<Event>)
    requires Good(s) && Enabled(false, s, InvalidateNow(user)) && !RequestInFlight(s, user)
    requires Possible(false, Step(false, s, InvalidateNow(user)), evs)
    ensures !ServesOld(s, Exec(false, Step(false, s, InvalidateNow(user)), evs), user)
  {
    var r := Step(false, s, InvalidateNow(user));
    StepGood(false, s, InvalidateNow(user));
    InvalidatedIsClean(s.cache, s.log, user, s.steps);
    forall t | t in r.parties ensures CleanParty(r.parties[t], user, s.steps, s.steps) {
      assert GoodParty(s, s.parties[t]);
    }
    StaysClean(false, r, evs, user, s.steps, s.steps);
    var end := Exec(false, r, evs);
    forall g | g in end.parties && g !in s.parties && end.parties[g].user == user && HasPayload(end.parties[g])
      ensures end.parties[g].pc.answer.payload.requested >= s.steps
    {
      NewcomersAreLater(false, r, evs, g);
      assert CleanParty(end.parties[g], user, s.steps, s.steps);
    }
  }

  lemma InvalidatedIsClean(cache: Cache, log: seq<Record>, user: int, at: nat)
    requires Backed(cache, log)
    ensures CleanCache(Invalidated(cache, user), user, at)
  {
    forall k | k in cache ensures k == CacheKey(cache[k].payload.user, cache[k].payload.prefix) {
      assert BackedEntry(k, cache[k], log);
    }
    InvalidatesExactlyTheUser(cache, user);
  }

  /** One more event of a run that began in `s0`. */
  lemma Then(locked: bool, s0: State, evs: seq<Event>, ev: Event) returns (r: seq<Event>)
    requires Possible(locked, s0, evs) && Enabled(locked, Exec(locked, s0, evs), ev)
    ensures r == evs + [ev] && Possible(locked, s0, r)
    ensures Exec(locked, s0, r) == Step(locked, Exec(locked, s0, evs), ev)
  {
    r := evs + [ev];
    assert r[..|r| - 1] == evs;
  }

  /** A clock reading late enough for any response to `p` to be unexpired when `now` was. */
  function LateEnough(now: real, p: Party): real {
    now + (if p.ttl < 0.0 then 1.0 - p.ttl else 1.0)
  }

  /** With the user's request in flight, a new call for the user misses and waits for the lock. */
  lemma NewCallWaits(s: State, user: int, t: PartyId, f: PartyId) returns (evs: seq<Event>)
    requires Exclusive(s) && Enabled(false, s, InvalidateNow(user)) && f !in s.parties
    requires t in s.parties && s.parties[t].user == user && s.parties[t].pc.Requesting?
    ensures var s1 := Step(false, s, InvalidateNow(user));
      var r := Exec(false, s1, evs);
      && Possible(false, s1, evs)
      && r.lock == Some(t) && r.clock == LateEnough(s.clock, s.parties[t])
      && t in r.parties && r.parties[t] == s.parties[t]
      && f in r.parties && r.parties[f] ==
          Party(user, s.parties[t].prefix, 1.0, s.clock, s.steps + 1, |s.log| + 1, Queued)
  {
    var p := s.parties[t];
    var s1 := Step(false, s, InvalidateNow(user));
    PrefixNamesUser(user, p.prefix, user);
    evs := Then(false, s1, [], CallFetch(f, user, p.prefix, 1.0));
    assert Exec(false, s1, evs).parties[f] == Party(user, p.prefix, 1.0, s.clock, s.steps + 1, |s.log| + 1, Starting);
    evs := Then(false, s1, evs, Look(f));
    assert Exec(false, s1, evs).parties[f].pc == Queued;
    evs := Then(false, s1, evs, Tick(LateEnough(s.clock, p)));
  }

  /** The response arrives and is written. */
  lemma ResponseLands(s1: State, evs: seq<Event>, t: PartyId, f: PartyId, body: Body) returns (more: seq<Event>)
    requires Possible(false, s1, evs)
    requires var s := Exec(false, s1, evs);
      && s.lock == Some(t) && t in s.parties && s.parties[t].pc.Requesting? && f in s.parties && f != t
    ensures Possible(false, s1, more)
    ensures var s, r := Exec(false, s1, evs), Exec(false, s1, more);
      var p := s.parties[t];
      && r.lock.None? && f in r.parties && r.parties[f] == s.parties[f] && Key(p) in r.cache
      && r.cache[Key(p)] == Entry(s.clock + p.ttl,
           Response(body, p.user, p.prefix, p.pc.requested, p.pc.began, s.clock, p.ttl))
  {
    more := Then(false, s1, evs, Respond(t, Some(body)));
    more := Then(false, s1, more, Write(t));
  }

  /** The call that waits gets the lock and looks again. */
  lemma WaiterIsServed(s1: State, evs: seq<Event>, f: PartyId) returns (more: seq<Event>)
    requires Possible(false, s1, evs)
    requires var s := Exec(false, s1, evs);
      && s.lock.None? && f in s.parties && s.parties[f].pc.Queued?
      && Hit(s.cache, Key(s.parties[f]), s.parties[f].ttl, s.parties[f].now).Some?
    ensures Possible(false, s1, more)
    ensures var s, r := Exec(false, s1, evs), Exec(false, s1, more);
      var p := s.parties[f];
      f in r.parties && r.parties[f] == p.(pc := Answered(Cached(Hit(s.cache, Key(p), p.ttl, p.now).value), |s.log|))
  {
    more := Then(false, s1, evs, Acquire(f));
    more := Then(false, s1, more, LookAgain(f));
  }

  /** After `invalidate(user)` in `s`, the events `evs` lead to a call that is served an old payload. */
  ghost predicate Loses(s: State, user: int, evs: seq<Event>) {
    var s1 := Step(false, s, InvalidateNow(user));
    Possible(false, s1, evs) && ServesOld(s, Exec(false, s1, evs), user)
  }

  /** A run in which the invalidation is lost on a request in flight. */
  lemma InFlightIsServed(s: State, user: int, t: PartyId, f: PartyId, body: Body) returns (evs: seq<Event>)
    requires Good(s) && Enabled(false, s, InvalidateNow(user)) && f !in s.parties
    requires t in s.parties && s.parties[t].user == user && s.parties[t].pc.Requesting?
    ensures Loses(s, user, evs)
  {
    var s1 := Step(false, s, InvalidateNow(user));
    evs := NewCallWaits(s, user, t, f);
    evs := ResponseLands(s1, evs, t, f, body);
    evs := WaiterIsServed(s1, evs, f);
    assert GoodParty(s, s.parties[t]);
  }

  lemma LosesExactlyWhen(s: State, user: int, f: PartyId, body: Body)
    requires Good(s) && Enabled(false, s, InvalidateNow(user)) && f !in s.parties
    ensures (exists evs :: Loses(s, user, evs)) <==> RequestInFlight(s, user)
  {
    if RequestInFlight(s, user) {
      var t :| t in s.parties && s.parties[t].user == user && (s.parties[t].pc.Requesting? || s.parties[t].pc.Writing?);
      var evs := InFlightIsServed(s, user, t, f, body);
    } else {
      forall evs ensures !Loses(s, user, evs) {
        if Possible(false, Step(false, s, InvalidateNow(user)), evs) { NothingInFlightIsSafe(s, user, evs); }
      }
    }
  }

  /**
   * Asynchronous invalidation, exactly: some continuation serves a call that starts
   * after `invalidate(u)` a payload for u requested before it, if and only if a request
   * for u is in flight when `invalidate(u)` is called.
   */
  lemma AsyncInvalidationExactlyWhen(evs: seq<Event>, user: int, f: PartyId, body: Body)
    requires Possible(false, Initial, evs)
    requires Enabled(false, Exec(false, Initial, evs), InvalidateNow(user)) && f !in Exec(false, Initial, evs).parties
    ensures var s := Exec(false, Initial, evs);
      (exists more :: Loses(s, user, more)) <==> RequestInFlight(s, user)
  {
    RunGood(false, evs);
    LosesExactlyWhen(Exec(false, Initial, evs), user, f, body);
  }
}
