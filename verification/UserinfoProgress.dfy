/**
 * What a call on a userinfo client waits for and what it does not, for both clients and
 * whoever holds the lock.
 *
 * An unexpired entry answers a call without the lock.  An invalidation, once it has the
 * lock, comes to its end by its own steps; and no call ever gets stuck.
 */
module UserinfoProgress {
  import opened Wrappers
  import opened UserKeys
  import opened UserinfoStore
  import opened UserinfoClient
  import opened UserinfoProtocol
  import opened UserinfoFreshness
  import UserinfoInvalidation

  /** A task of the asynchronous client is about to write the response it has just got. */
  predicate AboutToWrite(locked: bool, s: State) {
    !locked && s.lock.Some? && At(s, s.lock.value, (pc: Pc) => pc.Writing?)
  }

  // ---------------------------------------------------------------------------
  // Answered at once
  // ---------------------------------------------------------------------------

  /** The call's key holds an entry that has not expired for it. */
  predicate Unexpired(s: State, p: Party) {
    p.ttl > 0.0 && Key(p) in s.cache && p.now < s.cache[Key(p)].expiresAt
  }

  /**
   * The first look needs no lock: whoever holds it, a call can look at once; an unexpired
   * entry under its key answers it there and then, and changes nothing else; otherwise it
   * queues for the lock.
   */
  lemma LookDecides(locked: bool, s: State, t: PartyId)
    requires t in s.parties && s.parties[t].pc == Starting
    ensures Enabled(locked, s, Look(t)) <==> !AboutToWrite(locked, s)
    ensures Enabled(locked, s, Look(t)) ==>
      var p, r := s.parties[t], Step(locked, s, Look(t));
      && r.lock == s.lock && r.cache == s.cache && r.log == s.log && r.clock == s.clock
      && t in r.parties && r.parties == s.parties[t := p.(pc := r.parties[t].pc)]
      && r.parties[t].pc ==
           if Unexpired(s, p) then Answered(Cached(s.cache[Key(p)].payload), |s.log|) else Queued
  {
  }

  /** In terms of the history: the latest response stored since the user was dropped, while unexpired, is the answer. */
  lemma LookGivesLatest(locked: bool, evs: seq<Event>, t: PartyId)
    requires Possible(locked, Initial, evs)
    requires var s := Exec(locked, Initial, evs);
      && t in s.parties && s.parties[t].pc == Starting && s.parties[t].ttl > 0.0 && !AboutToWrite(locked, s)
      && var p := s.parties[t];
         var last := LiveLast(s.log, p.user, p.prefix);
         last.Some? && p.now < last.value.completed + last.value.ttl
    ensures var s := Exec(locked, Initial, evs);
      var p, r := s.parties[t], Step(locked, s, Look(t));
      t in r.parties && r.parties[t].pc == Answered(Cached(LiveLast(s.log, p.user, p.prefix).value), |s.log|)
  {
    RunGood(locked, evs);
    var s := Exec(locked, Initial, evs);
    var p := s.parties[t];
    assert Present(s.cache, p.user, p.prefix, LiveLast(s.log, p.user, p.prefix).value);
    assert BackedEntry(Key(p), s.cache[Key(p)], s.log);
    LookDecides(locked, s, t);
  }

  // ---------------------------------------------------------------------------
  // Continuations
  // ---------------------------------------------------------------------------

  /** A continuation of the state after a first event is one of the state before it. */
  lemma {:induction false} ExecCons(locked: bool, s: State, ev: Event, more: seq<Event>)
    requires Enabled(locked, s, ev) && Possible(locked, Step(locked, s, ev), more)
    ensures Possible(locked, s, [ev] + more)
    ensures Exec(locked, s, [ev] + more) == Exec(locked, Step(locked, s, ev), more)
  {
    var all := [ev] + more;
    if more == [] {
      assert all[..|all| - 1] == [];
      assert Exec(locked, s, all) == Step(locked, Exec(locked, s, []), ev);
    } else {
      assert all[..|all| - 1] == [ev] + more[..|more| - 1];
      ExecCons(locked, s, ev, more[..|more| - 1]);
    }
  }

  predicate AllBy(evs: seq<Event>, t: PartyId) {
    forall ev :: ev in evs ==> Actor(ev) == Some(t)
  }

  // ---------------------------------------------------------------------------
  // Invalidations end
  // ---------------------------------------------------------------------------

  /** The invalidation is over: the lock is free, and cache and log are these. */
  predicate ScanIsOver(r: State, t: PartyId, cache: Cache, log: seq<Record>) {
    r.lock.None? && t in r.parties && r.parties[t].pc.InvalidateDone? && r.cache == cache && r.log == log
  }

  /** By its own steps alone the invalidation gets there. */
  ghost predicate CanEndScan(locked: bool, s: State, t: PartyId, cache: Cache, log: seq<Record>) {
    exists evs :: Possible(locked, s, evs) && AllBy(evs, t) && ScanIsOver(Exec(locked, s, evs), t, cache, log)
  }

  lemma StepThenEnds(locked: bool, s: State, ev: Event, t: PartyId, cache: Cache, log: seq<Record>)
    requires Enabled(locked, s, ev) && Actor(ev) == Some(t) && CanEndScan(locked, Step(locked, s, ev), t, cache, log)
    ensures CanEndScan(locked, s, t, cache, log)
  {
    var r := Step(locked, s, ev);
    var evs :| Possible(locked, r, evs) && AllBy(evs, t) && ScanIsOver(Exec(locked, r, evs), t, cache, log);
    ExecCons(locked, s, ev, evs);
    assert AllBy([ev] + evs, t);
  }

  /** The cache when the scan has visited the keys that are left. */
  function Visited(cache: Cache, user: int, todo: set<string>): (r: Cache) {
    map k | k in cache && !(k in todo && UserPrefix(user) <= k) :: cache[k]
  }

  lemma Releases(locked: bool, s: State, t: PartyId)
    requires s.lock == Some(t) && t in s.parties && s.parties[t].pc.Scanning? && s.parties[t].pc.todo == {}
    ensures CanEndScan(locked, s, t, s.cache, s.log)
  {
    var r := Step(locked, s, Release(t));
    assert Enabled(locked, s, Release(t)) && ScanIsOver(r, t, s.cache, s.log);
    assert Possible(locked, r, []) && AllBy([], t) && Exec(locked, r, []) == r;
    StepThenEnds(locked, s, Release(t), t, s.cache, s.log);
  }

  /** A scan under way ends by its own steps, with exactly the matching keys it had yet to visit deleted. */
  lemma ScanEnds(locked: bool, s: State, t: PartyId)
    requires s.lock == Some(t) && t in s.parties && s.parties[t].pc.Scanning?
    ensures CanEndScan(locked, s, t, Visited(s.cache, s.parties[t].user, s.parties[t].pc.todo), s.log)
    decreases |s.parties[t].pc.todo|
  {
    var p := s.parties[t];
    if p.pc.todo == {} {
      assert Visited(s.cache, p.user, {}) == s.cache;
      Releases(locked, s, t);
    } else {
      var k :| k in p.pc.todo;
      var r := Step(locked, s, Visit(t, k));
      VisitsOne(locked, s, t, k);
      ScanEnds(locked, r, t);
      StepThenEnds(locked, s, Visit(t, k), t, Visited(s.cache, p.user, p.pc.todo), s.log);
    }
  }

  lemma VisitsOne(locked: bool, s: State, t: PartyId, k: string)
    requires s.lock == Some(t) && t in s.parties && s.parties[t].pc.Scanning? && k in s.parties[t].pc.todo
    ensures Enabled(locked, s, Visit(t, k))
    ensures var p, r := s.parties[t], Step(locked, s, Visit(t, k));
      && r.lock == Some(t) && r.log == s.log && t in r.parties && r.parties[t].user == p.user
      && r.parties[t].pc == Scanning(p.pc.acquired, p.pc.todo - {k})
      && Visited(r.cache, p.user, p.pc.todo - {k}) == Visited(s.cache, p.user, p.pc.todo)
  {
  }

  /** The cache keeps exactly the other users' entries. */
  ghost predicate KeepsOthers(before: Cache, after: Cache, user: int) {
    && (forall k :: k in after <==> k in before && before[k].payload.user != user)
    && (forall k :: k in after ==> after[k] == before[k])
  }

  lemma VisitedKeepsOthers(cache: Cache, log: seq<Record>, user: int, todo: set<string>)
    requires Backed(cache, log)
    requires forall k :: k in cache && cache[k].payload.user == user ==> k in todo
    ensures KeepsOthers(cache, Visited(cache, user, todo), user)
  {
    forall k | k in cache ensures UserPrefix(user) <= k <==> cache[k].payload.user == user {
      assert BackedEntry(k, cache[k], log);
      PrefixNamesUser(cache[k].payload.user, cache[k].payload.prefix, user);
    }
  }

  /** By its own steps alone the invalidation ends with the user's entries gone, all others kept, and the lock free. */
  ghost predicate CanFlush(locked: bool, s: State, t: PartyId, user: int, log: seq<Record>) {
    exists cache :: KeepsOthers(s.cache, cache, user) && CanEndScan(locked, s, t, cache, log)
  }

  /**
   * From every reachable state with a scan under way its own steps lead to its release:
   * the user's entries are gone, exactly the others are kept, and the lock is free.
   */
  lemma ScanCanFinish(locked: bool, evs: seq<Event>, t: PartyId)
    requires Possible(locked, Initial, evs)
    requires t in Exec(locked, Initial, evs).parties && Exec(locked, Initial, evs).parties[t].pc.Scanning?
    ensures var s := Exec(locked, Initial, evs); CanFlush(locked, s, t, s.parties[t].user, s.log)
  {
    RunGood(locked, evs);
    UserinfoInvalidation.RunFlushed(locked, evs);
    var s := Exec(locked, Initial, evs);
    assert UserinfoInvalidation.FlushedBy(s, s.parties[t]);
    VisitedKeepsOthers(s.cache, s.log, s.parties[t].user, s.parties[t].pc.todo);
    ScanEnds(locked, s, t);
  }

  /**
   * A locked invalidation that finds the lock free comes to its end by its own steps, from
   * every reachable state: exactly the other users' entries are kept, the lock is free
   * again, and all that is recorded is that the user has been dropped.
   */
  lemma InvalidateCompletes(evs: seq<Event>, t: PartyId, user: int)
    requires Possible(true, Initial, evs)
    requires Exec(true, Initial, evs).lock.None? && t !in Exec(true, Initial, evs).parties
    ensures var s := Exec(true, Initial, evs); CanFlush(true, s, t, user, s.log + [Dropped(user)])
  {
    RunGood(true, evs);
    var s := Exec(true, Initial, evs);
    var called := Step(true, s, CallInvalidate(t, user));
    var got := Step(true, called, Acquire(t));
    assert Enabled(true, s, CallInvalidate(t, user)) && Enabled(true, called, Acquire(t));
    var cache := Visited(s.cache, user, s.cache.Keys);
    VisitedKeepsOthers(s.cache, s.log, user, s.cache.Keys);
    ScanEnds(true, got, t);
    assert CanEndScan(true, got, t, cache, s.log + [Dropped(user)]);
    StepThenEnds(true, called, Acquire(t), t, cache, s.log + [Dropped(user)]);
    StepThenEnds(true, s, CallInvalidate(t, user), t, cache, s.log + [Dropped(user)]);
  }

  // ---------------------------------------------------------------------------
  // No call gets stuck
  // ---------------------------------------------------------------------------

  predicate IsOver(s: State, t: PartyId) {
    t in s.parties && (s.parties[t].pc.Answered? || s.parties[t].pc.Aborted? || s.parties[t].pc.InvalidateDone?)
  }

  /** Some continuation ends the call. */
  ghost predicate CanFinish(locked: bool, s: State, t: PartyId) {
    exists evs :: Possible(locked, s, evs) && IsOver(Exec(locked, s, evs), t)
  }

  lemma StepThenCan(locked: bool, s: State, ev: Event, t: PartyId)
    requires Enabled(locked, s, ev) && CanFinish(locked, Step(locked, s, ev), t)
    ensures CanFinish(locked, s, t)
  {
    var r := Step(locked, s, ev);
    var evs :| Possible(locked, r, evs) && IsOver(Exec(locked, r, evs), t);
    ExecCons(locked, s, ev, evs);
  }

  lemma AlreadyOver(locked: bool, s: State, t: PartyId)
    requires IsOver(s, t)
    ensures CanFinish(locked, s, t)
  {
    assert Possible(locked, s, []) && Exec(locked, s, []) == s;
  }

  /** How many more steps the party with the lock needs to leave it. */
  function Left(pc: Pc): (n: nat) {
    match pc
    case Holding => 2
    case Requesting(_, _) => 1
    case Writing(_) => 1
    case Scanning(_, todo) => 1 + |todo|
    case _ => 0
  }

  /** By the event the party with the lock comes nearer to leaving it. */
  predicate GoesOn(locked: bool, s: State, h: PartyId, ev: Event)
    requires h in s.parties
  {
    && Enabled(locked, s, ev) && Actor(ev) == Some(h)
    && var r := Step(locked, s, ev);
       && h in r.parties && Left(r.parties[h].pc) < Left(s.parties[h].pc)
       && (if Holds(r.parties[h].pc) then r.lock == Some(h) else r.lock.None? && IsOver(r, h))
  }

  lemma ScannerGoesOn(locked: bool, s: State, h: PartyId) returns (ev: Event)
    requires s.lock == Some(h) && h in s.parties && s.parties[h].pc.Scanning?
    ensures GoesOn(locked, s, h, ev)
  {
    var todo := s.parties[h].pc.todo;
    if todo == {} {
      ev := Release(h);
    } else {
      var k :| k in todo;
      ev := Visit(h, k);
      assert |todo - {k}| < |todo|;
    }
  }

  lemma FetcherGoesOn(locked: bool, s: State, h: PartyId) returns (ev: Event)
    requires s.lock == Some(h) && h in s.parties && (s.parties[h].pc.Holding? || s.parties[h].pc.Writing?)
    ensures GoesOn(locked, s, h, ev)
  {
    ev := if s.parties[h].pc.Holding? then LookAgain(h) else Write(h);
  }

  lemma RequesterGoesOn(locked: bool, s: State, h: PartyId)
    requires s.lock == Some(h) && h in s.parties && s.parties[h].pc.Requesting?
    ensures GoesOn(locked, s, h, Respond(h, None))
  {
  }

  /** The party with the lock can always go on. */
  lemma HolderGoesOn(locked: bool, s: State, h: PartyId) returns (ev: Event)
    requires s.lock == Some(h) && h in s.parties && Holds(s.parties[h].pc)
    ensures GoesOn(locked, s, h, ev)
  {
    if s.parties[h].pc.Scanning? {
      ev := ScannerGoesOn(locked, s, h);
    } else if s.parties[h].pc.Requesting? {
      RequesterGoesOn(locked, s, h);
      ev := Respond(h, None);
    } else {
      ev := FetcherGoesOn(locked, s, h);
    }
  }

  /** Whoever has the lock leaves it, and then `t` has its way. */
  lemma LockIsLeft(locked: bool, s: State, t: PartyId, h: PartyId)
    requires Exclusive(s) && t in s.parties && s.lock == Some(h)
    ensures CanFinish(locked, s, t)
    decreases 1, Left(s.parties[h].pc)
  {
    var ev := HolderGoesOn(locked, s, h);
    var r := Step(locked, s, ev);
    StepExclusive(locked, s, ev);
    StepIsLocal(locked, s, ev, t);
    if r.lock.Some? {
      LockIsLeft(locked, r, t, h);
    } else if t == h {
      AlreadyOver(locked, r, t);
    } else {
      LockIsFree(locked, r, t);
    }
    StepThenCan(locked, s, ev, t);
  }

  /** The lock is free: the call takes it, if it has to. */
  lemma LockIsFree(locked: bool, s: State, t: PartyId)
    requires Exclusive(s) && t in s.parties && s.lock.None?
    ensures CanFinish(locked, s, t)
  {
    var pc := s.parties[t].pc;
    if IsOver(s, t) {
      AlreadyOver(locked, s, t);
    } else if pc.Starting? {
      var r := Step(locked, s, Look(t));
      LookDecides(locked, s, t);
      StepExclusive(locked, s, Look(t));
      if r.parties[t].pc.Queued? { Takes(locked, r, t); } else { AlreadyOver(locked, r, t); }
      StepThenCan(locked, s, Look(t), t);
    } else {
      Takes(locked, s, t);
    }
  }

  /** A queued party takes the free lock, and goes on until it leaves it. */
  lemma Takes(locked: bool, s: State, t: PartyId)
    requires Exclusive(s) && t in s.parties && s.lock.None?
    requires s.parties[t].pc.Queued? || s.parties[t].pc.InvalidateQueued?
    ensures CanFinish(locked, s, t)
  {
    var r := Step(locked, s, Acquire(t));
    StepExclusive(locked, s, Acquire(t));
    assert r.lock == Some(t) && t in r.parties;
    HolderFinishes(locked, r, t);
    StepThenCan(locked, s, Acquire(t), t);
  }

  lemma HolderFinishes(locked: bool, s: State, t: PartyId)
    requires Exclusive(s) && t in s.parties && s.lock == Some(t)
    ensures CanFinish(locked, s, t)
    decreases Left(s.parties[t].pc)
  {
    var ev := HolderGoesOn(locked, s, t);
    var r := Step(locked, s, ev);
    StepExclusive(locked, s, ev);
    if r.lock.Some? { HolderFinishes(locked, r, t); } else { AlreadyOver(locked, r, t); }
    StepThenCan(locked, s, ev, t);
  }

  /**
   * No call gets stuck: from every reachable state of either client every call, fetch or
   * invalidation, can come to its end.
   */
  lemma EveryCallCanFinish(locked: bool, evs: seq<Event>, t: PartyId)
    requires Possible(locked, Initial, evs) && t in Exec(locked, Initial, evs).parties
    ensures CanFinish(locked, Exec(locked, Initial, evs), t)
  {
    RunExclusive(locked, evs);
    var s := Exec(locked, Initial, evs);
    if s.lock.Some? { LockIsLeft(locked, s, t, s.lock.value); } else { LockIsFree(locked, s, t); }
  }

  /** Calls can be made at any time, whoever holds the lock, and then come to their end. */
  lemma CallsCanBeMade(locked: bool, evs: seq<Event>, t: PartyId, user: int, prefix: string, ttl: real)
    requires Possible(locked, Initial, evs)
    requires var s := Exec(locked, Initial, evs); t !in s.parties && !AboutToWrite(locked, s)
    ensures var s := Exec(locked, Initial, evs);
      && Enabled(locked, s, CallFetch(t, user, prefix, ttl))
      && CanFinish(locked, Step(locked, s, CallFetch(t, user, prefix, ttl)), t)
      && (locked ==> Enabled(locked, s, CallInvalidate(t, user)))
      && (locked ==> CanFinish(locked, Step(locked, s, CallInvalidate(t, user)), t))
      && (!locked ==> Enabled(locked, s, InvalidateNow(user)))
  {
    var s := Exec(locked, Initial, evs);
    Extended(locked, evs, CallFetch(t, user, prefix, ttl));
    EveryCallCanFinish(locked, evs + [CallFetch(t, user, prefix, ttl)], t);
    if locked {
      Extended(locked, evs, CallInvalidate(t, user));
      EveryCallCanFinish(locked, evs + [CallInvalidate(t, user)], t);
    }
  }

  lemma Extended(locked: bool, evs: seq<Event>, ev: Event)
    requires Possible(locked, Initial, evs) && Enabled(locked, Exec(locked, Initial, evs), ev)
    ensures Possible(locked, Initial, evs + [ev])
    ensures Exec(locked, Initial, evs + [ev]) == Step(locked, Exec(locked, Initial, evs), ev)
  {
    assert (evs + [ev])[..|evs + [ev]| - 1] == evs;
  }

  /**
   * A fetch can be aborted while it queues and while its request is on its way, and leaves
   * no trace: the lock is free if it had it, and cache, history and other calls are as before.
   */
  lemma AbortIsClean(locked: bool, evs: seq<Event>, t: PartyId)
    requires Possible(locked, Initial, evs)
    requires var s := Exec(locked, Initial, evs);
      t in s.parties && (s.parties[t].pc.Queued? || s.parties[t].pc.Requesting?) && !AboutToWrite(locked, s)
    ensures var s := Exec(locked, Initial, evs);
      var r := Step(locked, s, Abort(t));
      && Enabled(locked, s, Abort(t))
      && r.lock == (if s.lock == Some(t) then None else s.lock)
      && r.cache == s.cache && r.log == s.log
      && t in r.parties && r.parties == s.parties[t := s.parties[t].(pc := Aborted)]
  {
    RunExclusive(locked, evs);
  }

  /** The call has its response and has written it, the lock is free, and nothing else has changed but the clock. */
  ghost predicate Succeeded(s: State, r: State, t: PartyId, response: Response)
    requires t in s.parties
  {
    var p := s.parties[t];
    && r.lock.None? && r.log == s.log + [Stored(response)]
    && r.cache == s.cache[Key(p) := Entry(response.completed + p.ttl, response)]
    && t in r.parties && r.parties == s.parties[t := p.(pc := r.parties[t].pc)]
    && r.parties[t].pc.Answered? && r.parties[t].pc.answer == Own(response)
  }

  /**
   * A request can be answered at any time, whoever waits meanwhile: from every reachable
   * state in which one is on its way it can take until any later moment, and then yields
   * the caller's own answer and an entry that lives for the caller's ttl from that moment.
   */
  lemma RequestCanSucceed(locked: bool, evs: seq<Event>, t: PartyId, body: Body, later: real)
    requires Possible(locked, Initial, evs)
    requires var s := Exec(locked, Initial, evs);
      t in s.parties && s.parties[t].pc.Requesting? && later >= s.clock
    ensures var s := Exec(locked, Initial, evs);
      var p := s.parties[t];
      var response := Response(body, p.user, p.prefix, p.pc.requested, p.pc.began, later, p.ttl);
      var waited := Step(locked, s, Tick(later));
      var answered := Step(locked, waited, Respond(t, Some(body)));
      && Enabled(locked, s, Tick(later)) && Enabled(locked, waited, Respond(t, Some(body)))
      && Enabled(locked, answered, Write(t))
      && Succeeded(s, Step(locked, answered, Write(t)), t, response)
  {
    RunExclusive(locked, evs);
    Succeeds(locked, Exec(locked, Initial, evs), t, body, later);
  }

  lemma Succeeds(locked: bool, s: State, t: PartyId, body: Body, later: real)
    requires s.lock == Some(t) && t in s.parties && s.parties[t].pc.Requesting? && later >= s.clock
    ensures var p := s.parties[t];
      var response := Response(body, p.user, p.prefix, p.pc.requested, p.pc.began, later, p.ttl);
      var waited := Step(locked, s, Tick(later));
      var answered := Step(locked, waited, Respond(t, Some(body)));
      && Enabled(locked, s, Tick(later)) && Enabled(locked, waited, Respond(t, Some(body)))
      && Enabled(locked, answered, Write(t))
      && Succeeded(s, Step(locked, answered, Write(t)), t, response)
  {
    var p := s.parties[t];
    var response := Response(body, p.user, p.prefix, p.pc.requested, p.pc.began, later, p.ttl);
    var waited := Step(locked, s, Tick(later));
    assert waited.parties == s.parties && waited.lock == s.lock && waited.cache == s.cache && waited.log == s.log;
    var answered := Step(locked, waited, Respond(t, Some(body)));
    assert answered.parties == s.parties[t := p.(pc := Writing(Entry(later + p.ttl, response)))];
    assert answered.lock == s.lock && answered.cache == s.cache && answered.log == s.log;
    var r := Step(locked, answered, Write(t));
    assert r.parties == s.parties[t := p.(pc := r.parties[t].pc)];
  }
}
