/**
 * What waiting for another thread's fetch costs, exactly: a key beyond the age bound.
 *
 * A thread at the branch where `get_key` looks for a fetch in flight can come to return
 * an outdated key if and only if one is within its reach: for a leader, in the entry it
 * would fall back on; for a follower, in what it may find when it re-reads the cache.
 */
module SyncOutdated {
  import opened Wrappers
  import opened JwksStore
  import opened SyncFetch
  import opened SyncScenes
  import opened SyncFollowers
  import SyncAge

  // ---------------------------------------------------------------------------
  // Outdated keys
  // ---------------------------------------------------------------------------

  /** No fetch of the URL within the age bound of the call has given its kid this key. */
  ghost predicate Outdated(cfg: Config, thread: Thread, key: Key, log: set<KeySet>) {
    !Vouched(thread.url, thread.kid, key, log, thread.now - cfg.AgeBound())
  }

  ghost predicate GotOutdated(cfg: Config, s: State, t: ThreadId) {
    && t in s.threads && s.threads[t].pc.Finished? && s.threads[t].pc.answer.Found?
    && Outdated(cfg, s.threads[t], s.threads[t].pc.answer.key, s.log)
  }

  /** Some continuation answers thread `t` with an outdated key. */
  ghost predicate CanGetOutdated(cfg: Config, s: State, t: ThreadId) {
    exists more :: Possible(cfg, s, more) && GotOutdated(cfg, Exec(cfg, s, more), t)
  }

  /** The same by steps of `t` and `l` alone. */
  ghost predicate CanGetOutdatedAlone(cfg: Config, s: State, t: ThreadId, l: ThreadId) {
    exists more :: Possible(cfg, s, more) && Only(more, t, l) && GotOutdated(cfg, Exec(cfg, s, more), t)
  }

  /** The key set gives the call's kid an outdated key. */
  ghost predicate Gives(cfg: Config, thread: Thread, keys: KeySet, log: set<KeySet>) {
    thread.kid in keys.byKid && Outdated(cfg, thread, keys.byKid[thread.kid], log)
  }

  lemma GivesLess(cfg: Config, thread: Thread, keys: KeySet, log: set<KeySet>, more: set<KeySet>)
    requires log <= more && !Gives(cfg, thread, keys, log)
    ensures !Gives(cfg, thread, keys, more)
  {
    if Gives(cfg, thread, keys, more) {
      LessIsOutdated(cfg, thread, thread, keys.byKid[thread.kid], log, more);
    }
  }

  lemma LessIsOutdated(cfg: Config, thread: Thread, later: Thread, key: Key, log: set<KeySet>, more: set<KeySet>)
    requires Outdated(cfg, later, key, more) && log <= more && later == thread.(pc := later.pc)
    ensures Outdated(cfg, thread, key, log)
  {
    if Vouched(thread.url, thread.kid, key, log, thread.now - cfg.AgeBound()) {
      VouchedGrows(thread.url, thread.kid, Found(key), log, more, thread.now - cfg.AgeBound());
    }
  }

  lemma OutdatedThough(cfg: Config, thread: Thread, later: Thread, key: Key, log: set<KeySet>)
    requires Outdated(cfg, thread, key, log) && later == thread.(pc := later.pc)
    ensures Outdated(cfg, later, key, log)
  {
  }

  // ---------------------------------------------------------------------------
  // Leaders
  // ---------------------------------------------------------------------------

  /** A leader whose fetch fails can answer with this key. */
  predicate FallsBackTo(cfg: Config, need: Need, thread: Thread, key: Key) {
    FallsBackOn(cfg, need, thread.kid, thread.now, key)
  }

  /** A thread that leads its own fetch: what it has fetched is fresh, else it falls back on what it held. */
  ghost predicate OnItsOwn(cfg: Config, need: Need, thread: Thread, log: set<KeySet>) {
    match thread.pc
    case InFetch(n) => n == need
    case AtPop(n, o) => n == need && (o.Fetched? ==> FreshFor(thread, o.keys, log))
    case AtSet(n, o) => n == need && (o.Fetched? ==> FreshFor(thread, o.keys, log))
    case AtStore(keys) => FreshFor(thread, keys, log)
    case AtStamp => true
    case Finished(answer) => answer.Found? ==>
      Vouched(thread.url, thread.kid, answer.key, log, thread.now) || FallsBackTo(cfg, need, thread, answer.key)
    case _ => false
  }

  predicate FreshFor(thread: Thread, keys: KeySet, log: set<KeySet>) {
    FetchedBy(thread.url, keys, log) && keys.completed >= thread.now
  }

  lemma OnItsOwnGrows(cfg: Config, need: Need, thread: Thread, log: set<KeySet>, more: set<KeySet>)
    requires OnItsOwn(cfg, need, thread, log) && log <= more
    ensures OnItsOwn(cfg, need, thread, more)
  {
    if thread.pc.Finished? && thread.pc.answer.Found? && !FallsBackTo(cfg, need, thread, thread.pc.answer.key) {
      VouchedGrows(thread.url, thread.kid, thread.pc.answer, log, more, thread.now);
    }
  }

  lemma LeaderMoves(cfg: Config, s: State, t: ThreadId, need: Need)
    requires Enabled(cfg, s, Move(t)) && OnItsOwn(cfg, need, s.threads[t], s.log)
    ensures var r := MoveThread(cfg, s, t); t in r.threads && OnItsOwn(cfg, need, r.threads[t], s.log)
  {
    var thread := s.threads[t];
    if thread.pc.AtStore? { assert FetchedBy(thread.url, thread.pc.keys, s.log); }
  }

  lemma StepOnItsOwn(cfg: Config, s: State, ev: Event, t: ThreadId, need: Need)
    requires Enabled(cfg, s, ev) && Started(s) && t in s.threads && OnItsOwn(cfg, need, s.threads[t], s.log)
    ensures var r := Step(cfg, s, ev); t in r.threads && OnItsOwn(cfg, need, r.threads[t], r.log)
  {
    if ev.Move? && ev.id == t {
      LeaderMoves(cfg, s, t, need);
      MoveIsLocal(cfg, s, t);
    } else {
      StepContinues(cfg, s, ev);
      OnItsOwnGrows(cfg, need, s.threads[t], s.log, Step(cfg, s, ev).log);
      if ev.Move? { MoveIsLocal(cfg, s, ev.id); }
    }
  }

  lemma {:induction false} RunOnItsOwn(cfg: Config, s: State, evs: seq<Event>, t: ThreadId, need: Need)
    requires Possible(cfg, s, evs) && Started(s) && t in s.threads && OnItsOwn(cfg, need, s.threads[t], s.log)
    ensures var r := Exec(cfg, s, evs);
      Started(r) && t in r.threads && OnItsOwn(cfg, need, r.threads[t], r.log)
  {
    if evs != [] {
      RunOnItsOwn(cfg, s, evs[..|evs| - 1], t, need);
      StepStarted(cfg, Exec(cfg, s, evs[..|evs| - 1]), evs[|evs| - 1]);
      StepOnItsOwn(cfg, Exec(cfg, s, evs[..|evs| - 1]), evs[|evs| - 1], t, need);
    }
  }

  /** The call holds an entry that is young enough by its own account, with an outdated key. */
  ghost predicate HoldsOutdated(cfg: Config, need: Need, thread: Thread, log: set<KeySet>) {
    exists key :: FallsBackTo(cfg, need, thread, key) && Outdated(cfg, thread, key, log)
  }

  /** A leader is answered with an outdated key only by falling back on one; then its fetch failing is enough. */
  lemma LeaderOutdated(cfg: Config, s: State, t: ThreadId, need: Need)
    requires cfg.Valid() && Started(s) && Flights(s) && t in s.threads && s.threads[t].pc == InFetch(need)
    ensures CanGetOutdated(cfg, s, t) <==> HoldsOutdated(cfg, need, s.threads[t], s.log)
    ensures CanGetOutdatedAlone(cfg, s, t, t) <==> HoldsOutdated(cfg, need, s.threads[t], s.log)
  {
    if CanGetOutdated(cfg, s, t) {
      var more :| Possible(cfg, s, more) && GotOutdated(cfg, Exec(cfg, s, more), t);
      LeaderHeldIt(cfg, s, t, need, more);
    }
    if HoldsOutdated(cfg, need, s.threads[t], s.log) {
      var more := LeaderFallsBack(cfg, s, t, need);
    }
  }

  lemma LeaderHeldIt(cfg: Config, s: State, t: ThreadId, need: Need, more: seq<Event>)
    requires cfg.Valid() && Started(s) && t in s.threads && s.threads[t].pc == InFetch(need)
    requires Possible(cfg, s, more) && GotOutdated(cfg, Exec(cfg, s, more), t)
    ensures HoldsOutdated(cfg, need, s.threads[t], s.log)
  {
    var thread, r := s.threads[t], Exec(cfg, s, more);
    RunOnItsOwn(cfg, s, more, t, need);
    ExecContinues(cfg, s, more);
    var key := r.threads[t].pc.answer.key;
    LessIsOutdated(cfg, thread, r.threads[t], key, s.log, r.log);
    assert FallsBackTo(cfg, need, thread, key);
  }

  lemma LeaderFallsBack(cfg: Config, s: State, t: ThreadId, need: Need) returns (more: seq<Event>)
    requires Flights(s) && t in s.threads && s.threads[t].pc == InFetch(need)
    requires HoldsOutdated(cfg, need, s.threads[t], s.log)
    ensures Possible(cfg, s, more) && Only(more, t, t) && GotOutdated(cfg, Exec(cfg, s, more), t)
  {
    var thread := s.threads[t];
    var key :| FallsBackTo(cfg, need, thread, key) && Outdated(cfg, thread, key, s.log);
    assert Attached(s, t, thread);
    more := Lands(cfg, s, [], t, None);
    OutdatedThough(cfg, thread, Exec(cfg, s, more).threads[t], key, s.log);
  }

  lemma SoundIsNotOutdated(cfg: Config, need: Need, thread: Thread, log: set<KeySet>)
    requires SoundNeed(thread.url, need, log)
    ensures !HoldsOutdated(cfg, need, thread, log)
  {
    forall key | FallsBackTo(cfg, need, thread, key) ensures !Outdated(cfg, thread, key, log) {
      assert FetchedBy(thread.url, need.held.value.keys, log);
    }
  }

  // ---------------------------------------------------------------------------
  // Followers and their leaders alone
  // ---------------------------------------------------------------------------

  /** What a follower of `l` may find has an outdated key: what `l` fetched, what is cached, or else what it holds. */
  ghost predicate WithinReach(cfg: Config, s: State, thread: Thread, l: ThreadId)
    requires thread.pc.AtJoin? || thread.pc.Waiting?
  {
    || (l in s.ended && s.ended[l].Fetched? && Gives(cfg, thread, s.ended[l].keys, s.log))
    || CacheGives(cfg, s, thread, thread.pc.need)
  }

  ghost predicate CacheGives(cfg: Config, s: State, thread: Thread, need: Need) {
    match Lookup(s.store, thread.url)
    case Some(e) => Gives(cfg, thread, e.keys, s.log)
    case None => HoldsOutdated(cfg, need, thread, s.log)
  }

  /** A follower's timeout comes. */
  lemma TimesOut(cfg: Config, s: State, t: ThreadId) returns (more: seq<Event>)
    requires t in s.threads && s.threads[t].pc.Waiting?
    ensures Possible(cfg, s, more) && Only(more, t, t)
    ensures var r := Exec(cfg, s, more); r == s.(clock := r.clock) && Enabled(cfg, r, Wake(t))
  {
    var late := s.threads[t].pc.since + cfg.httpTimeout + 1.0;
    more := Then(cfg, s, [], Tick(if s.clock < late then late else s.clock));
  }

  lemma TakesCached(cfg: Config, s: State, t: ThreadId) returns (more: seq<Event>)
    requires cfg.Valid() && t in s.threads && s.threads[t].pc.Waiting?
    requires CacheGives(cfg, s, s.threads[t], s.threads[t].pc.need)
    ensures Possible(cfg, s, more) && Only(more, t, t) && GotOutdated(cfg, Exec(cfg, s, more), t)
  {
    var thread := s.threads[t];
    more := TimesOut(cfg, s, t);
    match Lookup(s.store, thread.url)
    case Some(e) =>
      more := FollowerTakes(cfg, s, more, t, e);
      OutdatedThough(cfg, thread, Exec(cfg, s, more).threads[t], e.keys.byKid[thread.kid], s.log);
    case None =>
      var key :| FallsBackTo(cfg, thread.pc.need, thread, key) && Outdated(cfg, thread, key, s.log);
      more := Wakes(cfg, s, more, t);
      OutdatedThough(cfg, thread, Exec(cfg, s, more).threads[t], key, s.log);
  }

  /** The leader stores what it has fetched, and the follower takes it. */
  lemma TakesFetched(cfg: Config, s: State, t: ThreadId, l: ThreadId) returns (more: seq<Event>)
    requires cfg.Valid() && s.store.Valid(cfg.maxUrls) && Flights(s) && Leaders(s)
    requires t in s.threads && s.threads[t].pc.Waiting? && s.threads[t].pc.leader == l
    requires l in s.threads && Leads(s.threads[l].pc) && l in s.ended && s.ended[l].Fetched?
    requires Gives(cfg, s.threads[t], s.ended[l].keys, s.log)
    ensures Possible(cfg, s, more) && Only(more, t, l) && GotOutdated(cfg, Exec(cfg, s, more), t)
  {
    var thread, keys := s.threads[t], s.ended[l].keys;
    assert Attached(s, t, thread) && Attached(s, l, s.threads[l]) && Led(s.threads[l], s.ended[l]);
    PutKeeps(s.store, thread.url, Entry(keys, s.threads[l].now), cfg.maxUrls);
    more := Raises(cfg, s, [], l);
    more := Stores(cfg, s, more, l);
    assert Exec(cfg, s, more).threads[t] == thread;
    more := FollowerTakes(cfg, s, more, t, Entry(keys, s.threads[l].now));
    OutdatedThough(cfg, thread, Exec(cfg, s, more).threads[t], keys.byKid[thread.kid], s.log);
  }

  /** Nothing within the follower's reach has an outdated key, nor will have. */
  ghost predicate OutOfReach(cfg: Config, s: State, t: ThreadId, l: ThreadId, need: Need) {
    && t in s.threads && l in s.threads && l != t && s.threads[l].url == s.threads[t].url
    && s.threads[t].now <= s.clock
    && (if l in s.ended then s.ended[l].Fetched? ==> !Gives(cfg, s.threads[t], s.ended[l].keys, s.log)
        else s.threads[l].pc.InFetch?)
    && !CacheGives(cfg, s, s.threads[t], need)
    && match s.threads[t].pc
       case Waiting(n, _, _) => n == need
       case AtReread(n) => n == need
       case AtStore(keys) => !Gives(cfg, s.threads[t], keys, s.log)
       case AtStamp => true
       case Finished(answer) => answer.Found? ==> !Outdated(cfg, s.threads[t], answer.key, s.log)
       case _ => false
  }

  lemma HoldsLess(cfg: Config, need: Need, thread: Thread, log: set<KeySet>, more: set<KeySet>)
    requires log <= more && !HoldsOutdated(cfg, need, thread, log)
    ensures !HoldsOutdated(cfg, need, thread, more)
  {
    forall key | FallsBackTo(cfg, need, thread, key) ensures !Outdated(cfg, thread, key, more) {
      if Outdated(cfg, thread, key, more) { LessIsOutdated(cfg, thread, thread, key, log, more); }
    }
  }

  /** More fetches put nothing outdated within reach. */
  lemma LogGrows(cfg: Config, s: State, r: State, t: ThreadId, l: ThreadId, need: Need)
    requires OutOfReach(cfg, s, t, l, need) && s.log <= r.log && s.clock <= r.clock
    requires r.threads.Keys == s.threads.Keys && r.threads[t] == s.threads[t] && r.store == s.store
    requires r.threads[l] == s.threads[l].(pc := r.threads[l].pc)
    requires if l in r.ended then r.ended[l].Fetched? ==> !Gives(cfg, s.threads[t], r.ended[l].keys, r.log)
             else r.threads[l].pc.InFetch?
    ensures OutOfReach(cfg, r, t, l, need)
  {
    var thread := s.threads[t];
    match Lookup(s.store, thread.url)
    case Some(e) => GivesLess(cfg, thread, e.keys, s.log, r.log);
    case None => HoldsLess(cfg, need, thread, s.log, r.log);
    if thread.pc.AtStore? { GivesLess(cfg, thread, thread.pc.keys, s.log, r.log); }
    if thread.pc.Finished? && thread.pc.answer.Found? && Outdated(cfg, thread, thread.pc.answer.key, r.log) {
      LessIsOutdated(cfg, thread, thread, thread.pc.answer.key, s.log, r.log);
    }
  }

  lemma LeaderEnds(cfg: Config, s: State, t: ThreadId, l: ThreadId, need: Need, body: Body)
    requires cfg.Valid() && OutOfReach(cfg, s, t, l, need) && Leaders(s) && Enabled(cfg, s, HttpEnd(l, body))
    ensures OutOfReach(cfg, Step(cfg, s, HttpEnd(l, body)), t, l, need)
  {
    var r, o := Step(cfg, s, HttpEnd(l, body)), HttpOutcome(s, l, body);
    if o.Fetched? { assert FetchedBy(s.threads[t].url, o.keys, r.log); }
    LogGrows(cfg, s, r, t, l, need);
  }

  lemma FollowerMoves(cfg: Config, s: State, t: ThreadId, l: ThreadId, need: Need)
    requires cfg.Valid() && s.store.Valid(cfg.maxUrls) && OutOfReach(cfg, s, t, l, need) && Enabled(cfg, s, Move(t))
    ensures OutOfReach(cfg, MoveThread(cfg, s, t), t, l, need)
  {
    var Thread(url, kid, now, pc) := s.threads[t];
    MoveIsLocal(cfg, s, t);
    SameHeld(cfg, need, s.threads[t], MoveThread(cfg, s, t).threads[t], s.log);
    if pc.AtStore? { PutKeeps(s.store, url, Entry(pc.keys, now), cfg.maxUrls); }
  }

  lemma LeaderMovesOn(cfg: Config, s: State, t: ThreadId, l: ThreadId, need: Need)
    requires cfg.Valid() && s.store.Valid(cfg.maxUrls) && Leaders(s)
    requires OutOfReach(cfg, s, t, l, need) && Enabled(cfg, s, Move(l))
    ensures OutOfReach(cfg, MoveThread(cfg, s, l), t, l, need)
  {
    var Thread(url, kid, now, pc) := s.threads[l];
    MoveIsLocal(cfg, s, l);
    assert Led(s.threads[l], s.ended[l]);
    if pc.AtStore? { PutKeeps(s.store, url, Entry(pc.keys, now), cfg.maxUrls); }
  }

  lemma StepOutOfReach(cfg: Config, s: State, ev: Event, t: ThreadId, l: ThreadId, need: Need)
    requires cfg.Valid() && s.store.Valid(cfg.maxUrls) && Leaders(s) && Enabled(cfg, s, ev)
    requires ev.Tick? || By(ev, t) || By(ev, l)
    requires OutOfReach(cfg, s, t, l, need)
    ensures OutOfReach(cfg, Step(cfg, s, ev), t, l, need)
  {
    match ev
    case HttpEnd(_, body) => LeaderEnds(cfg, s, t, l, need, body);
    case Move(x) => if x == t { FollowerMoves(cfg, s, t, l, need); } else { LeaderMovesOn(cfg, s, t, l, need); }
    case Wake(_) => SameHeld(cfg, need, s.threads[t], Step(cfg, s, ev).threads[t], s.log);
    case _ =>
  }

  lemma {:induction false} RunOutOfReach(cfg: Config, s: State, evs: seq<Event>, t: ThreadId, l: ThreadId, need: Need)
    requires cfg.Valid() && Provenance(cfg, s) && Leaders(s) && Possible(cfg, s, evs) && Only(evs, t, l)
    requires OutOfReach(cfg, s, t, l, need)
    ensures OutOfReach(cfg, Exec(cfg, s, evs), t, l, need)
  {
    if evs != [] {
      var n := |evs| - 1;
      RunOutOfReach(cfg, s, evs[..n], t, l, need);
      RunProvenance(cfg, s, evs[..n]);
      RunLeaders(cfg, s, evs[..n]);
      assert evs[n] in evs;
      StepOutOfReach(cfg, Exec(cfg, s, evs[..n]), evs[n], t, l, need);
    }
  }

  /**
   * When a thread at the branch, about to move, can return a key beyond the age bound by
   * its own steps and those of the leader it comes to wait for: as a follower, if and only
   * if the leader has fetched an outdated key of its kid, or one is cached, or nothing is
   * cached and the entry it holds has one; as a leader, if and only if the entry it holds
   * has one.
   */
  lemma OutdatedAloneExactlyWhen(cfg: Config, evs: seq<Event>, t: ThreadId)
    requires cfg.Valid() && Possible(cfg, Initial, evs)
    requires t in Exec(cfg, Initial, evs).threads && Exec(cfg, Initial, evs).threads[t].pc.AtJoin?
    ensures var s := Exec(cfg, Initial, evs);
      var thread := s.threads[t];
      CanGetOutdatedAlone(cfg, Step(cfg, s, Move(t)), t, FetchOf(s, t)) <==>
        if thread.url in s.inflight then WithinReach(cfg, s, thread, s.inflight[thread.url])
        else HoldsOutdated(cfg, thread.pc.need, thread, s.log)
  {
    RunProvenance(cfg, Initial, evs);
    RunStarted(cfg, evs);
    RunFlights(cfg, Initial, evs);
    RunLeaders(cfg, Initial, evs);
    var s := Exec(cfg, Initial, evs);
    if s.threads[t].url in s.inflight { FollowerOutdated(cfg, s, t); } else { OwnFetchOutdated(cfg, s, t); }
  }

  lemma OwnFetchOutdated(cfg: Config, s: State, t: ThreadId)
    requires cfg.Valid() && Started(s) && Flights(s)
    requires t in s.threads && s.threads[t].pc.AtJoin? && s.threads[t].url !in s.inflight
    ensures CanGetOutdatedAlone(cfg, Step(cfg, s, Move(t)), t, t) <==>
      HoldsOutdated(cfg, s.threads[t].pc.need, s.threads[t], s.log)
    ensures CanGetOutdated(cfg, Step(cfg, s, Move(t)), t) <==>
      HoldsOutdated(cfg, s.threads[t].pc.need, s.threads[t], s.log)
  {
    var thread, r := s.threads[t], Step(cfg, s, Move(t));
    Branches(cfg, s, t);
    StepStarted(cfg, s, Move(t));
    StepFlights(cfg, s, Move(t));
    LeaderOutdated(cfg, r, t, thread.pc.need);
    SameHeld(cfg, thread.pc.need, thread, r.threads[t], s.log);
  }

  lemma SameHeld(cfg: Config, need: Need, a: Thread, b: Thread, log: set<KeySet>)
    requires b == a.(pc := b.pc)
    ensures HoldsOutdated(cfg, need, a, log) <==> HoldsOutdated(cfg, need, b, log)
  {
    forall key ensures FallsBackTo(cfg, need, a, key) <==> FallsBackTo(cfg, need, b, key) {}
    forall key ensures Outdated(cfg, a, key, log) <==> Outdated(cfg, b, key, log) {}
  }

  lemma FollowerOutdated(cfg: Config, s: State, t: ThreadId)
    requires cfg.Valid() && Provenance(cfg, s) && Started(s) && Flights(s) && Leaders(s)
    requires t in s.threads && s.threads[t].pc.AtJoin? && s.threads[t].url in s.inflight
    ensures CanGetOutdatedAlone(cfg, Step(cfg, s, Move(t)), t, s.inflight[s.threads[t].url]) <==>
      WithinReach(cfg, s, s.threads[t], s.inflight[s.threads[t].url])
  {
    var thread, r, l := s.threads[t], Step(cfg, s, Move(t)), s.inflight[s.threads[t].url];
    JoinsInFlight(cfg, s, t);
    StepProvenance(cfg, s, Move(t));
    SameHeld(cfg, thread.pc.need, thread, r.threads[t], s.log);
    if CanGetOutdatedAlone(cfg, r, t, l) && !WithinReach(cfg, s, thread, l) {
      var more :| Possible(cfg, r, more) && Only(more, t, l) && GotOutdated(cfg, Exec(cfg, r, more), t);
      assert OutOfReach(cfg, r, t, l, thread.pc.need);
      RunOutOfReach(cfg, r, more, t, l, thread.pc.need);
      assert false;
    }
    if WithinReach(cfg, s, thread, l) {
      if CacheGives(cfg, s, thread, thread.pc.need) {
        var more := TakesCached(cfg, r, t);
      } else {
        var more := TakesFetched(cfg, r, t, l);
      }
    }
  }

  /**
   * While the URL's stores have been honest, only a follower can: if and only if the leader
   * has fetched an outdated key of its kid, or one is cached.
   */
  lemma HonestlyOutdatedExactlyWhen(cfg: Config, evs: seq<Event>, t: ThreadId)
    requires cfg.Valid() && Possible(cfg, Initial, evs)
    requires t in Exec(cfg, Initial, evs).threads && Exec(cfg, Initial, evs).threads[t].pc.AtJoin?
    requires SyncAge.HonestStores(cfg, evs, Exec(cfg, Initial, evs).threads[t].url)
    ensures var s := Exec(cfg, Initial, evs);
      var thread, l, cached := s.threads[t], FetchOf(s, t), Lookup(s.store, s.threads[t].url);
      CanGetOutdatedAlone(cfg, Step(cfg, s, Move(t)), t, l) <==>
        thread.url in s.inflight &&
        ((l in s.ended && s.ended[l].Fetched? && Gives(cfg, thread, s.ended[l].keys, s.log)) ||
         (cached.Some? && Gives(cfg, thread, cached.value.keys, s.log)))
  {
    var s := Exec(cfg, Initial, evs);
    var thread := s.threads[t];
    OutdatedAloneExactlyWhen(cfg, evs, t);
    SyncAge.RunAge(cfg, evs, thread.url);
    assert SyncAge.SoundPc(cfg, thread, s.log);
    SoundIsNotOutdated(cfg, thread.pc.need, thread, s.log);
  }
}
