/**
 * What waiting for another thread's fetch costs, exactly: missing a kid.
 *
 * At the branch where `get_key` looks for a fetch in flight a thread becomes a leader or
 * a follower.  From there it can raise although the fetch it depends on returned its kid,
 * in some continuation of a reachable state, if and only if a condition on that state
 * holds; and first of all that a fetch is in flight.
 */
module SyncFollowers {
  import opened Wrappers
  import opened JwksStore
  import opened SyncFetch
  import opened SyncScenes

  // ---------------------------------------------------------------------------
  // At the branch
  // ---------------------------------------------------------------------------

  /** Looking for a fetch in flight, the thread comes to lead, or to wait for the one there is. */
  lemma Branches(cfg: Config, s: State, t: ThreadId)
    requires t in s.threads && s.threads[t].pc.AtJoin?
    ensures Enabled(cfg, s, Move(t))
    ensures var Thread(url, kid, now, pc) := s.threads[t];
      Step(cfg, s, Move(t)) ==
        if url in s.inflight then With(s, t, Thread(url, kid, now, Waiting(pc.need, s.inflight[url], s.clock)))
        else With(s.(inflight := s.inflight[url := t]), t, Thread(url, kid, now, InFetch(pc.need)))
  {
  }

  /** The fetch that a thread at the branch comes to depend on. */
  function FetchOf(s: State, t: ThreadId): ThreadId
    requires t in s.threads
  {
    if s.threads[t].url in s.inflight then s.inflight[s.threads[t].url] else t
  }

  /** Nothing happens but steps of these two threads, and the passing of time. */
  predicate Only(evs: seq<Event>, t: ThreadId, l: ThreadId) {
    forall ev :: ev in evs ==> ev.Tick? || By(ev, t) || By(ev, l)
  }

  /** After joining, the leader and the store are as before. */
  lemma JoinsInFlight(cfg: Config, s: State, t: ThreadId)
    requires Flights(s) && Leaders(s) && t in s.threads && s.threads[t].pc.AtJoin? && s.threads[t].url in s.inflight
    ensures var r, l := Step(cfg, s, Move(t)), s.inflight[s.threads[t].url];
      && Enabled(cfg, s, Move(t)) && Flights(r) && Leaders(r) && l != t && l in s.threads && Leads(s.threads[l].pc)
      && r == With(s, t, s.threads[t].(pc := Waiting(s.threads[t].pc.need, l, s.clock)))
  {
    Branches(cfg, s, t);
    StepFlights(cfg, s, Move(t));
    StepLeaders(cfg, s, Move(t));
  }

  /** A follower that may wake finds the entry `e`, stores its keys again and answers from them. */
  lemma FollowerTakes(cfg: Config, s0: State, evs: seq<Event>, t: ThreadId, e: Entry) returns (r: seq<Event>)
    requires cfg.Valid() && Possible(cfg, s0, evs)
    requires var s := Exec(cfg, s0, evs);
      && t in s.threads && s.threads[t].pc.Waiting? && Enabled(cfg, s, Wake(t))
      && Lookup(s.store, s.threads[t].url) == Some(e)
    ensures Possible(cfg, s0, r) && Adds(evs, r, t)
    ensures var s := Exec(cfg, s0, evs);
      var Thread(url, kid, now, pc) := s.threads[t];
      Exec(cfg, s0, r) == With(s.(store := Put(s.store, url, Entry(e.keys, now), cfg.maxUrls)), t,
                               Thread(url, kid, now, AfterStore(e.keys, kid)))
  {
    r := Wakes(cfg, s0, evs, t);
    r := Stores(cfg, s0, r, t);
  }

  // ---------------------------------------------------------------------------
  // Missing a kid that has been fetched
  // ---------------------------------------------------------------------------

  /** The fetch of `l` has returned `t`'s kid, and yet `t` has raised. */
  ghost predicate Missed(s: State, t: ThreadId, l: ThreadId) {
    && t in s.threads && s.threads[t].pc.Finished? && !s.threads[t].pc.answer.Found?
    && l in s.ended && HasKid(s.ended[l], s.threads[t].kid)
  }

  ghost predicate CanMiss(cfg: Config, s: State, t: ThreadId, l: ThreadId) {
    exists more :: Possible(cfg, s, more) && Missed(Exec(cfg, s, more), t, l)
  }

  /** The same by steps of threads. */
  ghost predicate CanMissAmongThreads(cfg: Config, s: State, t: ThreadId, l: ThreadId) {
    exists more :: Possible(cfg, s, more) && AddsOwn([], more) && Missed(Exec(cfg, s, more), t, l)
  }

  /** The fetch of `l` has returned the kid, or is still on its way. */
  predicate MayYield(s: State, l: ThreadId, kid: Kid) {
    (l in s.threads && s.threads[l].pc.InFetch?) || (l in s.ended && HasKid(s.ended[l], kid))
  }

  /** A miss takes a fetch in flight that has not failed: nobody misses what its own fetch returned. */
  lemma MissedAnothers(cfg: Config, s: State, t: ThreadId, more: seq<Event>)
    requires Flights(s) && Leaders(s) && t in s.threads && s.threads[t].pc.AtJoin?
    requires Possible(cfg, Step(cfg, s, Move(t)), more)
    requires Missed(Exec(cfg, Step(cfg, s, Move(t)), more), t, FetchOf(s, t))
    ensures s.threads[t].url in s.inflight && MayYield(s, s.inflight[s.threads[t].url], s.threads[t].kid)
  {
    var r := Step(cfg, s, Move(t));
    Branches(cfg, s, t);
    StepLeaders(cfg, s, Move(t));
    RunLeaders(cfg, r, more);
    ExecContinues(cfg, r, more);
    var end := Exec(cfg, r, more);
    var l := FetchOf(s, t);
    assert Led(end.threads[l], end.ended[l]);
  }

  /** The leader's fetch returns the kid, if it has not yet, and the leader sets its event. */
  lemma LeaderLands(cfg: Config, s0: State, l: ThreadId, kid: Kid, key: Key) returns (more: seq<Event>)
    requires Leaders(s0) && l in s0.threads && Leads(s0.threads[l].pc) && MayYield(s0, l, kid)
    requires s0.threads[l].url in s0.inflight && s0.inflight[s0.threads[l].url] == l
    ensures Possible(cfg, s0, more) && Only(more, l, l)
    ensures var r := Exec(cfg, s0, more);
      && r.clock == s0.clock && r.store == s0.store && l in r.raised && l in r.ended && HasKid(r.ended[l], kid)
      && s0.threads[l].url !in r.inflight
      && l in r.threads && r.threads == s0.threads[l := r.threads[l]] && s0.log <= r.log
  {
    more := [];
    if s0.threads[l].pc.InFetch? {
      var body := map[kid := key];
      assert kid in body;
      more := FetchEnds(cfg, s0, more, l, Some(body));
    } else {
      assert Led(s0.threads[l], s0.ended[l]);
    }
    more := Raises(cfg, s0, more, l);
  }

  /** It wakes, finds an entry without its kid, stores it again and records the kid as missing. */
  lemma FollowerMisses(cfg: Config, s0: State, evs: seq<Event>, t: ThreadId, e: Entry) returns (r: seq<Event>)
    requires cfg.Valid() && Possible(cfg, s0, evs)
    requires var s := Exec(cfg, s0, evs);
      && t in s.threads && s.threads[t].pc.Waiting? && Enabled(cfg, s, Wake(t))
      && Lookup(s.store, s.threads[t].url) == Some(e) && s.threads[t].kid !in e.keys.byKid
    ensures Possible(cfg, s0, r) && Adds(evs, r, t)
    ensures var s := Exec(cfg, s0, evs);
      var Thread(url, kid, now, pc) := s.threads[t];
      Exec(cfg, s0, r) ==
        With(s.(store := Stamp(Put(s.store, url, Entry(e.keys, now), cfg.maxUrls), url, kid, now)), t,
             Thread(url, kid, now, Finished(UnknownKid)))
  {
    r := FollowerTakes(cfg, s0, evs, t, e);
    r := Then(cfg, s0, r, Move(t));
  }

  /** It wakes, finds no entry, and what it held does not help. */
  lemma FollowerFails(cfg: Config, s0: State, evs: seq<Event>, t: ThreadId) returns (r: seq<Event>)
    requires Possible(cfg, s0, evs)
    requires var s := Exec(cfg, s0, evs);
      && t in s.threads && s.threads[t].pc.Waiting? && Enabled(cfg, s, Wake(t)) && Barren(cfg, s, s.threads[t])
      && Lookup(s.store, s.threads[t].url).None?
    ensures Possible(cfg, s0, r) && Adds(evs, r, t)
    ensures var s, end := Exec(cfg, s0, evs), Exec(cfg, s0, r);
      && end.ended == s.ended
      && t in end.threads && end.threads[t] == s.threads[t].(pc := end.threads[t].pc)
      && end.threads[t].pc.Finished? && !end.threads[t].pc.answer.Found?
  {
    r := Wakes(cfg, s0, evs, t);
    if Exec(cfg, s0, r).threads[t].pc.AtStamp? { r := Then(cfg, s0, r, Move(t)); }
  }

  /** The entry, or without one what the call holds, gives it its kid. */
  predicate Helps(cfg: Config, thread: Thread, need: Need, e: Option<Entry>) {
    match e
    case Some(entry) => thread.kid in entry.keys.byKid
    case None =>
      var pc := AfterFailure(cfg, need, thread.kid, thread.now);
      pc.Finished? && pc.answer.Found?
  }

  /** What is cached, or held, does not give the call its kid. */
  predicate Barren(cfg: Config, s: State, thread: Thread)
    requires thread.pc.AtJoin? || thread.pc.Waiting?
  {
    !Helps(cfg, thread, thread.pc.need, Lookup(s.store, thread.url))
  }

  /** The leader's fetch returns `body` and the follower `t` re-reads the entry `e` before it is replaced. */
  lemma FollowerRereads(cfg: Config, s: State, t: ThreadId, l: ThreadId, e: Entry, body: map<Kid, Key>)
    returns (more: seq<Event>)
    requires cfg.Valid() && Flights(s) && l in s.threads && s.threads[l].pc.InFetch?
    requires t in s.threads && s.threads[t].pc.Waiting? && s.threads[t].pc.leader == l && body != map[]
    requires Lookup(s.store, s.threads[t].url) == Some(e) && s.threads[t].kid !in e.keys.byKid
    ensures Possible(cfg, s, more) && Only(more, t, l)
    ensures var r := Exec(cfg, s, more);
      var Thread(url, kid, now, pc) := s.threads[t];
      && l in r.ended && r.ended[l] == Fetched(KeySet(body, url, s.clock))
      && t in r.threads && r.threads[t] == Thread(url, kid, now, Finished(UnknownKid))
      && r.store == Stamp(Put(s.store, url, Entry(e.keys, now), cfg.maxUrls), url, kid, now)
  {
    assert Attached(s, t, s.threads[t]) && Attached(s, l, s.threads[l]);
    more := Lands(cfg, s, [], l, Some(body));
    assert Only(more, t, l);
    var landed := Exec(cfg, s, more);
    assert landed.threads[t] == s.threads[t] && l in landed.raised && landed.store == s.store;
    more := FollowerMisses(cfg, s, more, t, e);
  }

  /**
   * Key rotation can be missed by a follower: its leader's fetch returns `body`, which has
   * the kid, but the follower re-reads the old entry, puts it back under its own start time
   * and stamps the kid as missing.
   */
  lemma RotationCanBeMissed(cfg: Config, evs: seq<Event>, t: ThreadId, e: Entry, body: map<Kid, Key>)
    returns (more: seq<Event>)
    requires cfg.Valid() && Possible(cfg, Initial, evs)
    requires var s := Exec(cfg, Initial, evs);
      && t in s.threads && s.threads[t].pc.Waiting? && s.threads[t].kid in body
      && s.threads[t].pc.leader in s.threads && s.threads[s.threads[t].pc.leader].pc.InFetch?
      && Lookup(s.store, s.threads[t].url) == Some(e) && s.threads[t].kid !in e.keys.byKid
    ensures var s := Exec(cfg, Initial, evs);
      var thread, l, r := s.threads[t], s.threads[t].pc.leader, Exec(cfg, s, more);
      && Possible(cfg, s, more) && Only(more, t, l)
      && l in r.ended && r.ended[l] == Fetched(KeySet(body, thread.url, s.clock))
      && t in r.threads && r.threads[t].pc == Finished(UnknownKid)
      && MissedAt(r.store, thread.url, thread.kid) == Some(thread.now)
      && Lookup(r.store, thread.url) == Some(Entry(e.keys, thread.now))
  {
    var s := Exec(cfg, Initial, evs);
    var Thread(url, kid, now, pc) := s.threads[t];
    RunFlights(cfg, Initial, evs);
    RunProvenance(cfg, Initial, evs);
    PutKeeps(s.store, url, Entry(e.keys, now), cfg.maxUrls);
    more := FollowerRereads(cfg, s, t, pc.leader, e, body);
  }

  /** A follower whose leader's fetch may yet return its kid misses it: alone if its cache is barren. */
  lemma BarrenMiss(cfg: Config, s: State, t: ThreadId, l: ThreadId, key: Key) returns (more: seq<Event>)
    requires cfg.Valid() && Flights(s) && Leaders(s) && l in s.threads && Leads(s.threads[l].pc)
    requires t in s.threads && s.threads[t].pc.Waiting? && s.threads[t].pc.leader == l
    requires MayYield(s, l, s.threads[t].kid) && Barren(cfg, s, s.threads[t])
    ensures Possible(cfg, s, more) && Only(more, t, l) && Missed(Exec(cfg, s, more), t, l)
  {
    var Thread(url, kid, now, pc) := s.threads[t];
    assert Attached(s, t, s.threads[t]) && Attached(s, l, s.threads[l]);
    more := LeaderLands(cfg, s, l, kid, key);
    var landed := Exec(cfg, s, more);
    assert landed.threads[t] == s.threads[t];
    match Lookup(s.store, url)
    case Some(e) => more := FollowerMisses(cfg, s, more, t, e);
    case None => more := FollowerFails(cfg, s, more, t);
  }

  lemma FreshThread(ids: set<ThreadId>) returns (z: ThreadId)
    ensures z !in ids
  {
    var todo, bound: nat := ids, 0;
    while todo != {}
      invariant forall x :: x in ids && x !in todo ==> x < bound
      decreases |todo|
    {
      var x :| x in todo;
      todo, bound := todo - {x}, if x < bound then bound else x + 1;
    }
    z := bound;
  }

  /** Late enough for the kid's stamp, and the URL's entry, to have run out. */
  function Later(cfg: Config, s: State, url: Url, kid: Kid): (r: real)
    ensures r >= s.clock
  {
    var a := if MissedAt(s.store, url, kid).Some? then MissedAt(s.store, url, kid).value + cfg.unknownKidTtl + 1.0
      else s.clock;
    var b := if Lookup(s.store, url).Some? then Lookup(s.store, url).value.fetchedAt + cfg.cacheTtl + 1.0 else s.clock;
    var c := if a < b then b else a;
    if c < s.clock then s.clock else c
  }

  lemma LaterRefreshes(cfg: Config, s: State, url: Url, kid: Kid)
    ensures var now := Later(cfg, s, url, kid);
      && !Rejects(cfg, s.store, url, kid, now)
      && Open(cfg, Lookup(s.store, url), kid, now) == Fetch(Refresh(Lookup(s.store, url)))
  {
  }

  lemma LateCallOpens(cfg: Config, s0: State, evs: seq<Event>, z: ThreadId, url: Url, kid: Kid) returns (r: seq<Event>)
    requires Possible(cfg, s0, evs) && z !in Exec(cfg, s0, evs).threads
    ensures Possible(cfg, s0, r) && AddsOwn(evs, r)
    ensures var s, end := Exec(cfg, s0, evs), Exec(cfg, s0, r);
      var now := Later(cfg, s, url, kid);
      end == With(s.(clock := now, store := Touch(s.store, url)), z,
                  Thread(url, kid, now, AtJoin(Refresh(Lookup(s.store, url)))))
  {
    var s := Exec(cfg, s0, evs);
    var now := Later(cfg, s, url, kid);
    LaterRefreshes(cfg, s, url, kid);
    r := Then(cfg, s0, evs, Tick(now));
    assert Exec(cfg, s0, r) == s.(clock := now);
    r := Opens(cfg, s0, r, z, url, kid);
  }

  /** With nothing in flight, a thread that calls late enough comes to lead a fetch. */
  lemma LateCallLeads(cfg: Config, s0: State, evs: seq<Event>, z: ThreadId, url: Url, kid: Kid) returns (r: seq<Event>)
    requires Possible(cfg, s0, evs)
    requires var s := Exec(cfg, s0, evs); z !in s.threads && url !in s.inflight
    ensures Possible(cfg, s0, r) && AddsOwn(evs, r)
    ensures var s, end := Exec(cfg, s0, evs), Exec(cfg, s0, r);
      var now := Later(cfg, s, url, kid);
      end == With(s.(clock := now, store := Touch(s.store, url), inflight := s.inflight[url := z]), z,
                  Thread(url, kid, now, InFetch(Refresh(Lookup(s.store, url)))))
  {
    r := LateCallOpens(cfg, s0, evs, z, url, kid);
    r := Joins(cfg, s0, r, z);
  }

  /** Its fetch returns, and it stores, a key set with another kid only. */
  lemma LateCallStores(cfg: Config, s0: State, evs: seq<Event>, z: ThreadId, other: Kid, key: Key)
    returns (r: seq<Event>, e: Entry)
    requires cfg.Valid() && Possible(cfg, s0, evs)
    requires var s := Exec(cfg, s0, evs);
      && s.store.Valid(cfg.maxUrls) && z in s.threads && s.threads[z].pc.InFetch?
      && s.threads[z].url in s.inflight && s.inflight[s.threads[z].url] == z
    ensures Possible(cfg, s0, r) && Adds(evs, r, z) && e.keys.byKid == map[other := key]
    ensures var s, end := Exec(cfg, s0, evs), Exec(cfg, s0, r);
      && Lookup(end.store, s.threads[z].url) == Some(e)
      && z in end.threads && end.threads == s.threads[z := end.threads[z]]
      && z in end.ended && end.ended == s.ended[z := end.ended[z]] && end.raised == s.raised + {z}
  {
    var s := Exec(cfg, s0, evs);
    var Thread(url, kid, now, pc) := s.threads[z];
    var body := map[other := key];
    assert other in body;
    e := Entry(KeySet(body, url, s.clock), now);
    PutKeeps(s.store, url, e, cfg.maxUrls);
    r := Lands(cfg, s0, evs, z, Some(body));
    r := Stores(cfg, s0, r, z);
  }

  /** It misses it in any case if a third thread stores a key set without the kid meanwhile. */
  lemma CrowdedMiss(cfg: Config, s: State, t: ThreadId, l: ThreadId, key: Key, other: Kid) returns (more: seq<Event>)
    requires cfg.Valid() && s.store.Valid(cfg.maxUrls) && Flights(s) && Leaders(s)
    requires l in s.threads && Leads(s.threads[l].pc)
    requires t in s.threads && s.threads[t].pc.Waiting? && s.threads[t].pc.leader == l
    requires MayYield(s, l, s.threads[t].kid) && other != s.threads[t].kid
    ensures Possible(cfg, s, more) && AddsOwn([], more) && Missed(Exec(cfg, s, more), t, l)
  {
    var Thread(url, kid, now, pc) := s.threads[t];
    assert Attached(s, t, s.threads[t]) && Attached(s, l, s.threads[l]);
    more := LeaderLands(cfg, s, l, kid, key);
    var landed := Exec(cfg, s, more);
    var z := FreshThread(landed.threads.Keys);
    TouchKeeps(landed.store, url, cfg.maxUrls);
    more := LateCallLeads(cfg, s, more, z, url, kid);
    var e: Entry;
    more, e := LateCallStores(cfg, s, more, z, other, key);
    assert Exec(cfg, s, more).threads[t] == s.threads[t];
    more := FollowerMisses(cfg, s, more, t, e);
  }

  /**
   * When an overlapping call can miss a kid, exactly: a thread at the branch, about to move,
   * can raise although the fetch it comes to depend on returned its kid, if and only if
   * another thread's fetch is in flight that has not already failed it.
   */
  lemma MissesExactlyWhen(cfg: Config, evs: seq<Event>, t: ThreadId, key: Key, other: Kid)
    requires cfg.Valid() && Possible(cfg, Initial, evs)
    requires t in Exec(cfg, Initial, evs).threads && Exec(cfg, Initial, evs).threads[t].pc.AtJoin?
    requires other != Exec(cfg, Initial, evs).threads[t].kid
    ensures var s := Exec(cfg, Initial, evs);
      var Thread(url, kid, _, _) := s.threads[t];
      var r, l := Step(cfg, s, Move(t)), FetchOf(s, t);
      && (CanMiss(cfg, r, t, l) <==> url in s.inflight && MayYield(s, s.inflight[url], kid))
      && (CanMissAmongThreads(cfg, r, t, l) <==> url in s.inflight && MayYield(s, s.inflight[url], kid))
  {
    RunFlights(cfg, Initial, evs);
    RunLeaders(cfg, Initial, evs);
    RunProvenance(cfg, Initial, evs);
    BranchMisses(cfg, Exec(cfg, Initial, evs), t, key, other);
  }

  lemma BranchMisses(cfg: Config, s: State, t: ThreadId, key: Key, other: Kid)
    requires cfg.Valid() && s.store.Valid(cfg.maxUrls) && Flights(s) && Leaders(s)
    requires t in s.threads && s.threads[t].pc.AtJoin? && other != s.threads[t].kid
    ensures var Thread(url, kid, _, _) := s.threads[t];
      var r, l := Step(cfg, s, Move(t)), FetchOf(s, t);
      && (CanMiss(cfg, r, t, l) <==> url in s.inflight && MayYield(s, s.inflight[url], kid))
      && (CanMissAmongThreads(cfg, r, t, l) <==> url in s.inflight && MayYield(s, s.inflight[url], kid))
  {
    var Thread(url, kid, now, pc) := s.threads[t];
    var r := Step(cfg, s, Move(t));
    if CanMiss(cfg, r, t, FetchOf(s, t)) {
      var more :| Possible(cfg, r, more) && Missed(Exec(cfg, r, more), t, FetchOf(s, t));
      MissedAnothers(cfg, s, t, more);
    }
    if url in s.inflight && MayYield(s, s.inflight[url], kid) {
      JoinsInFlight(cfg, s, t);
      var more := CrowdedMiss(cfg, r, t, s.inflight[url], key, other);
    }
  }

  // ---------------------------------------------------------------------------
  // Missing it with nobody else at work
  // ---------------------------------------------------------------------------

  ghost predicate CanMissAlone(cfg: Config, s: State, t: ThreadId, l: ThreadId) {
    exists more :: Possible(cfg, s, more) && Only(more, t, l) && Missed(Exec(cfg, s, more), t, l)
  }

  /** The key set gives the kid, or is what the leader fetched. */
  predicate Good(s: State, l: ThreadId, kid: Kid, keys: KeySet) {
    kid in keys.byKid || (l in s.ended && s.ended[l] == Fetched(keys))
  }

  /** The leader's fetch has ended without the kid. */
  predicate NoUse(s: State, l: ThreadId, kid: Kid) {
    l in s.ended && !HasKid(s.ended[l], kid)
  }

  /** What the follower `t` of `l` can be at, when `e` was its URL's entry and nobody else is at work. */
  ghost predicate Provided(cfg: Config, s: State, t: ThreadId, l: ThreadId, e: Option<Entry>) {
    && t in s.threads && l in s.threads && l != t && s.threads[l].url == s.threads[t].url
    && (s.threads[l].pc.InFetch? || l in s.ended)
    && EntryProvides(s, s.threads[t], l, e)
    && PcProvides(cfg, s, s.threads[t], l, e)
  }

  predicate EntryProvides(s: State, thread: Thread, l: ThreadId, e: Option<Entry>) {
    Lookup(s.store, thread.url) == e ||
    (Lookup(s.store, thread.url).Some? && Good(s, l, thread.kid, Lookup(s.store, thread.url).value.keys))
  }

  predicate PcProvides(cfg: Config, s: State, thread: Thread, l: ThreadId, e: Option<Entry>) {
    match thread.pc
    case Waiting(need, _, _) => Helps(cfg, thread, need, e)
    case AtReread(need) => Helps(cfg, thread, need, e)
    case AtStore(keys) => Good(s, l, thread.kid, keys)
    case AtStamp => NoUse(s, l, thread.kid)
    case Finished(answer) => answer.Found? || NoUse(s, l, thread.kid)
    case _ => false
  }

  lemma StepProvided(cfg: Config, s: State, ev: Event, t: ThreadId, l: ThreadId, e: Option<Entry>)
    requires cfg.Valid() && s.store.Valid(cfg.maxUrls) && Leaders(s) && Enabled(cfg, s, ev)
    requires ev.Tick? || By(ev, t) || By(ev, l)
    requires Provided(cfg, s, t, l, e)
    ensures Provided(cfg, Step(cfg, s, ev), t, l, e)
  {
    var r := Step(cfg, s, ev);
    StepLeaders(cfg, s, ev);
    if ev.Move? {
      var thread := s.threads[ev.id];
      MoveIsLocal(cfg, s, ev.id);
      if thread.pc.AtStore? { PutKeeps(s.store, thread.url, Entry(thread.pc.keys, thread.now), cfg.maxUrls); }
      if ev.id == l { assert Led(thread, s.ended[l]); }
    }
  }

  lemma {:induction false} RunProvided(cfg: Config, s: State, evs: seq<Event>, t: ThreadId, l: ThreadId,
                                       e: Option<Entry>)
    requires cfg.Valid() && Provenance(cfg, s) && Leaders(s) && Possible(cfg, s, evs) && Only(evs, t, l)
    requires Provided(cfg, s, t, l, e)
    ensures Provided(cfg, Exec(cfg, s, evs), t, l, e)
  {
    if evs != [] {
      var n := |evs| - 1;
      RunProvided(cfg, s, evs[..n], t, l, e);
      RunProvenance(cfg, s, evs[..n]);
      RunLeaders(cfg, s, evs[..n]);
      assert evs[n] in evs;
      StepProvided(cfg, Exec(cfg, s, evs[..n]), evs[n], t, l, e);
    }
  }

  /**
   * The same with nobody else at work: a follower and its leader alone can bring a miss
   * about if and only if the leader's fetch has not failed the kid, and neither the cached
   * entry nor, without one, the entry that the call read gives it the kid.
   */
  lemma MissesAloneExactlyWhen(cfg: Config, evs: seq<Event>, t: ThreadId, key: Key)
    requires cfg.Valid() && Possible(cfg, Initial, evs)
    requires t in Exec(cfg, Initial, evs).threads && Exec(cfg, Initial, evs).threads[t].pc.AtJoin?
    ensures var s := Exec(cfg, Initial, evs);
      var Thread(url, kid, _, _) := s.threads[t];
      CanMissAlone(cfg, Step(cfg, s, Move(t)), t, FetchOf(s, t)) <==>
        url in s.inflight && MayYield(s, s.inflight[url], kid) && Barren(cfg, s, s.threads[t])
  {
    RunFlights(cfg, Initial, evs);
    RunLeaders(cfg, Initial, evs);
    RunProvenance(cfg, Initial, evs);
    BranchMissesAlone(cfg, Exec(cfg, Initial, evs), t, key);
  }

  lemma BranchMissesAlone(cfg: Config, s: State, t: ThreadId, key: Key)
    requires cfg.Valid() && Provenance(cfg, s) && Flights(s) && Leaders(s)
    requires t in s.threads && s.threads[t].pc.AtJoin?
    ensures var Thread(url, kid, _, _) := s.threads[t];
      CanMissAlone(cfg, Step(cfg, s, Move(t)), t, FetchOf(s, t)) <==>
        url in s.inflight && MayYield(s, s.inflight[url], kid) && Barren(cfg, s, s.threads[t])
  {
    var Thread(url, kid, now, pc) := s.threads[t];
    var r := Step(cfg, s, Move(t));
    if CanMissAlone(cfg, r, t, FetchOf(s, t)) {
      var more :| Possible(cfg, r, more) && Only(more, t, FetchOf(s, t)) &&
        Missed(Exec(cfg, r, more), t, FetchOf(s, t));
      MissedAnothers(cfg, s, t, more);
      if !Barren(cfg, s, s.threads[t]) { ProvidedFinds(cfg, s, t, more); }
    }
    if url in s.inflight && MayYield(s, s.inflight[url], kid) && Barren(cfg, s, s.threads[t]) {
      JoinsInFlight(cfg, s, t);
      var more := BarrenMiss(cfg, r, t, s.inflight[url], key);
    }
  }

  lemma ProvidedFinds(cfg: Config, s: State, t: ThreadId, more: seq<Event>)
    requires cfg.Valid() && Provenance(cfg, s) && Flights(s) && Leaders(s)
    requires t in s.threads && s.threads[t].pc.AtJoin? && s.threads[t].url in s.inflight &&
      !Barren(cfg, s, s.threads[t])
    requires Possible(cfg, Step(cfg, s, Move(t)), more) && Only(more, t, s.inflight[s.threads[t].url])
    ensures !Missed(Exec(cfg, Step(cfg, s, Move(t)), more), t, s.inflight[s.threads[t].url])
  {
    var r, l := Step(cfg, s, Move(t)), s.inflight[s.threads[t].url];
    JoinsInFlight(cfg, s, t);
    StepProvenance(cfg, s, Move(t));
    RunProvided(cfg, r, more, t, l, Lookup(s.store, s.threads[t].url));
  }
}
