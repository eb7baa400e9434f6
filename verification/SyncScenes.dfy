/**
 * Concrete runs of the threaded `get_key`: what a lone thread does, and what a
 * follower can meet when it wakes before its leader has stored the keys.
 */
module SyncScenes {
  import opened Wrappers
  import opened JwksStore
  import opened JwksCache
  import opened SyncFetch
  import Lru

  function With(s: State, t: ThreadId, thread: Thread): (r: State) {
    s.(threads := s.threads[t := thread])
  }

  /** The event is a step of thread `t`. */
  predicate By(ev: Event, t: ThreadId) {
    (ev.Move? || ev.HttpEnd? || ev.Wake?) && ev.id == t
  }

  /** `r` has no more events than `evs` but steps of thread `t`. */
  predicate Adds(evs: seq<Event>, r: seq<Event>, t: ThreadId) {
    forall ev :: ev in r ==> ev in evs || By(ev, t)
  }

  /** `r` has no more events than `evs` but steps of threads. */
  predicate AddsOwn(evs: seq<Event>, r: seq<Event>) {
    forall ev :: ev in r ==> ev in evs || IsOwn(ev)
  }

  /** One more event of a run that began in `s0`. */
  lemma Then(cfg: Config, s0: State, evs: seq<Event>, ev: Event) returns (r: seq<Event>)
    requires Possible(cfg, s0, evs) && Enabled(cfg, Exec(cfg, s0, evs), ev)
    ensures r == evs + [ev] && Possible(cfg, s0, r)
    ensures Exec(cfg, s0, r) == Step(cfg, Exec(cfg, s0, evs), ev)
  {
    r := evs + [ev];
    assert r[..|r| - 1] == evs;
  }

  /** A new thread finds no stamp. */
  lemma Enters(cfg: Config, s0: State, evs: seq<Event>, t: ThreadId, url: Url, kid: Kid) returns (r: seq<Event>)
    requires Possible(cfg, s0, evs)
    requires var s := Exec(cfg, s0, evs); t !in s.threads && !Rejects(cfg, s.store, url, kid, s.clock)
    ensures Possible(cfg, s0, r) && AddsOwn(evs, r)
    ensures var s := Exec(cfg, s0, evs);
      Exec(cfg, s0, r) == With(s, t, Thread(url, kid, s.clock, AtEntry))
  {
    Admitted(cfg, Exec(cfg, s0, evs), t, url, kid);
    r := Then(cfg, s0, evs, Call(t, url, kid));
    r := Then(cfg, s0, r, Move(t));
  }

  lemma Admitted(cfg: Config, s: State, t: ThreadId, url: Url, kid: Kid)
    requires t !in s.threads && !Rejects(cfg, s.store, url, kid, s.clock)
    ensures Enabled(cfg, s, Call(t, url, kid)) && Enabled(cfg, Step(cfg, s, Call(t, url, kid)), Move(t))
    ensures Step(cfg, Step(cfg, s, Call(t, url, kid)), Move(t)) == With(s, t, Thread(url, kid, s.clock, AtEntry))
  {
    var called := With(s, t, Thread(url, kid, s.clock, AtNegative));
    assert Step(cfg, s, Call(t, url, kid)) == called;
    assert Effects(cfg, called, t) == called && NextPc(cfg, called, t) == AtEntry;
  }

  /** It gets as far as reading the entry. */
  lemma Opens(cfg: Config, s0: State, evs: seq<Event>, t: ThreadId, url: Url, kid: Kid) returns (r: seq<Event>)
    requires Possible(cfg, s0, evs)
    requires var s := Exec(cfg, s0, evs); t !in s.threads && !Rejects(cfg, s.store, url, kid, s.clock)
    ensures Possible(cfg, s0, r) && AddsOwn(evs, r)
    ensures var s := Exec(cfg, s0, evs);
      Exec(cfg, s0, r) == With(s.(store := Touch(s.store, url)), t,
        Thread(url, kid, s.clock, AfterOpen(Open(cfg, Lookup(s.store, url), kid, s.clock))))
  {
    r := Enters(cfg, s0, evs, t, url, kid);
    r := Then(cfg, s0, r, Move(t));
  }

  /** It becomes the leader of its URL, or waits for the one there is. */
  lemma Joins(cfg: Config, s0: State, evs: seq<Event>, t: ThreadId) returns (r: seq<Event>)
    requires Possible(cfg, s0, evs) && Enabled(cfg, Exec(cfg, s0, evs), Move(t))
    requires Exec(cfg, s0, evs).threads[t].pc.AtJoin?
    ensures Possible(cfg, s0, r) && Adds(evs, r, t)
    ensures var s := Exec(cfg, s0, evs);
      var Thread(url, kid, now, pc) := s.threads[t];
      Exec(cfg, s0, r) ==
        if url in s.inflight then With(s, t, Thread(url, kid, now, Waiting(pc.need, s.inflight[url], s.clock)))
        else With(s.(inflight := s.inflight[url := t]), t, Thread(url, kid, now, InFetch(pc.need)))
  {
    r := Then(cfg, s0, evs, Move(t));
  }

  /** What a leader is left with after setting its event. */
  function AfterFetch(cfg: Config, need: Need, kid: Kid, now: real, o: Outcome): (r: Pc) {
    if o.Fetched? then AtStore(o.keys) else AfterFailure(cfg, need, kid, now)
  }

  /** The leader's fetch ends. */
  lemma FetchEnds(cfg: Config, s0: State, evs: seq<Event>, t: ThreadId, body: Body) returns (r: seq<Event>)
    requires Possible(cfg, s0, evs) && Enabled(cfg, Exec(cfg, s0, evs), HttpEnd(t, body))
    ensures Possible(cfg, s0, r) && Adds(evs, r, t)
    ensures var s := Exec(cfg, s0, evs);
      var Thread(url, kid, now, pc) := s.threads[t];
      var o := HttpOutcome(s, t, body);
      Exec(cfg, s0, r) ==
        With(s.(log := if o.Fetched? then s.log + {o.keys} else s.log, ended := s.ended[t := o]),
             t, Thread(url, kid, now, AtPop(pc.need, o)))
  {
    r := Then(cfg, s0, evs, HttpEnd(t, body));
  }

  /** It unregisters its event and sets it. */
  lemma Raises(cfg: Config, s0: State, evs: seq<Event>, t: ThreadId) returns (r: seq<Event>)
    requires Possible(cfg, s0, evs) && t in Exec(cfg, s0, evs).threads && Exec(cfg, s0, evs).threads[t].pc.AtPop?
    requires var s := Exec(cfg, s0, evs); s.threads[t].url in s.inflight && s.inflight[s.threads[t].url] == t
    ensures Possible(cfg, s0, r) && Adds(evs, r, t)
    ensures var s := Exec(cfg, s0, evs);
      var Thread(url, kid, now, pc) := s.threads[t];
      Exec(cfg, s0, r) ==
        With(s.(inflight := s.inflight - {url}, raised := s.raised + {t}),
             t, Thread(url, kid, now, AfterFetch(cfg, pc.need, kid, now, pc.outcome)))
  {
    var s := Exec(cfg, s0, evs);
    var Thread(url, kid, now, pc) := s.threads[t];
    r := Then(cfg, s0, evs, Move(t));
    assert Exec(cfg, s0, r) ==
      With(s.(inflight := s.inflight - {url}), t, Thread(url, kid, now, AtSet(pc.need, pc.outcome)));
    r := Then(cfg, s0, r, Move(t));
  }

  /** The leader's fetch ends; it unregisters its event and sets it. */
  lemma Lands(cfg: Config, s0: State, evs: seq<Event>, t: ThreadId, body: Body) returns (r: seq<Event>)
    requires Possible(cfg, s0, evs) && Enabled(cfg, Exec(cfg, s0, evs), HttpEnd(t, body))
    requires var s := Exec(cfg, s0, evs); s.threads[t].url in s.inflight && s.inflight[s.threads[t].url] == t
    ensures Possible(cfg, s0, r) && Adds(evs, r, t)
    ensures var s := Exec(cfg, s0, evs);
      var Thread(url, kid, now, pc) := s.threads[t];
      var o := HttpOutcome(s, t, body);
      Exec(cfg, s0, r) ==
        With(s.(inflight := s.inflight - {url}, raised := s.raised + {t}, ended := s.ended[t := o],
                log := if o.Fetched? then s.log + {o.keys} else s.log),
             t, Thread(url, kid, now, AfterFetch(cfg, pc.need, kid, now, o)))
  {
    r := FetchEnds(cfg, s0, evs, t, body);
    r := Raises(cfg, s0, r, t);
  }

  /** A follower wakes and reads the entry. */
  lemma Wakes(cfg: Config, s0: State, evs: seq<Event>, t: ThreadId) returns (r: seq<Event>)
    requires Possible(cfg, s0, evs) && Enabled(cfg, Exec(cfg, s0, evs), Wake(t))
    ensures Possible(cfg, s0, r) && Adds(evs, r, t)
    ensures var s := Exec(cfg, s0, evs);
      var Thread(url, kid, now, pc) := s.threads[t];
      var entry := Lookup(s.store, url);
      Exec(cfg, s0, r) == With(s, t, Thread(url, kid, now,
        if entry.Some? then AtStore(entry.value.keys) else AfterFailure(cfg, pc.need, kid, now)))
  {
    r := Then(cfg, s0, evs, Wake(t));
    r := Then(cfg, s0, r, Move(t));
  }

  /** A thread stores the keys it has. */
  lemma Stores(cfg: Config, s0: State, evs: seq<Event>, t: ThreadId) returns (r: seq<Event>)
    requires Possible(cfg, s0, evs) && Enabled(cfg, Exec(cfg, s0, evs), Move(t))
    requires Exec(cfg, s0, evs).threads[t].pc.AtStore?
    ensures Possible(cfg, s0, r) && Adds(evs, r, t)
    ensures var s := Exec(cfg, s0, evs);
      var Thread(url, kid, now, pc) := s.threads[t];
      Exec(cfg, s0, r) == With(s.(store := Put(s.store, url, Entry(pc.keys, now), cfg.maxUrls)), t,
                               Thread(url, kid, now, AfterStore(pc.keys, kid)))
  {
    r := Then(cfg, s0, evs, Move(t));
  }

  /** A thread runs to the end of its call, storing and stamping as it must. */
  lemma Ends(cfg: Config, s0: State, evs: seq<Event>, t: ThreadId, need: Need, o: Outcome) returns (r: seq<Event>)
    requires Possible(cfg, s0, evs) && t in Exec(cfg, s0, evs).threads
    requires var Thread(url, kid, now, pc) := Exec(cfg, s0, evs).threads[t];
      pc == AfterFetch(cfg, need, kid, now, o)
    ensures Possible(cfg, s0, r)
    ensures var s := Exec(cfg, s0, evs);
      var Thread(url, kid, now, pc) := s.threads[t];
      var end := Settle(cfg, s.store, url, kid, now, need, o);
      Exec(cfg, s0, r) == With(s.(store := end.store), t, Thread(url, kid, now, Finished(end.answer)))
  {
    r := evs;
    if o.Fetched? { r := Stores(cfg, s0, r, t); }
    if Exec(cfg, s0, r).threads[t].pc.AtStamp? { r := Then(cfg, s0, r, Move(t)); }
  }

  /** What a joined fetch comes to for a thread that runs alone: the entry it finds when it gives up waiting. */
  function FromCache(s: State, url: Url): (r: Outcome) {
    match Lookup(s.store, url)
    case Some(e) => Fetched(e.keys)
    case None => Failed
  }

  /** A thread waits for a flight in vain, and reads the cache. */
  lemma GivesUp(cfg: Config, s0: State, evs: seq<Event>, t: ThreadId) returns (r: seq<Event>)
    requires Possible(cfg, s0, evs) && t in Exec(cfg, s0, evs).threads && Exec(cfg, s0, evs).threads[t].pc.Waiting?
    ensures Possible(cfg, s0, r)
    ensures var s, end := Exec(cfg, s0, evs), Exec(cfg, s0, r);
      var Thread(url, kid, now, pc) := s.threads[t];
      end == With(s.(clock := end.clock), t,
                  Thread(url, kid, now, AfterFetch(cfg, pc.need, kid, now, FromCache(s, url))))
  {
    var s := Exec(cfg, s0, evs);
    var late := s.threads[t].pc.since + cfg.httpTimeout + 1.0;
    r := Then(cfg, s0, evs, Tick(if s.clock < late then late else s.clock));
    r := Wakes(cfg, s0, r, t);
  }

  /** How the fetch of a thread that runs alone ends: its own one with `body`, a joined one in the cache. */
  function SoloOutcome(s0: State, url: Url, body: Body): (r: Outcome) {
    if url in s0.inflight then FromCache(s0, url)
    else if body.None? then Failed else Fetched(KeySet(body.value, url, s0.clock))
  }

  /**
   * In any state, whatever is in flight, a thread's uninterrupted steps add up to the
   * sequential `get_key`: same answer, same cache, nothing of its own left in flight.  If
   * it has to join another thread's fetch, the cache takes the place of the network.
   */
  lemma SoloThreadIsGetKey(cfg: Config, s0: State, t: ThreadId, url: Url, kid: Kid, body: Body)
    returns (evs: seq<Event>)
    requires t !in s0.threads && Parsed(body)
    ensures Possible(cfg, s0, evs)
    ensures var effect := GetKeyEffect(cfg, s0.store, Request(url, kid, s0.clock, SoloOutcome(s0, url, body)));
      var s := Exec(cfg, s0, evs);
      && s.store == effect.store && s.inflight == s0.inflight
      && t in s.threads && s.threads[t] == Thread(url, kid, s0.clock, Finished(effect.answer))
  {
    evs := [];
    if Rejects(cfg, s0.store, url, kid, s0.clock) {
      evs := Then(cfg, s0, evs, Call(t, url, kid));
      evs := Then(cfg, s0, evs, Move(t));
    } else {
      evs := Opens(cfg, s0, evs, t, url, kid);
      var opening := Open(cfg, Lookup(s0.store, url), kid, s0.clock);
      if opening.Fetch? {
        evs := SoloFetches(cfg, s0, evs, t, body);
        evs := Ends(cfg, s0, evs, t, opening.need, SoloOutcome(s0, url, body));
      }
    }
  }

  /** From the branch to the end of the fetch, its own or the joined one. */
  lemma SoloFetches(cfg: Config, s0: State, evs: seq<Event>, t: ThreadId, body: Body) returns (r: seq<Event>)
    requires Possible(cfg, s0, evs) && Parsed(body)
    requires t in Exec(cfg, s0, evs).threads && Exec(cfg, s0, evs).threads[t].pc.AtJoin?
    ensures Possible(cfg, s0, r)
    ensures var s, end := Exec(cfg, s0, evs), Exec(cfg, s0, r);
      var Thread(url, kid, now, pc) := s.threads[t];
      && end.store == s.store && end.inflight == s.inflight
      && t in end.threads
      && end.threads[t] == Thread(url, kid, now, AfterFetch(cfg, pc.need, kid, now, SoloOutcome(s, url, body)))
  {
    var s := Exec(cfg, s0, evs);
    r := Joins(cfg, s0, evs, t);
    if s.threads[t].url in s.inflight {
      r := GivesUp(cfg, s0, r, t);
    } else {
      r := Lands(cfg, s0, r, t, body);
      assert Exec(cfg, s0, r).inflight == s.inflight;
    }
  }

  /**
   * A follower can fail although its leader's fetch succeeded: it wakes between the
   * leader's setting of the event and the leader's store, and finds no entry.
   */
  lemma FollowerCanMissItsLeader(cfg: Config, url: Url, kid: Kid, body: map<Kid, Key>) returns (evs: seq<Event>)
    requires kid in body
    ensures Possible(cfg, Initial, evs)
    ensures var s := Exec(cfg, Initial, evs);
      && KeySet(body, url, 0.0) in s.log
      && 0 in s.threads && s.threads[0] == Thread(url, kid, 0.0, AtStore(KeySet(body, url, 0.0)))
      && 1 in s.threads && s.threads[1] == Thread(url, kid, 0.0, Finished(FetchFailed))
  {
    evs := Opens(cfg, Initial, [], 0, url, kid);
    evs := Joins(cfg, Initial, evs, 0);
    evs := Opens(cfg, Initial, evs, 1, url, kid);
    evs := Joins(cfg, Initial, evs, 1);
    evs := Lands(cfg, Initial, evs, 0, Some(body));
    evs := Wakes(cfg, Initial, evs, 1);
  }

  /** The cache after thread 0's fetch of `keys` at time zero, with the clock at `later`. */
  function Aged(url: Url, kid: Kid, keys: KeySet, later: real): State
    requires kid in keys.byKid
  {
    State(later, Store([url], map[url := Entry(keys, 0.0)], map[]), map[], {0},
          map[0 := Thread(url, kid, 0.0, Finished(Found(keys.byKid[kid])))], {keys}, map[0 := Fetched(keys)])
  }

  /** A first thread has fetched, and has yet to store. */
  function Fetched0(url: Url, kid: Kid, keys: KeySet): State {
    State(0.0, Empty, map[], {0}, map[0 := Thread(url, kid, 0.0, AtStore(keys))], {keys}, map[0 := Fetched(keys)])
  }

  lemma FirstLands(cfg: Config, url: Url, kid: Kid, body: map<Kid, Key>) returns (evs: seq<Event>)
    requires kid in body
    ensures Possible(cfg, Initial, evs) && AddsOwn([], evs)
    ensures Exec(cfg, Initial, evs) == Fetched0(url, kid, KeySet(body, url, 0.0))
  {
    evs := Opens(cfg, Initial, [], 0, url, kid);
    evs := Joins(cfg, Initial, evs, 0);
    assert Exec(cfg, Initial, evs) ==
      With(Initial.(inflight := map[url := 0]), 0, Thread(url, kid, 0.0, InFetch(Refresh(None))));
    evs := Lands(cfg, Initial, evs, 0, Some(body));
  }

  lemma FirstFetch(cfg: Config, url: Url, kid: Kid, body: map<Kid, Key>, later: real) returns (evs: seq<Event>)
    requires cfg.Valid() && kid in body && later >= 0.0
    ensures Possible(cfg, Initial, evs) && AddsOwn([], evs)
    ensures Exec(cfg, Initial, evs) == Aged(url, kid, KeySet(body, url, 0.0), later)
  {
    var keys := KeySet(body, url, 0.0);
    evs := FirstLands(cfg, url, kid, body);
    assert Put(Empty, url, Entry(keys, 0.0), cfg.maxUrls) == Store([url], map[url := Entry(keys, 0.0)], map[]) by {
      Lru.StoreElems<Url>([], url, cfg.maxUrls);
    }
    evs := Stores(cfg, Initial, evs, 0);
    assert Exec(cfg, Initial, evs) == Aged(url, kid, keys, 0.0);
    evs := Then(cfg, Initial, evs, Tick(later));
  }

  /** Later the entry has to be refreshed: thread 1 is inside its fetch, thread 2 waits for it. */
  function Crowded(url: Url, kid: Kid, keys: KeySet, later: real): State
    requires kid in keys.byKid
  {
    var s0, need := Aged(url, kid, keys, later), Refresh(Some(Entry(keys, 0.0)));
    With(With(s0.(inflight := map[url := 1]), 1, Thread(url, kid, later, InFetch(need))),
         2, Thread(url, kid, later, Waiting(need, 1, later)))
  }

  lemma SecondWave(cfg: Config, url: Url, kid: Kid, body: map<Kid, Key>, later: real) returns (evs: seq<Event>)
    requires cfg.Valid() && kid in body && later >= 0.0 && later > cfg.cacheTtl
    ensures Possible(cfg, Initial, evs) && AddsOwn([], evs)
    ensures Exec(cfg, Initial, evs) == Crowded(url, kid, KeySet(body, url, 0.0), later)
  {
    var keys := KeySet(body, url, 0.0);
    var s0, need := Aged(url, kid, keys, later), Refresh(Some(Entry(keys, 0.0)));
    assert Touch(s0.store, url) == s0.store by { Lru.WithoutSnoc([], url, url); }
    evs := FirstFetch(cfg, url, kid, body, later);
    evs := Opens(cfg, Initial, evs, 1, url, kid);
    assert Exec(cfg, Initial, evs) == With(s0, 1, Thread(url, kid, later, AtJoin(need)));
    evs := Joins(cfg, Initial, evs, 1);
    var s1 := With(s0.(inflight := map[url := 1]), 1, Thread(url, kid, later, InFetch(need)));
    assert Exec(cfg, Initial, evs) == s1;
    evs := Opens(cfg, Initial, evs, 2, url, kid);
    assert Exec(cfg, Initial, evs) == With(s1, 2, Thread(url, kid, later, AtJoin(need)));
    evs := Joins(cfg, Initial, evs, 2);
  }

  /** The fetch returns `rotated`, and thread 2 re-reads the entry before thread 1 has stored. */
  lemma RereadTooEarly(cfg: Config, url: Url, kid: Kid, body: map<Kid, Key>, rotated: map<Kid, Key>, later: real)
    returns (evs: seq<Event>)
    requires cfg.Valid() && kid in body && rotated != map[] && later >= 0.0 && later > cfg.cacheTtl
    ensures Possible(cfg, Initial, evs) && AddsOwn([], evs)
    ensures var oldKeys, newKeys := KeySet(body, url, 0.0), KeySet(rotated, url, later);
      var s := Exec(cfg, Initial, evs);
      && s.clock == later && s.store == Aged(url, kid, oldKeys, later).store && s.log == {oldKeys, newKeys}
      && 1 in s.threads && s.threads[1] == Thread(url, kid, later, AtStore(newKeys))
      && 2 in s.threads && s.threads[2] == Thread(url, kid, later, AtStore(oldKeys))
  {
    evs := SecondWave(cfg, url, kid, body, later);
    evs := Lands(cfg, Initial, evs, 1, Some(rotated));
    evs := Wakes(cfg, Initial, evs, 2);
  }

  /** Two threads store for one URL: the entry of the second stays. */
  lemma OneAfterTheOther(cfg: Config, s0: State, evs: seq<Event>, a: ThreadId, b: ThreadId) returns (r: seq<Event>)
    requires cfg.Valid() && Possible(cfg, s0, evs) && a != b
    requires var s := Exec(cfg, s0, evs);
      && s.store.Valid(cfg.maxUrls) && a in s.threads && b in s.threads && s.threads[a].url == s.threads[b].url
      && s.threads[a].pc.AtStore? && s.threads[b].pc.AtStore?
    ensures Possible(cfg, s0, r) && AddsOwn(evs, r)
    ensures var s, end := Exec(cfg, s0, evs), Exec(cfg, s0, r);
      var thread := s.threads[b];
      && end.clock == s.clock && end.log == s.log && end.store.unknown == s.store.unknown
      && b in end.threads && end.threads[b] == thread.(pc := AfterStore(thread.pc.keys, thread.kid))
      && Lookup(end.store, thread.url) == Some(Entry(thread.pc.keys, thread.now))
  {
    var s := Exec(cfg, s0, evs);
    var x, y := s.threads[a], s.threads[b];
    var stored := Put(s.store, x.url, Entry(x.pc.keys, x.now), cfg.maxUrls);
    PutKeeps(s.store, x.url, Entry(x.pc.keys, x.now), cfg.maxUrls);
    PutKeeps(stored, y.url, Entry(y.pc.keys, y.now), cfg.maxUrls);
    r := Stores(cfg, s0, evs, a);
    assert Exec(cfg, s0, r).store == stored && Exec(cfg, s0, r).threads[b] == y;
    r := Stores(cfg, s0, r, b);
  }

  /**
   * A follower can serve keys of any age and put them back into the cache as new: for
   * every `later` beyond the age bound there is a run in which a call that starts at
   * `later` gets a key that only a fetch at time zero returned, although a fetch
   * completed at `later` no longer contains the kid; and the old key set, stamped
   * `later`, replaces the new one in the cache.
   */
  lemma FollowersCanServeKeysOfAnyAge(cfg: Config, url: Url, kid: Kid, body: map<Kid, Key>, rotated: map<Kid, Key>,
                                      later: real)
    returns (evs: seq<Event>)
    requires cfg.Valid() && kid in body && kid !in rotated && rotated != map[] && later > cfg.AgeBound()
    ensures Possible(cfg, Initial, evs) && AddsOwn([], evs)
    ensures var s := Exec(cfg, Initial, evs);
      && s.clock == later && MissedAt(s.store, url, kid).None?
      && 2 in s.threads && s.threads[2] == Thread(url, kid, later, Finished(Found(body[kid])))
      && !Vouched(url, kid, body[kid], s.log, later - cfg.AgeBound())
      && KeySet(rotated, url, later) in s.log
      && Lookup(s.store, url) == Some(Entry(KeySet(body, url, 0.0), later))
  {
    var oldKeys, newKeys := KeySet(body, url, 0.0), KeySet(rotated, url, later);
    evs := RereadTooEarly(cfg, url, kid, body, rotated, later);
    assert Exec(cfg, Initial, evs).store.Valid(cfg.maxUrls);
    evs := OneAfterTheOther(cfg, Initial, evs, 1, 2);
  }
}
