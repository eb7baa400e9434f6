/**
 * What a thread's call waits for and what it does not, whatever else is under way.
 *
 * A follower waits for its leader's event, or for the timeout and no longer.  A stamp in
 * its window, or a fresh entry with the kid, decides a call at once.  And from every
 * reachable state every call can come to its end.
 */
module SyncProgress {
  import opened Wrappers
  import opened JwksStore
  import opened SyncFetch
  import opened SyncScenes
  import opened SyncFollowers

  // ---------------------------------------------------------------------------
  // A follower waits
  // ---------------------------------------------------------------------------

  /** Whoever has set its event has ended its fetch. */
  ghost predicate RaisedAfterwards(s: State) {
    forall l :: l in s.raised ==> l in s.ended
  }

  lemma StepRaised(cfg: Config, s: State, ev: Event)
    requires Leaders(s) && RaisedAfterwards(s) && Enabled(cfg, s, ev)
    ensures RaisedAfterwards(Step(cfg, s, ev)) && s.raised <= Step(cfg, s, ev).raised
  {
    StepLeaders(cfg, s, ev);
  }

  lemma {:induction false} RunRaised(cfg: Config, s: State, evs: seq<Event>)
    requires Leaders(s) && RaisedAfterwards(s) && Possible(cfg, s, evs)
    ensures RaisedAfterwards(Exec(cfg, s, evs))
  {
    if evs != [] {
      RunRaised(cfg, s, evs[..|evs| - 1]);
      RunLeaders(cfg, s, evs[..|evs| - 1]);
      StepRaised(cfg, Exec(cfg, s, evs[..|evs| - 1]), evs[|evs| - 1]);
    }
  }

  /** `t` still waits as it did, or the event it waits for is set, or its time is up. */
  predicate WaitsOn(cfg: Config, s: State, t: ThreadId, waiting: Pc)
    requires waiting.Waiting?
  {
    || (t in s.threads && s.threads[t].pc == waiting)
    || waiting.leader in s.raised
    || s.clock >= waiting.since + cfg.httpTimeout + 1.0
  }

  lemma StepWaits(cfg: Config, s: State, ev: Event, t: ThreadId, waiting: Pc)
    requires waiting.Waiting? && WaitsOn(cfg, s, t, waiting) && Enabled(cfg, s, ev)
    ensures WaitsOn(cfg, Step(cfg, s, ev), t, waiting)
  {
    StepContinues(cfg, s, ev);
    if ev.Move? { MoveIsLocal(cfg, s, ev.id); }
  }

  lemma {:induction false} RunWaits(cfg: Config, s: State, evs: seq<Event>, t: ThreadId, waiting: Pc)
    requires waiting.Waiting? && WaitsOn(cfg, s, t, waiting) && Possible(cfg, s, evs)
    ensures WaitsOn(cfg, Exec(cfg, s, evs), t, waiting)
  {
    if evs != [] {
      RunWaits(cfg, s, evs[..|evs| - 1], t, waiting);
      StepWaits(cfg, Exec(cfg, s, evs[..|evs| - 1]), evs[|evs| - 1], t, waiting);
    }
  }

  /**
   * A follower does wait: over all interleavings, a thread that no longer waits before
   * `http_timeout` + 1 have passed has a leader whose fetch has ended and whose event is set.
   */
  lemma FollowerWaits(cfg: Config, evs: seq<Event>, t: ThreadId, more: seq<Event>)
    requires Possible(cfg, Initial, evs) && Possible(cfg, Exec(cfg, Initial, evs), more)
    requires t in Exec(cfg, Initial, evs).threads && Exec(cfg, Initial, evs).threads[t].pc.Waiting?
    ensures var s := Exec(cfg, Initial, evs);
      var pc, r := s.threads[t].pc, Exec(cfg, s, more);
      && t in r.threads
      && (!r.threads[t].pc.Waiting? && r.clock < pc.since + cfg.httpTimeout + 1.0 ==>
            pc.leader in r.ended && pc.leader in r.raised)
  {
    var s := Exec(cfg, Initial, evs);
    RunLeaders(cfg, Initial, evs);
    RunRaised(cfg, Initial, evs);
    RunRaised(cfg, s, more);
    ExecContinues(cfg, s, more);
    RunWaits(cfg, s, more, t, s.threads[t].pc);
  }

  // ---------------------------------------------------------------------------
  // Decided at once
  // ---------------------------------------------------------------------------

  /** Where a call is that has read the negative cache: rejected for good, or beyond it for good. */
  predicate Decided(rejected: bool, pc: Pc) {
    if rejected then pc == Finished(NegativeCached) else pc != AtNegative && pc != Finished(NegativeCached)
  }

  lemma StepDecided(cfg: Config, s: State, ev: Event, t: ThreadId, rejected: bool)
    requires Enabled(cfg, s, ev) && t in s.threads && Decided(rejected, s.threads[t].pc)
    ensures t in Step(cfg, s, ev).threads && Decided(rejected, Step(cfg, s, ev).threads[t].pc)
  {
    if ev.Move? { MoveIsLocal(cfg, s, ev.id); }
  }

  lemma {:induction false} RunDecided(cfg: Config, s: State, evs: seq<Event>, t: ThreadId, rejected: bool)
    requires Possible(cfg, s, evs) && t in s.threads && Decided(rejected, s.threads[t].pc)
    ensures t in Exec(cfg, s, evs).threads && Decided(rejected, Exec(cfg, s, evs).threads[t].pc)
  {
    if evs != [] {
      RunDecided(cfg, s, evs[..|evs| - 1], t, rejected);
      StepDecided(cfg, Exec(cfg, s, evs[..|evs| - 1]), evs[|evs| - 1], t, rejected);
    }
  }

  /** The kid's stamp is in its window for a call that started at `now`. */
  predicate InWindow(cfg: Config, s: Store, url: Url, kid: Kid, now: real) {
    MissedAt(s, url, kid).Some? && now - MissedAt(s, url, kid).value <= cfg.unknownKidTtl
  }

  /**
   * The negative cache decides a call exactly, whatever is in flight: a thread about to
   * read it can do so at once; if the kid's stamp is in its window that step changes
   * nothing but to finish the call with a rejection, and otherwise no continuation ever
   * rejects the call for the stamp.
   */
  lemma NegativeCacheDecides(cfg: Config, s: State, t: ThreadId, more: seq<Event>)
    requires t in s.threads && s.threads[t].pc == AtNegative
    requires Possible(cfg, Step(cfg, s, Move(t)), more)
    ensures Enabled(cfg, s, Move(t))
    ensures var Thread(url, kid, now, _) := s.threads[t];
      var r := Exec(cfg, Step(cfg, s, Move(t)), more);
      && t in r.threads
      && (r.threads[t].pc == Finished(NegativeCached) <==> InWindow(cfg, s.store, url, kid, now))
      && (InWindow(cfg, s.store, url, kid, now) ==>
            Step(cfg, s, Move(t)) == With(s, t, Thread(url, kid, now, Finished(NegativeCached))))
  {
    var Thread(url, kid, now, _) := s.threads[t];
    var rejected := InWindow(cfg, s.store, url, kid, now);
    assert rejected == Rejects(cfg, s.store, url, kid, now);
    MoveIsLocal(cfg, s, t);
    RunDecided(cfg, Step(cfg, s, Move(t)), more, t, rejected);
  }

  /** At every point of the run where `t` has yet to read the negative cache its kid's stamp is in the window. */
  predicate StampedThroughout(cfg: Config, s: State, evs: seq<Event>, t: ThreadId) {
    && StampedNow(cfg, Exec(cfg, s, evs), t)
    && (evs == [] || StampedThroughout(cfg, s, evs[..|evs| - 1], t))
  }

  predicate StampedNow(cfg: Config, s: State, t: ThreadId) {
    t in s.threads && s.threads[t].pc == AtNegative ==>
      InWindow(cfg, s.store, s.threads[t].url, s.threads[t].kid, s.threads[t].now)
  }

  /**
   * Over all thread interleavings, with tasks as environment: a call whose kid carries a
   * stamp in its window from its start until it has read the negative cache is about to
   * read it, or rejected.  It never reads the entry, leads, waits, stores or stamps.
   */
  lemma {:induction false} StampedCallIsRejected(cfg: Config, s: State, evs: seq<Event>, t: ThreadId)
    requires t in s.threads && s.threads[t].pc == AtNegative && Possible(cfg, s, evs)
    requires StampedThroughout(cfg, s, evs, t)
    ensures var r := Exec(cfg, s, evs);
      t in r.threads && (r.threads[t].pc == AtNegative || r.threads[t].pc == Finished(NegativeCached))
  {
    if evs != [] {
      var m, ev := Exec(cfg, s, evs[..|evs| - 1]), evs[|evs| - 1];
      StampedCallIsRejected(cfg, s, evs[..|evs| - 1], t);
      ExecContinues(cfg, s, evs[..|evs| - 1]);
      StampedBefore(cfg, s, evs, t);
      if m.threads[t].pc == AtNegative && ev == Move(t) {
        NegativeCacheDecides(cfg, m, t, []);
      } else {
        OnlyItMoves(cfg, m, ev, t);
      }
    }
  }

  lemma StampedBefore(cfg: Config, s: State, evs: seq<Event>, t: ThreadId)
    requires evs != [] && StampedThroughout(cfg, s, evs, t)
    ensures StampedThroughout(cfg, s, evs[..|evs| - 1], t) && StampedNow(cfg, Exec(cfg, s, evs[..|evs| - 1]), t)
  {
  }

  /** A thread that neither fetches nor waits is moved by its own steps only. */
  lemma OnlyItMoves(cfg: Config, s: State, ev: Event, t: ThreadId)
    requires Enabled(cfg, s, ev) && t in s.threads && ev != Move(t)
    requires !s.threads[t].pc.InFetch? && !s.threads[t].pc.Waiting?
    ensures t in Step(cfg, s, ev).threads && Step(cfg, s, ev).threads[t] == s.threads[t]
  {
    if ev.Move? { MoveIsLocal(cfg, s, ev.id); }
  }

  /** The entry is at most `cache_ttl` old for the call, and has its kid. */
  predicate FreshFor(cfg: Config, s: State, thread: Thread) {
    && thread.url in s.store.entries
    && thread.now - s.store.entries[thread.url].fetchedAt <= cfg.cacheTtl
    && thread.kid in s.store.entries[thread.url].keys.byKid
  }

  /**
   * A fresh entry decides a call exactly, whatever is in flight: a thread about to read
   * the entry does so at once and marks it as used; it finishes there, with the entry's
   * key, if and only if the entry is fresh and has the kid, and otherwise goes on to fetch.
   */
  lemma FreshEntryDecides(cfg: Config, s: State, t: ThreadId)
    requires t in s.threads && s.threads[t].pc == AtEntry
    ensures Enabled(cfg, s, Move(t))
    ensures var thread, r := s.threads[t], Step(cfg, s, Move(t));
      && t in r.threads && r == With(s.(store := Touch(s.store, thread.url)), t, r.threads[t])
      && r.threads[t] == thread.(pc := r.threads[t].pc)
      && (if FreshFor(cfg, s, thread)
          then r.threads[t].pc == Finished(Found(s.store.entries[thread.url].keys.byKid[thread.kid]))
          else r.threads[t].pc.AtJoin?)
  {
  }

  // ---------------------------------------------------------------------------
  // Every call can come to its end
  // ---------------------------------------------------------------------------

  /** A continuation of the state after a first event is one of the state before it. */
  lemma {:induction false} ExecCons(cfg: Config, s: State, ev: Event, more: seq<Event>)
    requires Enabled(cfg, s, ev) && Possible(cfg, Step(cfg, s, ev), more)
    ensures Possible(cfg, s, [ev] + more) && Exec(cfg, s, [ev] + more) == Exec(cfg, Step(cfg, s, ev), more)
  {
    var all := [ev] + more;
    if more == [] {
      assert all[..|all| - 1] == [];
      assert Exec(cfg, s, all) == Step(cfg, Exec(cfg, s, []), ev);
    } else {
      assert all[..|all| - 1] == [ev] + more[..|more| - 1];
      ExecCons(cfg, s, ev, more[..|more| - 1]);
    }
  }

  predicate IsFinished(s: State, t: ThreadId) {
    t in s.threads && s.threads[t].pc.Finished?
  }

  /** By its own steps, and with time, the thread's call ends. */
  ghost predicate CanFinish(cfg: Config, s: State, t: ThreadId) {
    exists more :: Possible(cfg, s, more) && Only(more, t, t) && IsFinished(Exec(cfg, s, more), t)
  }

  lemma StepThenCan(cfg: Config, s: State, ev: Event, t: ThreadId)
    requires Enabled(cfg, s, ev) && (ev.Tick? || By(ev, t)) && CanFinish(cfg, Step(cfg, s, ev), t)
    ensures CanFinish(cfg, s, t)
  {
    var r := Step(cfg, s, ev);
    var more :| Possible(cfg, r, more) && Only(more, t, t) && IsFinished(Exec(cfg, r, more), t);
    ExecCons(cfg, s, ev, more);
    assert Only([ev] + more, t, t);
  }

  /** How many more steps of its own the call can take. */
  function Left(pc: Pc): (n: nat) {
    match pc
    case AtNegative => 8
    case AtEntry => 7
    case AtJoin(_) => 6
    case InFetch(_) => 5
    case Waiting(_, _, _) => 5
    case AtPop(_, _) => 4
    case AtSet(_, _) => 3
    case AtReread(_) => 3
    case AtStore(_) => 2
    case AtStamp => 1
    case Finished(_) => 0
  }

  lemma MovesOn(cfg: Config, s: State, t: ThreadId)
    requires t in s.threads && !s.threads[t].pc.Finished?
    requires !s.threads[t].pc.InFetch? && !s.threads[t].pc.Waiting?
    ensures Enabled(cfg, s, Move(t))
    ensures t in Step(cfg, s, Move(t)).threads && Left(Step(cfg, s, Move(t)).threads[t].pc) < Left(s.threads[t].pc)
  {
  }

  lemma Runs(cfg: Config, s: State, t: ThreadId)
    requires t in s.threads
    ensures CanFinish(cfg, s, t)
    decreases Left(s.threads[t].pc)
  {
    var pc := s.threads[t].pc;
    if pc.Finished? {
      assert Possible(cfg, s, []) && Only([], t, t) && Exec(cfg, s, []) == s;
    } else if pc.InFetch? {
      var r := Step(cfg, s, HttpEnd(t, None));
      assert Left(r.threads[t].pc) == 4;
      Runs(cfg, r, t);
      StepThenCan(cfg, s, HttpEnd(t, None), t);
    } else if pc.Waiting? {
      var late := pc.since + cfg.httpTimeout + 1.0;
      var tick := Tick(if s.clock < late then late else s.clock);
      var m := Step(cfg, s, tick);
      var r := Step(cfg, m, Wake(t));
      assert m.threads == s.threads && Enabled(cfg, m, Wake(t)) && r.threads[t].pc == AtReread(pc.need);
      Runs(cfg, r, t);
      StepThenCan(cfg, m, Wake(t), t);
      StepThenCan(cfg, s, tick, t);
    } else {
      MovesOn(cfg, s, t);
      Runs(cfg, Step(cfg, s, Move(t)), t);
      StepThenCan(cfg, s, Move(t), t);
    }
  }

  /**
   * No call is stuck: in every state, whatever other threads and tasks hold, a thread's
   * call can come to its end by its own steps and the passing of time.
   */
  lemma EveryCallCanFinish(cfg: Config, evs: seq<Event>, t: ThreadId)
    requires Possible(cfg, Initial, evs) && t in Exec(cfg, Initial, evs).threads
    ensures CanFinish(cfg, Exec(cfg, Initial, evs), t)
  {
    Runs(cfg, Exec(cfg, Initial, evs), t);
  }

  /**
   * Coalescing serves: from every reachable state, if the leader a thread waits for gets
   * its keys and stores them, the thread can take the very same key set from the cache.
   */
  lemma FollowerCanBeServed(cfg: Config, evs: seq<Event>, t: ThreadId, body: map<Kid, Key>) returns (more: seq<Event>)
    requires cfg.Valid() && Possible(cfg, Initial, evs) && body != map[]
    requires var s := Exec(cfg, Initial, evs);
      && t in s.threads && s.threads[t].pc.Waiting? && s.threads[t].kid in body
      && s.threads[t].pc.leader in s.threads && s.threads[s.threads[t].pc.leader].pc.InFetch?
    ensures var s := Exec(cfg, Initial, evs);
      var thread, r := s.threads[t], Exec(cfg, s, more);
      && Possible(cfg, s, more) && Only(more, t, thread.pc.leader) && r.clock == s.clock
      && t in r.threads && r.threads[t].pc == Finished(Found(body[thread.kid]))
      && Lookup(r.store, thread.url) == Some(Entry(KeySet(body, thread.url, s.clock), thread.now))
  {
    RunFlights(cfg, Initial, evs);
    RunProvenance(cfg, Initial, evs);
    more := Served(cfg, Exec(cfg, Initial, evs), t, body);
  }

  lemma Served(cfg: Config, s: State, t: ThreadId, body: map<Kid, Key>) returns (more: seq<Event>)
    requires cfg.Valid() && Flights(s) && s.store.Valid(cfg.maxUrls) && body != map[]
    requires t in s.threads && s.threads[t].pc.Waiting? && s.threads[t].kid in body
    requires s.threads[t].pc.leader in s.threads && s.threads[s.threads[t].pc.leader].pc.InFetch?
    ensures var thread, r := s.threads[t], Exec(cfg, s, more);
      && Possible(cfg, s, more) && Only(more, t, thread.pc.leader) && r.clock == s.clock
      && t in r.threads && r.threads[t].pc == Finished(Found(body[thread.kid]))
      && Lookup(r.store, thread.url) == Some(Entry(KeySet(body, thread.url, s.clock), thread.now))
  {
    var thread, l := s.threads[t], s.threads[t].pc.leader;
    var keys := KeySet(body, thread.url, s.clock);
    assert Attached(s, t, thread) && Attached(s, l, s.threads[l]);
    var stored := Put(s.store, thread.url, Entry(keys, s.threads[l].now), cfg.maxUrls);
    PutKeeps(s.store, thread.url, Entry(keys, s.threads[l].now), cfg.maxUrls);
    PutKeeps(stored, thread.url, Entry(keys, thread.now), cfg.maxUrls);
    more := Lands(cfg, s, [], l, Some(body));
    more := Stores(cfg, s, more, l);
    assert Exec(cfg, s, more).threads[t] == thread && Exec(cfg, s, more).store == stored;
    more := FollowerTakes(cfg, s, more, t, Entry(keys, s.threads[l].now));
  }
}
