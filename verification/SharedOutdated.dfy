/**
 * When a thread can return a key beyond the age bound on a cache shared with tasks.
 *
 * While no thread has back-dated the URL's entry only a thread that waits for another
 * one's fetch can, and it can if and only if an outdated key of its kid is still on its
 * way to the cache: cached, carried by a thread or a task, or in a future that a task on
 * the URL still awaits.
 */
module SharedOutdated {
  import opened Wrappers
  import opened JwksStore
  import opened SharedCache
  import Threads = SyncFetch
  import SyncAge
  import SyncOutdated
  import SyncFollowers
  import SharedAge

  ghost predicate CanGetOutdated(cfg: Config, s: State, t: Threads.ThreadId) {
    exists more :: Possible(cfg, s, more) && SyncOutdated.GotOutdated(cfg, Exec(cfg, s, more).threads, t)
  }

  /** The thread is about to store the key set. */
  predicate ThreadCarries(pc: Threads.Pc, ks: KeySet) {
    pc == Threads.AtStore(ks) || ((pc.AtPop? || pc.AtSet?) && pc.outcome == Fetched(ks))
  }

  /** The task is about to store it, or awaits a flight that has returned it. */
  predicate TaskCarries(s: State, pc: Pc, ks: KeySet) {
    || pc == AtStore(ks)
    || ((pc.AtPop? || pc.AtSet?) && pc.outcome == Fetched(ks))
    || (pc.Following? && OutcomeOf(s, pc.leader) == Some(Fetched(ks)))
  }

  predicate Cached(s: State, url: Url, ks: KeySet) {
    url in s.threads.store.entries && s.threads.store.entries[url].keys == ks
  }

  ghost predicate CarriedByThread(s: State, url: Url, t: Threads.ThreadId, ks: KeySet) {
    exists x :: x in s.threads.threads && x != t && s.threads.threads[x].url == url &&
      ThreadCarries(s.threads.threads[x].pc, ks)
  }

  ghost predicate CarriedByTask(s: State, url: Url, ks: KeySet) {
    exists y :: y in s.tasks && s.tasks[y].url == url && TaskCarries(s, s.tasks[y].pc, ks)
  }

  /** The key set is in the URL's entry, or on its way there by others than `t`. */
  ghost predicate OnItsWay(s: State, url: Url, t: Threads.ThreadId, ks: KeySet) {
    Cached(s, url, ks) || CarriedByThread(s, url, t, ks) || CarriedByTask(s, url, ks)
  }

  /** Some such key set gives the thread's kid an outdated key. */
  ghost predicate WithinReach(cfg: Config, s: State, t: Threads.ThreadId)
    requires t in s.threads.threads
  {
    var thread := s.threads.threads[t];
    exists ks :: OnItsWay(s, thread.url, t, ks) && SyncOutdated.Gives(cfg, thread, ks, s.threads.log)
  }

  // ---------------------------------------------------------------------------
  // What comes to be on its way
  // ---------------------------------------------------------------------------

  /** Just fetched, or handed on by `t` itself. */
  ghost predicate New(s: State, r: State, url: Url, t: Threads.ThreadId, ks: KeySet) {
    || (FetchedBy(url, ks, r.threads.log) && ks.completed >= s.threads.clock)
    || (t in s.threads.threads && s.threads.threads[t].pc == Threads.AtStore(ks))
  }

  ghost predicate NothingElse(s: State, r: State, url: Url, t: Threads.ThreadId) {
    forall ks :: OnItsWay(r, url, t, ks) ==> OnItsWay(s, url, t, ks) || New(s, r, url, t, ks)
  }

  /** A store of `keys` for `u` caches nothing else. */
  lemma PutCaches(s: Store, u: Url, e: Entry, cap: nat, url: Url, ks: KeySet)
    requires s.Valid(cap) && cap >= 1
    requires var r := Put(s, u, e, cap); url in r.entries && r.entries[url].keys == ks
    ensures (url in s.entries && s.entries[url].keys == ks) || (u == url && e.keys == ks)
  {
    PutKeeps(s, u, e, cap);
  }

  lemma ThreadMoveBrings(cfg: Config, s: State, x: Threads.ThreadId, url: Url, t: Threads.ThreadId)
    requires cfg.Valid() && Good(cfg, s) && Enabled(cfg, s, Thread(Threads.Move(x)))
    ensures NothingElse(s, Step(cfg, s, Thread(Threads.Move(x))), url, t)
  {
    var r, thread := Step(cfg, s, Thread(Threads.Move(x))), s.threads.threads[x];
    Threads.MoveIsLocal(cfg, s.threads, x);
    TouchKeeps(s.threads.store, thread.url, cfg.maxUrls);
    forall ks | OnItsWay(r, url, t, ks) ensures OnItsWay(s, url, t, ks) || New(s, r, url, t, ks) {
      if Cached(r, url, ks) {
        if thread.pc.AtStore? {
          PutCaches(s.threads.store, thread.url, Entry(thread.pc.keys, thread.now), cfg.maxUrls, url, ks);
        }
      } else if CarriedByThread(r, url, t, ks) {
        var y :| y in r.threads.threads && y != t && r.threads.threads[y].url == url &&
          ThreadCarries(r.threads.threads[y].pc, ks);
        if y == x { MoverCarried(cfg, s, x, ks); }
      } else {
        TasksCarryOn(s, r, url, ks);
      }
    }
  }

  /** What a thread carries after its move it carried before, or read from the cache. */
  lemma MoverCarried(cfg: Config, s: State, x: Threads.ThreadId, ks: KeySet)
    requires Enabled(cfg, s, Thread(Threads.Move(x)))
    requires var r := Threads.MoveThread(cfg, s.threads, x); x in r.threads && ThreadCarries(r.threads[x].pc, ks)
    ensures ThreadCarries(s.threads.threads[x].pc, ks) || Cached(s, s.threads.threads[x].url, ks)
  {
  }

  lemma TasksCarryOn(s: State, r: State, url: Url, ks: KeySet)
    requires CarriedByTask(r, url, ks) && r.tasks == s.tasks && r.futures == s.futures
    ensures CarriedByTask(s, url, ks)
  {
    var y :| y in r.tasks && r.tasks[y].url == url && TaskCarries(r, r.tasks[y].pc, ks);
    if r.tasks[y].pc.Following? { assert OutcomeOf(r, r.tasks[y].pc.leader) == OutcomeOf(s, r.tasks[y].pc.leader); }
    assert y in s.tasks && s.tasks[y].url == url && TaskCarries(s, s.tasks[y].pc, ks);
  }

  lemma ThreadStepBrings(cfg: Config, s: State, ev: Threads.Event, url: Url, t: Threads.ThreadId)
    requires cfg.Valid() && Good(cfg, s) && Enabled(cfg, s, Thread(ev))
    ensures NothingElse(s, Step(cfg, s, Thread(ev)), url, t)
  {
    var r := Step(cfg, s, Thread(ev));
    if ev.Move? {
      ThreadMoveBrings(cfg, s, ev.id, url, t);
    } else {
      forall ks | OnItsWay(r, url, t, ks) ensures OnItsWay(s, url, t, ks) || New(s, r, url, t, ks) {
        if CarriedByThread(r, url, t, ks) {
          var y :| y in r.threads.threads && y != t && r.threads.threads[y].url == url &&
            ThreadCarries(r.threads.threads[y].pc, ks);
          if y in s.threads.threads && ThreadCarries(s.threads.threads[y].pc, ks) {
            assert CarriedByThread(s, url, t, ks);
          }
        } else if CarriedByTask(r, url, ks) {
          TasksCarryOn(s, r, url, ks);
        }
      }
    }
  }

  /** Threads carry on when a task moves. */
  lemma ThreadsCarryOn(s: State, r: State, url: Url, t: Threads.ThreadId, ks: KeySet)
    requires CarriedByThread(r, url, t, ks) && r.threads.threads == s.threads.threads
    ensures CarriedByThread(s, url, t, ks)
  {
    var y :| y in r.threads.threads && y != t && r.threads.threads[y].url == url &&
      ThreadCarries(r.threads.threads[y].pc, ks);
    assert y in s.threads.threads && ThreadCarries(s.threads.threads[y].pc, ks);
  }

  /** What a task carries after a step of some task it carried before, or it was just fetched. */
  lemma TaskCarried(cfg: Config, s: State, ev: Event, url: Url, y: TaskId, ks: KeySet)
    requires Good(cfg, s) && Enabled(cfg, s, ev) && !ev.Thread?
    requires var r := Step(cfg, s, ev); y in r.tasks && r.tasks[y].url == url && TaskCarries(r, r.tasks[y].pc, ks)
    ensures (y in s.tasks && s.tasks[y].url == url && TaskCarries(s, s.tasks[y].pc, ks)) ||
      (FetchedBy(url, ks, Step(cfg, s, ev).threads.log) && ks.completed >= s.threads.clock)
  {
    var r := Step(cfg, s, ev);
    StepGrows(cfg, s, ev);
    if y != ev.id {
      TasksComeByCalls(cfg, s, ev, y);
      BystanderCarried(cfg, s, ev, y, ks);
    } else {
      ActorCarried(cfg, s, ev, ks);
    }
  }

  lemma BystanderCarried(cfg: Config, s: State, ev: Event, y: TaskId, ks: KeySet)
    requires Good(cfg, s) && Enabled(cfg, s, ev) && !ev.Thread? && y in s.tasks && y != ev.id
    requires TaskCarries(Step(cfg, s, ev), s.tasks[y].pc, ks)
    ensures TaskCarries(s, s.tasks[y].pc, ks) ||
      (FetchedBy(s.tasks[y].url, ks, Step(cfg, s, ev).threads.log) && ks.completed >= s.threads.clock)
  {
    var pc := s.tasks[y].pc;
    if pc.Following? {
      assert Attached(s, y, s.tasks[y]);
      var l := pc.leader;
      if !((ev.HttpEnd? || ev.Cancel?) && ev.id == l && s.tasks[l].pc.Leading?) {
        OutcomesKept(cfg, s, ev, l);
      } else {
        assert Attached(s, l, s.tasks[l]);
      }
    }
  }

  lemma ActorCarried(cfg: Config, s: State, ev: Event, ks: KeySet)
    requires Good(cfg, s) && Enabled(cfg, s, ev) && !ev.Thread?
    requires var r := Step(cfg, s, ev); ev.id in r.tasks && TaskCarries(r, r.tasks[ev.id].pc, ks)
    ensures ev.id in s.tasks && s.tasks[ev.id].url == Step(cfg, s, ev).tasks[ev.id].url
    ensures TaskCarries(s, s.tasks[ev.id].pc, ks) ||
      (FetchedBy(s.tasks[ev.id].url, ks, Step(cfg, s, ev).threads.log) && ks.completed >= s.threads.clock)
  {
    if ev.Move? { MoverCarriedOn(cfg, s, ev.id, ks); }
  }

  lemma MoverCarriedOn(cfg: Config, s: State, t: TaskId, ks: KeySet)
    requires Good(cfg, s) && Enabled(cfg, s, Move(t))
    requires var r := MoveTask(cfg, s, t); t in r.tasks && TaskCarries(r, r.tasks[t].pc, ks)
    ensures s.tasks[t].url == MoveTask(cfg, s, t).tasks[t].url && TaskCarries(s, s.tasks[t].pc, ks)
  {
    MoveIsLocal(cfg, s, t);
    if s.tasks[t].pc.AtJoin? { JoinerCarriesNothing(cfg, s, t, ks); }
  }

  lemma JoinerCarriesNothing(cfg: Config, s: State, t: TaskId, ks: KeySet)
    requires Good(cfg, s) && Enabled(cfg, s, Move(t)) && s.tasks[t].pc.AtJoin?
    ensures var r := MoveTask(cfg, s, t); t in r.tasks && !TaskCarries(r, r.tasks[t].pc, ks)
  {
    var url := s.tasks[t].url;
    MoveIsLocal(cfg, s, t);
    if url in s.inflight {
      assert Attached(s, s.inflight[url], s.tasks[s.inflight[url]]);
    }
  }

  lemma TaskStepBrings(cfg: Config, s: State, ev: Event, url: Url, t: Threads.ThreadId)
    requires cfg.Valid() && Good(cfg, s) && Enabled(cfg, s, ev) && !ev.Thread?
    ensures NothingElse(s, Step(cfg, s, ev), url, t)
  {
    var r := Step(cfg, s, ev);
    StepGrows(cfg, s, ev);
    forall ks | OnItsWay(r, url, t, ks) ensures OnItsWay(s, url, t, ks) || New(s, r, url, t, ks) {
      if Cached(r, url, ks) {
        TaskStepCaches(cfg, s, ev, url, ks);
      } else if CarriedByThread(r, url, t, ks) {
        ThreadsCarryOn(s, r, url, t, ks);
      } else {
        var y :| y in r.tasks && r.tasks[y].url == url && TaskCarries(r, r.tasks[y].pc, ks);
        TaskCarried(cfg, s, ev, url, y, ks);
      }
    }
  }

  lemma TaskStepCaches(cfg: Config, s: State, ev: Event, url: Url, ks: KeySet)
    requires cfg.Valid() && Good(cfg, s) && Enabled(cfg, s, ev) && !ev.Thread?
    requires Cached(Step(cfg, s, ev), url, ks)
    ensures Cached(s, url, ks) || CarriedByTask(s, url, ks)
  {
    if ev.Move? { MoveCaches(cfg, s, ev.id, url, ks); }
  }

  lemma MoveCaches(cfg: Config, s: State, t: TaskId, url: Url, ks: KeySet)
    requires cfg.Valid() && Good(cfg, s) && Enabled(cfg, s, Move(t)) && Cached(MoveTask(cfg, s, t), url, ks)
    ensures Cached(s, url, ks) || (s.tasks[t].url == url && s.tasks[t].pc == AtStore(ks))
  {
    var Task(u, _, now, pc) := s.tasks[t];
    assert MoveTask(cfg, s, t).threads.store == Effects(cfg, s, t).threads.store;
    match pc
    case AtEntry => TouchKeeps(s.threads.store, u, cfg.maxUrls);
    case AtStore(keys) => PutCaches(s.threads.store, u, Entry(keys, now), cfg.maxUrls, url, ks);
    case _ =>
  }

  // ---------------------------------------------------------------------------
  // Nothing outdated on its way
  // ---------------------------------------------------------------------------

  /** The waiting thread `t` meets no outdated key: none is within its reach, and it carries none. */
  ghost predicate Clear(cfg: Config, s: State, t: Threads.ThreadId, need: Need) {
    && t in s.threads.threads
    && var thread, log := s.threads.threads[t], s.threads.log;
       && thread.now <= s.threads.clock
       && !WithinReach(cfg, s, t) && !SyncOutdated.HoldsOutdated(cfg, need, thread, log)
       && ClearPc(cfg, thread, need, log)
  }

  ghost predicate ClearPc(cfg: Config, thread: Threads.Thread, need: Need, log: set<KeySet>) {
    match thread.pc
    case Waiting(n, _, _) => n == need
    case AtReread(n) => n == need
    case AtStore(keys) => !SyncOutdated.Gives(cfg, thread, keys, log)
    case AtStamp => true
    case Finished(answer) => answer.Found? ==> !SyncOutdated.Outdated(cfg, thread, answer.key, log)
    case _ => false
  }

  lemma ClearPcKept(cfg: Config, thread: Threads.Thread, need: Need, log: set<KeySet>, more: set<KeySet>)
    requires ClearPc(cfg, thread, need, log) && log <= more
    ensures ClearPc(cfg, thread, need, more)
  {
    match thread.pc
    case AtStore(keys) => SyncOutdated.GivesLess(cfg, thread, keys, log, more);
    case Finished(answer) =>
      if answer.Found? && SyncOutdated.Outdated(cfg, thread, answer.key, more) {
        SyncOutdated.LessIsOutdated(cfg, thread, thread, answer.key, log, more);
      }
    case _ =>
  }

  lemma FailureIsClear(cfg: Config, thread: Threads.Thread, need: Need, log: set<KeySet>)
    requires !SyncOutdated.HoldsOutdated(cfg, need, thread, log)
    ensures ClearPc(cfg, thread.(pc := Threads.AfterFailure(cfg, need, thread.kid, thread.now)), need, log)
  {
    var pc := Threads.AfterFailure(cfg, need, thread.kid, thread.now);
    if pc.Finished? && pc.answer.Found? {
      assert SyncOutdated.FallsBackTo(cfg, need, thread, pc.answer.key);
    }
  }

  /** The waiting thread's own steps. */
  lemma FollowerStaysClear(cfg: Config, s: State, t: Threads.ThreadId, need: Need)
    requires Clear(cfg, s, t, need) && Enabled(cfg, s, Thread(Threads.Move(t)))
    ensures var r := Threads.MoveThread(cfg, s.threads, t);
      t in r.threads && ClearPc(cfg, r.threads[t], need, s.threads.log)
  {
    var thread := s.threads.threads[t];
    Threads.MoveIsLocal(cfg, s.threads, t);
    if thread.pc.AtReread? && thread.url in s.threads.store.entries {
      var keys := s.threads.store.entries[thread.url].keys;
      assert OnItsWay(s, thread.url, t, keys);
      assert !SyncOutdated.Gives(cfg, thread, keys, s.threads.log);
    } else if thread.pc.AtReread? {
      FailureIsClear(cfg, thread, need, s.threads.log);
    }
  }

  /** What comes to be on its way is fresh for a call that has already begun. */
  lemma ReachStaysClear(cfg: Config, s: State, r: State, t: Threads.ThreadId, need: Need)
    requires cfg.Valid() && Clear(cfg, s, t, need) && s.threads.log <= r.threads.log
    requires t in r.threads.threads && r.threads.threads[t] == s.threads.threads[t].(pc := r.threads.threads[t].pc)
    requires NothingElse(s, r, s.threads.threads[t].url, t)
    ensures !WithinReach(cfg, r, t) && !SyncOutdated.HoldsOutdated(cfg, need, r.threads.threads[t], r.threads.log)
  {
    var a, b := s.threads.threads[t], r.threads.threads[t];
    SyncOutdated.HoldsLess(cfg, need, a, s.threads.log, r.threads.log);
    SyncOutdated.SameHeld(cfg, need, a, b, r.threads.log);
    forall ks | OnItsWay(r, b.url, t, ks) ensures !SyncOutdated.Gives(cfg, b, ks, r.threads.log) {
      if OnItsWay(s, a.url, t, ks) || a.pc == Threads.AtStore(ks) {
        SyncOutdated.GivesLess(cfg, a, ks, s.threads.log, r.threads.log);
      } else {
        assert FetchedBy(b.url, ks, r.threads.log) && ks.completed >= b.now;
      }
    }
  }

  lemma StepClear(cfg: Config, s: State, ev: Event, t: Threads.ThreadId, need: Need)
    requires cfg.Valid() && Good(cfg, s) && Enabled(cfg, s, ev) && Clear(cfg, s, t, need)
    ensures Clear(cfg, Step(cfg, s, ev), t, need)
  {
    var r, thread := Step(cfg, s, ev), s.threads.threads[t];
    StepGrows(cfg, s, ev);
    if ev.Thread? {
      Threads.StepKeepsCall(cfg, s.threads, ev.ev, t);
      ThreadStepBrings(cfg, s, ev.ev, thread.url, t);
    } else {
      TaskStepBrings(cfg, s, ev, thread.url, t);
    }
    ReachStaysClear(cfg, s, r, t, need);
    if ev == Thread(Threads.Move(t)) {
      FollowerStaysClear(cfg, s, t, need);
      Threads.MoveIsLocal(cfg, s.threads, t);
    } else if ev != Thread(Threads.Wake(t)) {
      OnlyItMoves(cfg, s, ev, t);
      ClearPcKept(cfg, thread, need, s.threads.log, r.threads.log);
    }
  }

  lemma OnlyItMoves(cfg: Config, s: State, ev: Event, t: Threads.ThreadId)
    requires Enabled(cfg, s, ev) && t in s.threads.threads && !s.threads.threads[t].pc.InFetch?
    requires ev != Thread(Threads.Move(t)) && ev != Thread(Threads.Wake(t))
    ensures var r := Step(cfg, s, ev); t in r.threads.threads && r.threads.threads[t] == s.threads.threads[t]
  {
    StepGrows(cfg, s, ev);
    if ev.Thread? && ev.ev.Move? { Threads.MoveIsLocal(cfg, s.threads, ev.ev.id); }
  }

  lemma {:induction false} RunClear(cfg: Config, s: State, evs: seq<Event>, t: Threads.ThreadId, need: Need)
    requires cfg.Valid() && Good(cfg, s) && Possible(cfg, s, evs) && Clear(cfg, s, t, need)
    ensures Clear(cfg, Exec(cfg, s, evs), t, need)
  {
    if evs != [] {
      RunClear(cfg, s, evs[..|evs| - 1], t, need);
      RunGood(cfg, s, evs[..|evs| - 1]);
      StepClear(cfg, Exec(cfg, s, evs[..|evs| - 1]), evs[|evs| - 1], t, need);
    }
  }

  // ---------------------------------------------------------------------------
  // An outdated key on its way arrives
  // ---------------------------------------------------------------------------

  lemma StepThenCan(cfg: Config, s: State, ev: Event, t: Threads.ThreadId)
    requires Enabled(cfg, s, ev) && CanGetOutdated(cfg, Step(cfg, s, ev), t)
    ensures CanGetOutdated(cfg, s, t)
  {
    var r := Step(cfg, s, ev);
    var more :| Possible(cfg, r, more) && SyncOutdated.GotOutdated(cfg, Exec(cfg, r, more).threads, t);
    ExecCons(cfg, s, ev, more);
  }

  /** `t` waits on the URL for which `ks` is on its way, and `ks` gives it an outdated key. */
  ghost predicate Threatened(cfg: Config, s: State, t: Threads.ThreadId, ks: KeySet) {
    && Good(cfg, s) && t in s.threads.threads && s.threads.threads[t].pc.Waiting?
    && SyncOutdated.Gives(cfg, s.threads.threads[t], ks, s.threads.log)
  }

  lemma CachedArrives(cfg: Config, s: State, t: Threads.ThreadId, ks: KeySet)
    requires cfg.Valid() && Threatened(cfg, s, t, ks) && Cached(s, s.threads.threads[t].url, ks)
    ensures CanGetOutdated(cfg, s, t)
  {
    var evs := SyncOutdated.TakesCached(cfg, s.threads, t);
    LiftedRuns(cfg, s, evs);
  }

  /** Steps of others leave `t` waiting and `ks` outdated for it. */
  lemma StaysThreatened(cfg: Config, s: State, ev: Event, t: Threads.ThreadId, ks: KeySet)
    requires cfg.Valid() && Threatened(cfg, s, t, ks) && Enabled(cfg, s, ev)
    requires Step(cfg, s, ev).threads.log == s.threads.log
    requires ev != Thread(Threads.Move(t)) && ev != Thread(Threads.Wake(t))
    ensures Threatened(cfg, Step(cfg, s, ev), t, ks)
  {
    StepGood(cfg, s, ev);
    OnlyItMoves(cfg, s, ev, t);
  }

  lemma ThreadsRank(cfg: Config, s: State, x: Threads.ThreadId, ks: KeySet)
    requires x in s.threads.threads && ThreadCarries(s.threads.threads[x].pc, ks)
    ensures Enabled(cfg, s, Thread(Threads.Move(x)))
    ensures var r, url := Threads.MoveThread(cfg, s.threads, x), s.threads.threads[x].url;
      && r.log == s.threads.log && x in r.threads && r.threads[x].url == url
      && match s.threads.threads[x].pc
         case AtStore(_) => r.store == Put(s.threads.store, url, Entry(ks, s.threads.threads[x].now), cfg.maxUrls)
         case AtSet(_, _) => r.threads[x].pc == Threads.AtStore(ks)
         case _ => r.threads[x].pc.AtSet? && r.threads[x].pc.outcome == Fetched(ks)
  {
  }

  /** What a thread carries it stores. */
  lemma ThreadDelivers(cfg: Config, s: State, t: Threads.ThreadId, x: Threads.ThreadId, ks: KeySet)
    requires cfg.Valid() && Threatened(cfg, s, t, ks) && x in s.threads.threads && x != t
    requires s.threads.threads[x].url == s.threads.threads[t].url && ThreadCarries(s.threads.threads[x].pc, ks)
    ensures CanGetOutdated(cfg, s, t)
    decreases if s.threads.threads[x].pc.AtStore? then 0 else if s.threads.threads[x].pc.AtSet? then 1 else 2
  {
    var thread, ev := s.threads.threads[x], Thread(Threads.Move(x));
    var r := Step(cfg, s, ev);
    ThreadsRank(cfg, s, x, ks);
    StaysThreatened(cfg, s, ev, t, ks);
    OnlyItMoves(cfg, s, ev, t);
    if thread.pc.AtStore? {
      PutKeeps(s.threads.store, thread.url, Entry(ks, thread.now), cfg.maxUrls);
      CachedArrives(cfg, r, t, ks);
    } else {
      ThreadDelivers(cfg, r, t, x, ks);
    }
    StepThenCan(cfg, s, ev, t);
  }

  /** A task in the middle of a stretch that holds the key set stores it. */
  lemma StretchDelivers(cfg: Config, s: State, t: Threads.ThreadId, y: TaskId, ks: KeySet)
    requires cfg.Valid() && Threatened(cfg, s, t, ks) && y in s.tasks && s.tasks[y].url == s.threads.threads[t].url
    requires TaskCarries(s, s.tasks[y].pc, ks) && MidStretch(s.tasks[y].pc)
    ensures CanGetOutdated(cfg, s, t)
    decreases Left(s.tasks[y].pc)
  {
    var task, r := s.tasks[y], Step(cfg, s, Move(y));
    assert GenuineTask(s, task);
    MoveIsLocal(cfg, s, y);
    StretchesEnd(cfg, s, y);
    StaysThreatened(cfg, s, Move(y), t, ks);
    if task.pc.AtStore? {
      PutKeeps(s.threads.store, task.url, Entry(ks, task.now), cfg.maxUrls);
      CachedArrives(cfg, r, t, ks);
    } else {
      StretchDelivers(cfg, r, t, y, ks);
    }
    StepThenCan(cfg, s, Move(y), t);
  }

  /** A task that awaits a flight that has returned the key set resumes, once the event loop is free, and stores it. */
  lemma FutureDelivers(cfg: Config, s: State, t: Threads.ThreadId, y: TaskId, ks: KeySet)
    requires cfg.Valid() && Threatened(cfg, s, t, ks) && y in s.tasks && s.tasks[y].url == s.threads.threads[t].url
    requires s.tasks[y].pc.Following? && OutcomeOf(s, s.tasks[y].pc.leader) == Some(Fetched(ks))
    ensures CanGetOutdated(cfg, s, t)
    decreases if s.busy.Some? && s.busy.value in s.tasks then Left(s.tasks[s.busy.value].pc) else 0
  {
    var task, l := s.tasks[y], s.tasks[y].pc.leader;
    if s.busy.None? {
      assert Resolved(s, l);
      var r := Step(cfg, s, Resume(y));
      StaysThreatened(cfg, s, Resume(y), t, ks);
      assert r.tasks[y] == task.(pc := AtStore(ks));
      StretchDelivers(cfg, r, t, y, ks);
      StepThenCan(cfg, s, Resume(y), t);
    } else {
      var z := s.busy.value;
      var r := Step(cfg, s, Move(z));
      MoveIsLocal(cfg, s, z);
      StretchesEnd(cfg, s, z);
      StaysThreatened(cfg, s, Move(z), t, ks);
      OutcomesKept(cfg, s, Move(z), l);
      assert r.tasks[y] == task;
      FutureDelivers(cfg, r, t, y, ks);
      StepThenCan(cfg, s, Move(z), t);
    }
  }

  /** Whatever is within a waiting thread's reach it can come to return. */
  lemma ReachArrives(cfg: Config, s: State, t: Threads.ThreadId)
    requires cfg.Valid() && Good(cfg, s) && t in s.threads.threads && s.threads.threads[t].pc.Waiting?
    requires WithinReach(cfg, s, t)
    ensures CanGetOutdated(cfg, s, t)
  {
    var thread := s.threads.threads[t];
    var ks :| OnItsWay(s, thread.url, t, ks) && SyncOutdated.Gives(cfg, thread, ks, s.threads.log);
    if Cached(s, thread.url, ks) {
      CachedArrives(cfg, s, t, ks);
    } else if CarriedByThread(s, thread.url, t, ks) {
      var x :| x in s.threads.threads && x != t && s.threads.threads[x].url == thread.url &&
        ThreadCarries(s.threads.threads[x].pc, ks);
      ThreadDelivers(cfg, s, t, x, ks);
    } else {
      var y :| y in s.tasks && s.tasks[y].url == thread.url && TaskCarries(s, s.tasks[y].pc, ks);
      if s.tasks[y].pc.Following? { FutureDelivers(cfg, s, t, y, ks); } else { StretchDelivers(cfg, s, t, y, ks); }
    }
  }

  // ---------------------------------------------------------------------------
  // Exactly when
  // ---------------------------------------------------------------------------

  /** A waiting thread that would not fall back on an outdated key. */
  lemma WaiterOutdated(cfg: Config, s: State, t: Threads.ThreadId)
    requires cfg.Valid() && Good(cfg, s) && Threads.Started(s.threads)
    requires t in s.threads.threads && s.threads.threads[t].pc.Waiting?
    requires SoundNeed(s.threads.threads[t].url, s.threads.threads[t].pc.need, s.threads.log)
    ensures CanGetOutdated(cfg, s, t) <==> WithinReach(cfg, s, t)
  {
    var thread := s.threads.threads[t];
    if WithinReach(cfg, s, t) {
      ReachArrives(cfg, s, t);
    } else if CanGetOutdated(cfg, s, t) {
      var more :| Possible(cfg, s, more) && SyncOutdated.GotOutdated(cfg, Exec(cfg, s, more).threads, t);
      SyncOutdated.SoundIsNotOutdated(cfg, thread.pc.need, thread, s.threads.log);
      RunClear(cfg, s, more, t, thread.pc.need);
      assert false;
    }
  }

  /**
   * On a shared cache, while no thread has back-dated the URL's entry, exactly: a waiting
   * thread can come to return an outdated key if and only if one is cached, or carried by
   * another thread or a task on the URL, or in a future that a task on the URL awaits.
   */
  lemma WaiterOutdatedExactlyWhen(cfg: Config, evs: seq<Event>, t: Threads.ThreadId)
    requires cfg.Valid() && Possible(cfg, Initial, evs)
    requires var threads := Exec(cfg, Initial, evs).threads.threads;
      t in threads && threads[t].pc.Waiting? && SharedAge.HonestThreads(cfg, evs, threads[t].url)
    ensures var s := Exec(cfg, Initial, evs);
      CanGetOutdated(cfg, s, t) <==> WithinReach(cfg, s, t)
  {
    var s := Exec(cfg, Initial, evs);
    var thread := s.threads.threads[t];
    SharedAge.RunSound(cfg, evs, thread.url);
    assert SyncAge.SoundPc(cfg, thread, s.threads.log);
    ThreadsHaveStarted(cfg, Initial, evs);
    WaiterOutdated(cfg, s, t);
  }

  lemma {:induction false} ThreadsHaveStarted(cfg: Config, s: State, evs: seq<Event>)
    requires Threads.Started(s.threads) && Possible(cfg, s, evs)
    ensures Threads.Started(Exec(cfg, s, evs).threads)
  {
    if evs != [] {
      var m, ev := Exec(cfg, s, evs[..|evs| - 1]), evs[|evs| - 1];
      ThreadsHaveStarted(cfg, s, evs[..|evs| - 1]);
      StepGrows(cfg, m, ev);
      if ev.Thread? { Threads.StepStarted(cfg, m.threads, ev.ev); }
    }
  }

  /** Where the machines' threads are, the thread machine's own invariant holds. */
  lemma ThreadsFly(cfg: Config, evs: seq<Event>)
    requires cfg.Valid() && Possible(cfg, Initial, evs)
    ensures Threads.Flights(Exec(cfg, Initial, evs).threads)
  {
    ThreadsBesideTasks(cfg, Initial, evs);
    var own :| Threads.Possible(cfg, Threads.Initial, own) &&
      Threads.Exec(cfg, Threads.Initial, own) == Exec(cfg, Initial, evs).threads;
    Threads.RunFlights(cfg, Threads.Initial, own);
  }

  /** A leader that would not fall back on an outdated key returns none. */
  lemma LeaderIsClear(cfg: Config, s: State, t: Threads.ThreadId, need: Need)
    requires cfg.Valid() && Good(cfg, s) && Threads.Started(s.threads) && Threads.Flights(s.threads)
    requires t in s.threads.threads && s.threads.threads[t].pc == Threads.InFetch(need)
    requires SoundNeed(s.threads.threads[t].url, need, s.threads.log)
    ensures !CanGetOutdated(cfg, s, t)
  {
    if CanGetOutdated(cfg, s, t) {
      var more :| Possible(cfg, s, more) && SyncOutdated.GotOutdated(cfg, Exec(cfg, s, more).threads, t);
      ThreadsBesideTasks(cfg, s, more);
      var own :| Threads.Possible(cfg, s.threads, own) &&
        Threads.Exec(cfg, s.threads, own) == Exec(cfg, s, more).threads;
      SyncOutdated.LeaderHeldIt(cfg, s.threads, t, need, own);
      SyncOutdated.SoundIsNotOutdated(cfg, need, s.threads.threads[t], s.threads.log);
      assert false;
    }
  }

  /** Nothing differs between the states but `t`. */
  predicate SameButFor(s: State, r: State, t: Threads.ThreadId) {
    && t in s.threads.threads && t in r.threads.threads
    && r == s.(threads := s.threads.(threads := r.threads.threads))
    && r.threads.threads == s.threads.threads[t := s.threads.threads[t].(pc := r.threads.threads[t].pc)]
  }

  lemma KeepsOnItsWay(s: State, r: State, t: Threads.ThreadId, url: Url, ks: KeySet)
    requires SameButFor(s, r, t) && OnItsWay(r, url, t, ks)
    ensures OnItsWay(s, url, t, ks)
  {
    if CarriedByThread(r, url, t, ks) {
      var x :| x in r.threads.threads && x != t && r.threads.threads[x].url == url &&
        ThreadCarries(r.threads.threads[x].pc, ks);
      assert x in s.threads.threads && ThreadCarries(s.threads.threads[x].pc, ks);
    } else if CarriedByTask(r, url, ks) {
      TasksCarryOn(s, r, url, ks);
    }
  }

  /** Joining a flight changes nothing about what is on its way. */
  lemma SameReach(cfg: Config, s: State, r: State, t: Threads.ThreadId)
    requires SameButFor(s, r, t) && WithinReach(cfg, r, t)
    ensures WithinReach(cfg, s, t)
  {
    var a, b := s.threads.threads[t], r.threads.threads[t];
    var ks :| OnItsWay(r, b.url, t, ks) && SyncOutdated.Gives(cfg, b, ks, r.threads.log);
    KeepsOnItsWay(s, r, t, b.url, ks);
    assert SyncOutdated.Gives(cfg, a, ks, s.threads.log);
  }

  /**
   * The same at the branch where a thread looks for a fetch in flight: with honest stores
   * it can come to return an outdated key if and only if another thread's fetch is in
   * flight and an outdated key of its kid is on its way.
   */
  lemma OutdatedExactlyWhen(cfg: Config, evs: seq<Event>, t: Threads.ThreadId)
    requires cfg.Valid() && Possible(cfg, Initial, evs)
    requires var threads := Exec(cfg, Initial, evs).threads.threads;
      t in threads && threads[t].pc.AtJoin? && SharedAge.HonestThreads(cfg, evs, threads[t].url)
    ensures var s := Exec(cfg, Initial, evs);
      CanGetOutdated(cfg, Step(cfg, s, Thread(Threads.Move(t))), t) <==>
        s.threads.threads[t].url in s.threads.inflight && WithinReach(cfg, s, t)
  {
    var s := Exec(cfg, Initial, evs);
    var thread := s.threads.threads[t];
    SharedAge.RunSound(cfg, evs, thread.url);
    assert SyncAge.SoundPc(cfg, thread, s.threads.log);
    ThreadsHaveStarted(cfg, Initial, evs);
    ThreadsFly(cfg, evs);
    BranchOutdated(cfg, s, t);
  }

  lemma BranchOutdated(cfg: Config, s: State, t: Threads.ThreadId)
    requires cfg.Valid() && Good(cfg, s) && Threads.Started(s.threads) && Threads.Flights(s.threads)
    requires t in s.threads.threads && s.threads.threads[t].pc.AtJoin?
    requires SoundNeed(s.threads.threads[t].url, s.threads.threads[t].pc.need, s.threads.log)
    ensures CanGetOutdated(cfg, Step(cfg, s, Thread(Threads.Move(t))), t) <==>
      s.threads.threads[t].url in s.threads.inflight && WithinReach(cfg, s, t)
  {
    var ev := Threads.Move(t);
    var r, thread := Step(cfg, s, Thread(ev)), s.threads.threads[t];
    SyncFollowers.Branches(cfg, s.threads, t);
    StepGood(cfg, s, Thread(ev));
    Threads.StepStarted(cfg, s.threads, ev);
    Threads.StepFlights(cfg, s.threads, ev);
    if thread.url in s.threads.inflight {
      WaiterOutdated(cfg, r, t);
      assert SameButFor(s, r, t) && SameButFor(r, s, t);
      if WithinReach(cfg, s, t) { SameReach(cfg, r, s, t); }
      if WithinReach(cfg, r, t) { SameReach(cfg, s, r, t); }
    } else {
      LeaderIsClear(cfg, r, t, thread.pc.need);
    }
  }
}
