/**
 * The age bound on a cache that tasks and threads share: it holds for a task as long as no
 * thread has back-dated the URL's entry, and whether it can fail is decided, exactly, where
 * the task reads that entry.
 */
module SharedAge {
  import opened Wrappers
  import opened JwksStore
  import opened SharedCache
  import Threads = SyncFetch
  import SyncAge
  import SyncScenes

  // ---------------------------------------------------------------------------
  // The bound
  // ---------------------------------------------------------------------------

  /** No thread of the run stores, for the URL, keys fetched before its call began. */
  predicate HonestThreads(cfg: Config, evs: seq<Event>, url: Url) {
    evs == [] ||
    (HonestThreads(cfg, evs[..|evs| - 1], url) && Honest(Exec(cfg, Initial, evs[..|evs| - 1]), evs[|evs| - 1], url))
  }

  predicate Honest(s: State, ev: Event, url: Url) {
    ev.Thread? ==> !SyncAge.Backdated(s.threads, ev.ev, url)
  }

  ghost predicate SoundTask(cfg: Config, s: State, task: Task) {
    var Task(url, kid, now, pc) := task;
    var log := s.threads.log;
    match pc
    case AtJoin(need) => SoundNeed(url, need, log)
    case Leading(need) => SoundNeed(url, need, log)
    case Following(need, _) => SoundNeed(url, need, log)
    case AtPop(need, _, _) => SoundNeed(url, need, log)
    case AtSet(need, _, _) => SoundNeed(url, need, log)
    case Finished(answer) => VouchedAnswer(url, kid, answer, log, now - cfg.AgeBound())
    case _ => true
  }

  ghost predicate SoundFor(cfg: Config, s: State, url: Url) {
    && Good(cfg, s) && SyncAge.AgeSound(cfg, s.threads, url)
    && (forall t :: t in s.tasks && s.tasks[t].url == url ==> SoundTask(cfg, s, s.tasks[t]))
  }

  lemma SoundTaskKept(cfg: Config, s: State, r: State, task: Task)
    requires SoundTask(cfg, s, task) && s.threads.log <= r.threads.log
    ensures SoundTask(cfg, r, task)
  {
    if task.pc.Finished? {
      VouchedGrows(task.url, task.kid, task.pc.answer, s.threads.log, r.threads.log, task.now - cfg.AgeBound());
    }
  }

  /** A step of a task leaves the URL's entry, and so the threads, sound. */
  lemma ThreadsStaySound(cfg: Config, s: State, ev: Event, url: Url)
    requires cfg.Valid() && SoundFor(cfg, s, url) && Enabled(cfg, s, ev) && !ev.Thread?
    ensures SyncAge.AgeSound(cfg, Step(cfg, s, ev).threads, url)
  {
    var r := Step(cfg, s, ev);
    StepGood(cfg, s, ev);
    StepGrows(cfg, s, ev);
    StepStoresSoundly(cfg, s, ev);
    forall x | x in s.threads.threads && s.threads.threads[x].url == url
      ensures SyncAge.SoundPc(cfg, s.threads.threads[x], r.threads.log)
    {
      SyncAge.SoundPcGrows(cfg, s.threads.threads[x], s.threads.log, r.threads.log);
    }
  }

  lemma SettledIsSound(cfg: Config, need: Need, o: Outcome, url: Url, kid: Kid, now: real, log: set<KeySet>)
    requires SoundNeed(url, need, log)
    ensures var pc := AfterOutcome(cfg, need, o, kid, now);
      pc.Finished? ==> VouchedAnswer(url, kid, pc.answer, log, now - cfg.AgeBound())
  {
    if need.Refresh? && need.held.Some? { assert FetchedBy(url, need.held.value.keys, log); }
  }

  lemma MoverStaysSound(cfg: Config, s: State, t: TaskId)
    requires Good(cfg, s) && Enabled(cfg, s, Move(t)) && SyncAge.SoundAt(s.threads.store, s.tasks[t].url, s.threads.log)
    requires SoundTask(cfg, s, s.tasks[t])
    ensures var r := MoveTask(cfg, s, t); t in r.tasks && SoundTask(cfg, r, r.tasks[t])
  {
    var Task(url, kid, now, pc) := s.tasks[t];
    MoveIsLocal(cfg, s, t);
    assert GenuineTask(s, s.tasks[t]);
    match pc
    case AtEntry => OpenIsSound(cfg, url, Lookup(s.threads.store, url), kid, now, s.threads.log);
    case AtSet(need, o, _) => SettledIsSound(cfg, need, o, url, kid, now, s.threads.log);
    case AtStore(keys) => assert FetchedBy(url, keys, s.threads.log);
    case _ =>
  }

  lemma ActorStaysSound(cfg: Config, s: State, ev: Event)
    requires Good(cfg, s) && Enabled(cfg, s, ev) && !ev.Thread?
    requires ev.id in s.tasks ==>
      SoundTask(cfg, s, s.tasks[ev.id]) && SyncAge.SoundAt(s.threads.store, s.tasks[ev.id].url, s.threads.log)
    ensures var r := Step(cfg, s, ev); ev.id in r.tasks && SoundTask(cfg, r, r.tasks[ev.id])
  {
    match ev
    case Move(t) => MoverStaysSound(cfg, s, t);
    case Resume(t) =>
      var Task(url, kid, now, pc) := s.tasks[t];
      SettledIsSound(cfg, pc.need, s.futures[pc.leader].outcome, url, kid, now, s.threads.log);
    case _ =>
  }

  lemma TaskStepSound(cfg: Config, s: State, ev: Event, url: Url)
    requires cfg.Valid() && SoundFor(cfg, s, url) && Enabled(cfg, s, ev) && !ev.Thread?
    ensures SoundFor(cfg, Step(cfg, s, ev), url)
  {
    var r := Step(cfg, s, ev);
    StepGood(cfg, s, ev);
    StepGrows(cfg, s, ev);
    ThreadsStaySound(cfg, s, ev, url);
    forall t | t in r.tasks && r.tasks[t].url == url ensures SoundTask(cfg, r, r.tasks[t]) {
      if t == ev.id {
        ActorKeepsCall(cfg, s, ev);
        ActorStaysSound(cfg, s, ev);
      } else {
        TasksComeByCalls(cfg, s, ev, t);
        SoundTaskKept(cfg, s, r, s.tasks[t]);
      }
    }
  }

  lemma ActorKeepsCall(cfg: Config, s: State, ev: Event)
    requires Enabled(cfg, s, ev) && !ev.Thread?
    ensures var r := Step(cfg, s, ev);
      ev.id in r.tasks && (ev.id in s.tasks ==> r.tasks[ev.id] == s.tasks[ev.id].(pc := r.tasks[ev.id].pc))
  {
    if ev.Move? { MoveIsLocal(cfg, s, ev.id); }
  }

  lemma ThreadStepSound(cfg: Config, s: State, ev: Threads.Event, url: Url)
    requires cfg.Valid() && SoundFor(cfg, s, url) && Enabled(cfg, s, Thread(ev)) && Honest(s, Thread(ev), url)
    ensures SoundFor(cfg, Step(cfg, s, Thread(ev)), url)
  {
    var r := Step(cfg, s, Thread(ev));
    StepGood(cfg, s, Thread(ev));
    StepGrows(cfg, s, Thread(ev));
    SyncAge.StepAge(cfg, s.threads, ev, url);
    forall t | t in r.tasks && r.tasks[t].url == url ensures SoundTask(cfg, r, r.tasks[t]) {
      SoundTaskKept(cfg, s, r, s.tasks[t]);
    }
  }

  lemma {:induction false} RunSound(cfg: Config, evs: seq<Event>, url: Url)
    requires cfg.Valid() && Possible(cfg, Initial, evs) && HonestThreads(cfg, evs, url)
    ensures SoundFor(cfg, Exec(cfg, Initial, evs), url)
  {
    if evs != [] {
      var s, ev := Exec(cfg, Initial, evs[..|evs| - 1]), evs[|evs| - 1];
      RunSound(cfg, evs[..|evs| - 1], url);
      if ev.Thread? { ThreadStepSound(cfg, s, ev.ev, url); } else { TaskStepSound(cfg, s, ev, url); }
    }
  }

  /**
   * As long as no thread has stored old keys for a URL under too late a time, whatever
   * else threads and tasks do, a key returned for it, to a task or to a thread, was fetched
   * no longer ago than max(cache_ttl, stale_ttl) before the call began.
   */
  lemma SharedAgeBound(cfg: Config, evs: seq<Event>, url: Url, t: TaskId, x: Threads.ThreadId)
    requires cfg.Valid() && Possible(cfg, Initial, evs) && HonestThreads(cfg, evs, url)
    ensures var s := Exec(cfg, Initial, evs);
      && (t in s.tasks && s.tasks[t].url == url && s.tasks[t].pc.Finished? ==>
           VouchedAnswer(url, s.tasks[t].kid, s.tasks[t].pc.answer, s.threads.log, s.tasks[t].now - cfg.AgeBound()))
      && (x in s.threads.threads && s.threads.threads[x].url == url && s.threads.threads[x].pc.Finished? ==>
           var thread := s.threads.threads[x];
           VouchedAnswer(url, thread.kid, thread.pc.answer, s.threads.log, thread.now - cfg.AgeBound()))
  {
    RunSound(cfg, evs, url);
    SoundAnswers(cfg, Exec(cfg, Initial, evs), url, t, x);
  }

  lemma SoundAnswers(cfg: Config, s: State, url: Url, t: TaskId, x: Threads.ThreadId)
    requires SoundFor(cfg, s, url)
    ensures t in s.tasks && s.tasks[t].url == url ==> SoundTask(cfg, s, s.tasks[t])
    ensures x in s.threads.threads && s.threads.threads[x].url == url ==>
      SyncAge.SoundPc(cfg, s.threads.threads[x], s.threads.log)
  {
  }

  // ---------------------------------------------------------------------------
  // When a task's answer can be beyond it
  // ---------------------------------------------------------------------------

  /** No fetch of the URL within the age bound of the call has given its kid this key. */
  ghost predicate Outdated(cfg: Config, task: Task, key: Key, log: set<KeySet>) {
    !Vouched(task.url, task.kid, key, log, task.now - cfg.AgeBound())
  }

  ghost predicate GotOutdated(cfg: Config, s: State, t: TaskId) {
    && t in s.tasks && s.tasks[t].pc.Finished? && s.tasks[t].pc.answer.Found?
    && Outdated(cfg, s.tasks[t], s.tasks[t].pc.answer.key, s.threads.log)
  }

  /** Some continuation, of tasks and threads, answers task `t` with an outdated key. */
  ghost predicate CanGetOutdated(cfg: Config, s: State, t: TaskId) {
    exists more :: Possible(cfg, s, more) && GotOutdated(cfg, Exec(cfg, s, more), t)
  }

  /** The entry is young enough to be served to the call by its own account, and gives it an outdated key. */
  ghost predicate ServesOutdated(cfg: Config, e: Entry, task: Task, log: set<KeySet>) {
    && task.now - e.fetchedAt <= cfg.ServeLimit()
    && task.kid in e.keys.byKid && Outdated(cfg, task, e.keys.byKid[task.kid], log)
  }

  /** Where a call can be that has read `held`: what it fetches is fresh, else it falls back on that entry. */
  ghost predicate After(cfg: Config, held: Option<Entry>, task: Task, log: set<KeySet>) {
    match task.pc
    case AtJoin(need) => need.Refresh? ==> need.held == held
    case Leading(need) => need.Refresh? ==> need.held == held
    case Following(need, _) => need.Refresh? ==> need.held == held
    case AtPop(need, _, _) => need.Refresh? ==> need.held == held
    case AtSet(need, _, _) => need.Refresh? ==> need.held == held
    case AtStore(_) => true
    case AtStamp => true
    case Finished(answer) => answer.Found? ==>
      Vouched(task.url, task.kid, answer.key, log, task.now) ||
        (held.Some? && Serves(cfg, held.value, task, answer.key))
    case Cancelled => true
    case _ => false
  }

  /** The entry is young enough for the call, and gives its kid this key. */
  predicate Serves(cfg: Config, e: Entry, task: Task, key: Key) {
    && task.now - e.fetchedAt <= cfg.ServeLimit()
    && task.kid in e.keys.byKid && e.keys.byKid[task.kid] == key
  }

  lemma AfterKept(cfg: Config, held: Option<Entry>, task: Task, log: set<KeySet>, more: set<KeySet>)
    requires After(cfg, held, task, log) && log <= more
    ensures After(cfg, held, task, more)
  {
    if task.pc.Finished? && task.pc.answer.Found? {
      if Vouched(task.url, task.kid, task.pc.answer.key, log, task.now) {
        VouchedGrows(task.url, task.kid, task.pc.answer, log, more, task.now);
      }
    }
  }

  lemma OutcomeIsAfter(cfg: Config, held: Option<Entry>, need: Need, o: Outcome, task: Task, log: set<KeySet>)
    requires need.Refresh? ==> need.held == held
    ensures After(cfg, held, task.(pc := AfterOutcome(cfg, need, o, task.kid, task.now)), log)
  {
  }

  lemma MoverIsAfter(cfg: Config, s: State, t: TaskId, held: Option<Entry>)
    requires Good(cfg, s) && Enabled(cfg, s, Move(t)) && After(cfg, held, s.tasks[t], s.threads.log)
    ensures var r := MoveTask(cfg, s, t); t in r.tasks && After(cfg, held, r.tasks[t], s.threads.log)
  {
    var task := s.tasks[t];
    MoveIsLocal(cfg, s, t);
    assert GenuineTask(s, task);
    match task.pc
    case AtSet(need, o, _) => OutcomeIsAfter(cfg, held, need, o, task, s.threads.log);
    case AtStore(keys) => assert FetchedBy(task.url, keys, s.threads.log);
    case _ =>
  }

  lemma StepAfter(cfg: Config, s: State, ev: Event, t: TaskId, held: Option<Entry>)
    requires Good(cfg, s) && Enabled(cfg, s, ev) && t in s.tasks && After(cfg, held, s.tasks[t], s.threads.log)
    ensures var r := Step(cfg, s, ev); t in r.tasks && After(cfg, held, r.tasks[t], r.threads.log)
  {
    StepGrows(cfg, s, ev);
    if ev.Thread? || ev.id != t {
      AfterKept(cfg, held, s.tasks[t], s.threads.log, Step(cfg, s, ev).threads.log);
    } else if ev.Move? {
      MoverIsAfter(cfg, s, t, held);
      MoveIsLocal(cfg, s, t);
    } else if ev.Resume? {
      var pc := s.tasks[t].pc;
      OutcomeIsAfter(cfg, held, pc.need, s.futures[pc.leader].outcome, s.tasks[t], s.threads.log);
    }
  }

  lemma StepKeepsCall(cfg: Config, s: State, ev: Event, t: TaskId)
    requires Enabled(cfg, s, ev) && t in s.tasks
    ensures var r := Step(cfg, s, ev); t in r.tasks && r.tasks[t] == s.tasks[t].(pc := r.tasks[t].pc)
  {
    StepGrows(cfg, s, ev);
    if !ev.Thread? && ev.id == t { ActorKeepsCall(cfg, s, ev); }
  }

  lemma {:induction false} RunAfter(cfg: Config, s: State, evs: seq<Event>, t: TaskId, held: Option<Entry>)
    requires cfg.Valid() && Good(cfg, s) && Possible(cfg, s, evs)
    requires t in s.tasks && After(cfg, held, s.tasks[t], s.threads.log)
    ensures var r := Exec(cfg, s, evs);
      && s.threads.log <= r.threads.log && t in r.tasks && r.tasks[t] == s.tasks[t].(pc := r.tasks[t].pc)
      && After(cfg, held, r.tasks[t], r.threads.log)
  {
    if evs != [] {
      var m, ev := Exec(cfg, s, evs[..|evs| - 1]), evs[|evs| - 1];
      RunAfter(cfg, s, evs[..|evs| - 1], t, held);
      RunGood(cfg, s, evs[..|evs| - 1]);
      StepGrows(cfg, m, ev);
      StepKeepsCall(cfg, m, ev, t);
      StepAfter(cfg, m, ev, t, held);
    }
  }

  lemma StepThenCan(cfg: Config, s: State, ev: Event, t: TaskId)
    requires Enabled(cfg, s, ev) && CanGetOutdated(cfg, Step(cfg, s, ev), t)
    ensures CanGetOutdated(cfg, s, t)
  {
    var more :| Possible(cfg, Step(cfg, s, ev), more) && GotOutdated(cfg, Exec(cfg, Step(cfg, s, ev), more), t);
    ExecCons(cfg, s, ev, more);
  }

  lemma AtOnce(cfg: Config, s: State, t: TaskId)
    requires GotOutdated(cfg, s, t)
    ensures CanGetOutdated(cfg, s, t)
  {
    assert Possible(cfg, s, []) && Exec(cfg, s, []) == s;
  }

  /** The call would fall back on an entry with an outdated key. */
  predicate HoldsKey(cfg: Config, need: Need, task: Task, key: Key) {
    FallsBackOn(cfg, need, task.kid, task.now, key)
  }

  /** A leader whose fetch has failed is about to resolve its future. */
  lemma FailureFallsBack(cfg: Config, s: State, t: TaskId, need: Need, key: Key)
    requires s.busy == Some(t) && t in s.tasks && s.tasks[t].pc == AtSet(need, Failed, false)
    requires HoldsKey(cfg, need, s.tasks[t], key) && Outdated(cfg, s.tasks[t], key, s.threads.log)
    ensures CanGetOutdated(cfg, s, t)
  {
    var r := Step(cfg, s, Move(t));
    MoveIsLocal(cfg, s, t);
    assert r.tasks[t].pc == Finished(Found(key));
    AtOnce(cfg, r, t);
    StepThenCan(cfg, s, Move(t), t);
  }

  lemma LeaderFallsBack(cfg: Config, s: State, t: TaskId, need: Need, key: Key)
    requires s.busy.None? && t in s.tasks && s.tasks[t].pc == Leading(need)
    requires HoldsKey(cfg, need, s.tasks[t], key) && Outdated(cfg, s.tasks[t], key, s.threads.log)
    ensures CanGetOutdated(cfg, s, t)
  {
    var a := Step(cfg, s, HttpEnd(t, None));
    assert a.tasks[t] == s.tasks[t].(pc := AtPop(need, Failed, false)) && a.threads == s.threads;
    var b := Step(cfg, a, Move(t));
    MoveIsLocal(cfg, a, t);
    assert b.tasks[t] == s.tasks[t].(pc := AtSet(need, Failed, false)) && b.threads == s.threads;
    FailureFallsBack(cfg, b, t, need, key);
    StepThenCan(cfg, a, Move(t), t);
    StepThenCan(cfg, s, HttpEnd(t, None), t);
  }

  /** The future has been resolved with a failure. */
  lemma ResumedFallsBack(cfg: Config, s: State, t: TaskId, need: Need, l: TaskId, key: Key)
    requires s.busy.None? && t in s.tasks && s.tasks[t].pc == Following(need, l)
    requires Resolved(s, l) && s.futures[l].outcome == Failed
    requires HoldsKey(cfg, need, s.tasks[t], key) && Outdated(cfg, s.tasks[t], key, s.threads.log)
    ensures CanGetOutdated(cfg, s, t)
  {
    var r := Step(cfg, s, Resume(t));
    assert r.tasks[t] == s.tasks[t].(pc := Finished(Found(key)));
    AtOnce(cfg, r, t);
    StepThenCan(cfg, s, Resume(t), t);
  }

  lemma FollowerFallsBack(cfg: Config, s: State, t: TaskId, need: Need, l: TaskId, key: Key)
    requires Flights(s) && s.busy.None? && t in s.tasks && s.tasks[t].pc == Following(need, l)
    requires l in s.tasks && s.tasks[l].pc.Leading?
    requires HoldsKey(cfg, need, s.tasks[t], key) && Outdated(cfg, s.tasks[t], key, s.threads.log)
    ensures CanGetOutdated(cfg, s, t)
  {
    var task, n := s.tasks[t], s.tasks[l].pc.need;
    assert Attached(s, l, s.tasks[l]);
    var a := Step(cfg, s, Cancel(l));
    assert a == s.(tasks := s.tasks[l := s.tasks[l].(pc := AtPop(n, Failed, true))], busy := Some(l));
    var b := Step(cfg, a, Move(l));
    MoveIsLocal(cfg, a, l);
    assert b.tasks[l].pc == AtSet(n, Failed, true) && b.tasks[t] == task && b.futures == s.futures;
    assert b.threads == s.threads;
    var c := Step(cfg, b, Move(l));
    MoveIsLocal(cfg, b, l);
    assert c.tasks[t] == task && c.busy.None? && c.futures == s.futures[l := Done(Failed)] && c.threads == s.threads;
    ResumedFallsBack(cfg, c, t, need, l, key);
    StepThenCan(cfg, b, Move(l), t);
    StepThenCan(cfg, a, Move(l), t);
    StepThenCan(cfg, s, Cancel(l), t);
  }

  /** At the branch with an outdated key to fall back on: the fetch it comes to depend on fails. */
  lemma JoinerFallsBack(cfg: Config, s: State, t: TaskId, key: Key)
    requires cfg.Valid() && Good(cfg, s) && s.busy == Some(t) && t in s.tasks && s.tasks[t].pc.AtJoin?
    requires HoldsKey(cfg, s.tasks[t].pc.need, s.tasks[t], key) && Outdated(cfg, s.tasks[t], key, s.threads.log)
    ensures CanGetOutdated(cfg, s, t)
  {
    var task, r := s.tasks[t], Step(cfg, s, Move(t));
    StepGood(cfg, s, Move(t));
    MoveIsLocal(cfg, s, t);
    if task.url in s.inflight {
      var l := s.inflight[task.url];
      assert Attached(s, l, s.tasks[l]);
      assert r.tasks[l] == s.tasks[l] && r.tasks[l].pc.Leading?;
      FollowerFallsBack(cfg, r, t, task.pc.need, l, key);
    } else {
      LeaderFallsBack(cfg, r, t, task.pc.need, key);
    }
    StepThenCan(cfg, s, Move(t), t);
  }

  lemma ReaderIsServed(cfg: Config, s: State, t: TaskId, e: Entry)
    requires cfg.Valid() && Good(cfg, s) && s.busy == Some(t) && t in s.tasks && s.tasks[t].pc.AtEntry?
    requires Lookup(s.threads.store, s.tasks[t].url) == Some(e) && ServesOutdated(cfg, e, s.tasks[t], s.threads.log)
    ensures CanGetOutdated(cfg, Step(cfg, s, Move(t)), t)
  {
    var task, r, key := s.tasks[t], Step(cfg, s, Move(t)), e.keys.byKid[s.tasks[t].kid];
    StepGood(cfg, s, Move(t));
    MoveIsLocal(cfg, s, t);
    if task.now - e.fetchedAt <= cfg.cacheTtl {
      assert r.tasks[t].pc == Finished(Found(key));
      AtOnce(cfg, r, t);
    } else {
      assert r.tasks[t].pc == AtJoin(Refresh(Some(e)));
      JoinerFallsBack(cfg, r, t, key);
    }
  }

  /** An outdated answer comes from the entry that the call read. */
  lemma OutdatedWasRead(cfg: Config, s: State, t: TaskId, more: seq<Event>)
    requires cfg.Valid() && Good(cfg, s) && s.busy == Some(t) && t in s.tasks && s.tasks[t].pc.AtEntry?
    requires Possible(cfg, Step(cfg, s, Move(t)), more)
    requires GotOutdated(cfg, Exec(cfg, Step(cfg, s, Move(t)), more), t)
    ensures var held := Lookup(s.threads.store, s.tasks[t].url);
      held.Some? && ServesOutdated(cfg, held.value, s.tasks[t], s.threads.log)
  {
    var task, r, held := s.tasks[t], Step(cfg, s, Move(t)), Lookup(s.threads.store, s.tasks[t].url);
    StepGood(cfg, s, Move(t));
    MoveIsLocal(cfg, s, t);
    assert After(cfg, held, r.tasks[t], r.threads.log);
    RunAfter(cfg, r, more, t, held);
    var end := Exec(cfg, r, more);
    var key := end.tasks[t].pc.answer.key;
    NotFresh(cfg, task, key, end.threads.log);
    if Vouched(task.url, task.kid, key, s.threads.log, task.now - cfg.AgeBound()) {
      VouchedGrows(task.url, task.kid, Found(key), s.threads.log, end.threads.log, task.now - cfg.AgeBound());
    }
  }

  lemma NotFresh(cfg: Config, task: Task, key: Key, log: set<KeySet>)
    requires Outdated(cfg, task, key, log)
    ensures !Vouched(task.url, task.kid, key, log, task.now)
  {
  }

  /**
   * When a task's answer can be beyond the age bound, exactly: a task about to read the
   * entry can come to return an outdated key, whatever tasks and threads do from there on,
   * if and only if the entry it reads is young enough to serve by its own account and
   * gives its kid an outdated key.
   */
  lemma TaskOutdatedExactlyWhen(cfg: Config, evs: seq<Event>, t: TaskId)
    requires cfg.Valid() && Possible(cfg, Initial, evs)
    requires t in Exec(cfg, Initial, evs).tasks && Exec(cfg, Initial, evs).tasks[t].pc.AtEntry?
    ensures var s := Exec(cfg, Initial, evs);
      var held := Lookup(s.threads.store, s.tasks[t].url);
      Enabled(cfg, s, Move(t)) &&
      (CanGetOutdated(cfg, Step(cfg, s, Move(t)), t) <==>
        held.Some? && ServesOutdated(cfg, held.value, s.tasks[t], s.threads.log))
  {
    RunGood(cfg, Initial, evs);
    EntryDecides(cfg, Exec(cfg, Initial, evs), t);
  }

  lemma EntryDecides(cfg: Config, s: State, t: TaskId)
    requires cfg.Valid() && Good(cfg, s) && t in s.tasks && s.tasks[t].pc.AtEntry?
    ensures var held := Lookup(s.threads.store, s.tasks[t].url);
      Enabled(cfg, s, Move(t)) &&
      (CanGetOutdated(cfg, Step(cfg, s, Move(t)), t) <==>
        held.Some? && ServesOutdated(cfg, held.value, s.tasks[t], s.threads.log))
  {
    var r, held := Step(cfg, s, Move(t)), Lookup(s.threads.store, s.tasks[t].url);
    if CanGetOutdated(cfg, r, t) {
      var more :| Possible(cfg, r, more) && GotOutdated(cfg, Exec(cfg, r, more), t);
      OutdatedWasRead(cfg, s, t, more);
    }
    if held.Some? && ServesOutdated(cfg, held.value, s.tasks[t], s.threads.log) {
      ReaderIsServed(cfg, s, t, held.value);
    }
  }

  /** One more event of a run from the start. */
  lemma Then(cfg: Config, evs: seq<Event>, ev: Event) returns (r: seq<Event>)
    requires Possible(cfg, Initial, evs) && Enabled(cfg, Exec(cfg, Initial, evs), ev)
    ensures Possible(cfg, Initial, r) && Exec(cfg, Initial, r) == Step(cfg, Exec(cfg, Initial, evs), ev)
  {
    r := evs + [ev];
    assert r[..|r| - 1] == evs;
  }

  /** A task about to read the entry of a call just made, which no stamp rejects. */
  lemma Reads(cfg: Config, evs: seq<Event>, t: TaskId, url: Url, kid: Kid) returns (r: seq<Event>)
    requires Possible(cfg, Initial, evs)
    requires var s := Exec(cfg, Initial, evs);
      s.busy.None? && t !in s.tasks && MissedAt(s.threads.store, url, kid).None?
    ensures Possible(cfg, Initial, r)
    ensures var s, end := Exec(cfg, Initial, evs), Exec(cfg, Initial, r);
      end.threads == s.threads && t in end.tasks && end.tasks[t] == Task(url, kid, s.threads.clock, AtEntry)
  {
    r := Then(cfg, evs, Call(t, url, kid));
    r := Then(cfg, r, Move(t));
  }

  /**
   * Beside threads the tasks' bound does fail: for every `later` beyond it there is a run
   * in which a task that starts at `later` is about to read an entry that a thread has
   * stored as new, and can be answered with a key that only a fetch at time zero returned.
   */
  lemma TaskCanBeMisled(cfg: Config, url: Url, kid: Kid, body: map<Kid, Key>, rotated: map<Kid, Key>, later: real)
    returns (evs: seq<Event>)
    requires cfg.Valid() && kid in body && kid !in rotated && rotated != map[] && later > cfg.AgeBound()
    requires cfg.ServeLimit() >= 0.0
    ensures Possible(cfg, Initial, evs)
    ensures var s := Exec(cfg, Initial, evs);
      && 0 in s.tasks && s.tasks[0] == Task(url, kid, later, AtEntry)
      && CanGetOutdated(cfg, Step(cfg, s, Move(0)), 0)
  {
    var own := SyncScenes.FollowersCanServeKeysOfAnyAge(cfg, url, kid, body, rotated, later);
    LiftedRuns(cfg, Initial, own);
    evs := Reads(cfg, Lifted(own), 0, url, kid);
    TaskOutdatedExactlyWhen(cfg, evs, 0);
  }
}
