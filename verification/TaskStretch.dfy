/**
 * The two machines for tasks are one: where no thread interferes, the lock sections that a
 * task goes through between two awaits in `SharedCache` add up to its one step in
 * `AsyncFetch`.
 */
module TaskStretch {
  import opened Wrappers
  import opened JwksStore
  import opened SharedCache
  import Coarse = AsyncFetch
  import Threads = SyncFetch

  /** The rest of the stretch that is under way. */
  function Finish(cfg: Config, s: State): (r: State)
    decreases if s.busy.Some? && s.busy.value in s.tasks then Left(s.tasks[s.busy.value].pc) else 0
  {
    if s.busy.None? || !Enabled(cfg, s, Move(s.busy.value)) then s
    else
      StretchesEnd(cfg, s, s.busy.value);
      MoveIsLocal(cfg, s, s.busy.value);
      Finish(cfg, MoveTask(cfg, s, s.busy.value))
  }

  function Fine(ev: Coarse.Event): (r: Event) {
    match ev
    case Tick(now) => Thread(Threads.Tick(now))
    case Call(t, url, kid) => Call(t, url, kid)
    case HttpEnd(t, body) => HttpEnd(t, body)
    case Cancel(t) => Cancel(t)
    case Resume(t) => Resume(t)
  }

  function FinePc(pc: Coarse.Pc): (r: Pc) {
    match pc
    case Leading(need) => Leading(need)
    case Following(need, l) => Following(need, l)
    case Finished(answer) => Finished(answer)
    case Cancelled => Cancelled
  }

  function FineTask(task: Coarse.Task): (r: Task) {
    Task(task.url, task.kid, task.now, FinePc(task.pc))
  }

  function FineFuture(f: Coarse.Future): (r: Future) {
    if f.Pending? then Pending else Done(f.outcome)
  }

  /** The state between stretches that a state of the coarse machine stands for, beside threads that do nothing. */
  function Between(c: Coarse.State, threads: Threads.State): (r: State) {
    State(threads.(clock := c.clock, store := c.store, log := c.log),
          map t | t in c.tasks :: FineTask(c.tasks[t]),
          c.inflight,
          map t | t in c.futures :: FineFuture(c.futures[t]),
          None)
  }

  /** One more step of the stretch. */
  lemma Onward(cfg: Config, s: State, t: TaskId)
    requires s.busy == Some(t) && Enabled(cfg, s, Move(t))
    ensures Finish(cfg, s) == Finish(cfg, MoveTask(cfg, s, t))
  {
  }

  lemma AtRest(cfg: Config, s: State)
    requires s.busy.None?
    ensures Finish(cfg, s) == s
  {
  }

  /** The task goes on from `pc`. */
  function At(s: State, t: TaskId, task: Task, pc: Pc): (r: State) {
    s.(tasks := s.tasks[t := task.(pc := pc)], busy := if MidStretch(pc) then Some(t) else None)
  }

  lemma FromStamp(cfg: Config, s: State, t: TaskId, task: Task)
    ensures Finish(cfg, At(s, t, task, AtStamp)) ==
      At(WithStore(s, Stamp(s.threads.store, task.url, task.kid, task.now)), t, task, Finished(UnknownKid))
  {
    var m := At(s, t, task, AtStamp);
    Onward(cfg, m, t);
    assert MoveTask(cfg, m, t) ==
      At(WithStore(s, Stamp(s.threads.store, task.url, task.kid, task.now)), t, task, Finished(UnknownKid));
  }

  lemma FromStore(cfg: Config, s: State, t: TaskId, task: Task, keys: KeySet)
    ensures var put := Put(s.threads.store, task.url, Entry(keys, task.now), cfg.maxUrls);
      var end := JwksStore.Conclude(put, task.url, task.kid, task.now, keys.byKid);
      Finish(cfg, At(s, t, task, AtStore(keys))) == At(WithStore(s, end.store), t, task, Finished(end.answer))
  {
    var m := At(s, t, task, AtStore(keys));
    var stored := WithStore(s, Put(s.threads.store, task.url, Entry(keys, task.now), cfg.maxUrls));
    Onward(cfg, m, t);
    if task.kid in keys.byKid {
      assert MoveTask(cfg, m, t) == At(stored, t, task, Finished(Found(keys.byKid[task.kid])));
    } else {
      assert MoveTask(cfg, m, t) == At(stored, t, task, AtStamp);
      FromStamp(cfg, stored, t, task);
    }
  }

  /** After its fetch, or the future it awaited, a call settles. */
  lemma FromOutcome(cfg: Config, s: State, t: TaskId, task: Task, need: Need, o: Outcome)
    ensures var end := Settle(cfg, s.threads.store, task.url, task.kid, task.now, need, o);
      Finish(cfg, At(s, t, task, AfterOutcome(cfg, need, o, task.kid, task.now))) ==
        At(WithStore(s, end.store), t, task, Finished(end.answer))
  {
    match o
    case Fetched(keys) => FromStore(cfg, s, t, task, keys);
    case Failed =>
      var pc := AfterOutcome(cfg, need, o, task.kid, task.now);
      if pc.AtStamp? { FromStamp(cfg, s, t, task); } else { AtRest(cfg, At(s, t, task, pc)); }
  }

  /** A flight that has ended: unregistered, its future resolved. */
  function Landed(s: State, t: TaskId, url: Url, o: Outcome): (r: State) {
    s.(inflight := s.inflight - {url}, futures := s.futures[t := Done(o)])
  }

  lemma FromSet(cfg: Config, s: State, t: TaskId, task: Task, need: Need, o: Outcome, cancelled: bool)
    requires !Resolved(s, t)
    ensures Finish(cfg, At(s, t, task, AtSet(need, o, cancelled))) ==
      Finish(cfg, At(s.(futures := s.futures[t := Done(o)]), t, task, AfterFlight(cfg, task, need, o, cancelled)))
  {
    var a := At(s, t, task, AtSet(need, o, cancelled));
    Onward(cfg, a, t);
    assert MoveTask(cfg, a, t) ==
      At(s.(futures := s.futures[t := Done(o)]), t, task, AfterFlight(cfg, task, need, o, cancelled));
  }

  function AfterFlight(cfg: Config, task: Task, need: Need, o: Outcome, cancelled: bool): (r: Pc) {
    if cancelled then Cancelled else AfterOutcome(cfg, need, o, task.kid, task.now)
  }

  lemma Pops(cfg: Config, s: State, t: TaskId, task: Task, need: Need, o: Outcome, cancelled: bool)
    requires task.url in s.inflight && s.inflight[task.url] == t
    ensures Finish(cfg, At(s, t, task, AtPop(need, o, cancelled))) ==
      Finish(cfg, At(s.(inflight := s.inflight - {task.url}), t, task, AtSet(need, o, cancelled)))
  {
    var a := At(s, t, task, AtPop(need, o, cancelled));
    Onward(cfg, a, t);
    assert NextPc(cfg, a, t) == AtSet(need, o, cancelled);
    assert Effects(cfg, a, t) == a.(inflight := s.inflight - {task.url});
    assert MoveTask(cfg, a, t) == At(s.(inflight := s.inflight - {task.url}), t, task, AtSet(need, o, cancelled));
  }

  lemma FromPop(cfg: Config, s: State, t: TaskId, task: Task, need: Need, o: Outcome, cancelled: bool)
    requires task.url in s.inflight && s.inflight[task.url] == t && !Resolved(s, t)
    ensures Finish(cfg, At(s, t, task, AtPop(need, o, cancelled))) ==
      Finish(cfg, At(Landed(s, t, task.url, o), t, task, AfterFlight(cfg, task, need, o, cancelled)))
  {
    Pops(cfg, s, t, task, need, o, cancelled);
    FromSet(cfg, s.(inflight := s.inflight - {task.url}), t, task, need, o, cancelled);
  }

  /** The task registers a future and leads, or follows the one there is. */
  function Joined(s: State, t: TaskId, task: Task, need: Need): (r: State) {
    if task.url in s.inflight then At(s, t, task, Following(need, s.inflight[task.url]))
    else At(s.(inflight := s.inflight[task.url := t], futures := s.futures[t := Pending]), t, task, Leading(need))
  }

  lemma FromJoin(cfg: Config, s: State, t: TaskId, task: Task, need: Need)
    ensures Finish(cfg, At(s, t, task, AtJoin(need))) == Joined(s, t, task, need)
  {
    var a := At(s, t, task, AtJoin(need));
    Onward(cfg, a, t);
    assert MoveTask(cfg, a, t) == Joined(s, t, task, need);
  }

  /** What reading the entry leads to. */
  function Read(cfg: Config, s: State, t: TaskId, task: Task): (r: State) {
    var touched := WithStore(s, Touch(s.threads.store, task.url));
    match Open(cfg, Lookup(s.threads.store, task.url), task.kid, task.now)
    case Serve(key) => At(touched, t, task, Finished(Found(key)))
    case Fetch(need) => Joined(touched, t, task, need)
  }

  lemma FromEntry(cfg: Config, s: State, t: TaskId, task: Task)
    ensures Finish(cfg, At(s, t, task, AtEntry)) == Read(cfg, s, t, task)
  {
    var a := At(s, t, task, AtEntry);
    var touched := WithStore(s, Touch(s.threads.store, task.url));
    var opening := Open(cfg, Lookup(s.threads.store, task.url), task.kid, task.now);
    Onward(cfg, a, t);
    assert MoveTask(cfg, a, t) == At(touched, t, task, AfterOpen(opening));
    if opening.Fetch? { FromJoin(cfg, touched, t, task, opening.need); }
  }

  /** The first stretch of a call, up to its first await. */
  lemma FromCall(cfg: Config, s: State, t: TaskId, task: Task)
    ensures Finish(cfg, At(s, t, task, AtNegative)) ==
      if Rejects(cfg, s.threads.store, task.url, task.kid, task.now) then At(s, t, task, Finished(NegativeCached))
      else Read(cfg, s, t, task)
  {
    var a := At(s, t, task, AtNegative);
    Onward(cfg, a, t);
    if Rejects(cfg, s.threads.store, task.url, task.kid, task.now) {
      assert MoveTask(cfg, a, t) == At(s, t, task, Finished(NegativeCached));
    } else {
      assert MoveTask(cfg, a, t) == At(s, t, task, AtEntry);
      FromEntry(cfg, s, t, task);
    }
  }

  // ---------------------------------------------------------------------------
  // Step by step
  // ---------------------------------------------------------------------------

  /** The stretch that begins with `ev`, uninterrupted, is the coarse machine's step. */
  predicate SameStep(cfg: Config, c: Coarse.State, threads: Threads.State, ev: Coarse.Event) {
    var s := Between(c, threads);
    Enabled(cfg, s, Fine(ev)) && Finish(cfg, Step(cfg, s, Fine(ev))) == Between(Coarse.Step(cfg, c, ev), threads)
  }

  /** A task that has come to rest, as the coarse machine has it. */
  lemma Rests(c: Coarse.State, threads: Threads.State, t: TaskId, task: Coarse.Task)
    ensures Between(c.(tasks := c.tasks[t := task]), threads) ==
      At(Between(c, threads), t, FineTask(task), FinePc(task.pc))
  {
    var a, b := Between(c.(tasks := c.tasks[t := task]), threads),
      At(Between(c, threads), t, FineTask(task), FinePc(task.pc));
    assert a.tasks == b.tasks;
  }

  lemma CallIsStep(cfg: Config, c: Coarse.State, threads: Threads.State, t: TaskId, url: Url, kid: Kid)
    requires t !in c.tasks
    ensures SameStep(cfg, c, threads, Coarse.Call(t, url, kid))
  {
    var s, pc := Between(c, threads), Coarse.FirstPc(cfg, c, url, kid);
    var task := Coarse.Task(url, kid, c.clock, pc);
    var store := if Rejects(cfg, c.store, url, kid, c.clock) then c.store else Touch(c.store, url);
    assert Step(cfg, s, Call(t, url, kid)) == At(s, t, FineTask(task), AtNegative);
    FromCall(cfg, s, t, FineTask(task));
    Rests(c.(store := store), threads, t, task);
    if pc.Leading? { LeadsAlike(c.(store := store, tasks := c.tasks[t := task]), threads, t, url); }
  }

  lemma LeadsAlike(c: Coarse.State, threads: Threads.State, t: TaskId, url: Url)
    ensures var s := Between(c, threads);
      Between(Coarse.Lead(c, t, url), threads) ==
        s.(inflight := s.inflight[url := t], futures := s.futures[t := Pending])
  {
    var s := Between(c, threads);
    assert Between(Coarse.Lead(c, t, url), threads).futures == s.futures[t := Pending];
  }

  lemma LandsAlike(c: Coarse.State, threads: Threads.State, t: TaskId, o: Outcome)
    requires Coarse.Flights(c) && Coarse.IsLeading(c, t)
    ensures Between(Coarse.EndFlight(c, t, o), threads) == Landed(Between(c, threads), t, c.tasks[t].url, o)
  {
    assert Coarse.Registered(c, t);
    assert Between(Coarse.EndFlight(c, t, o), threads).futures ==
      Landed(Between(c, threads), t, c.tasks[t].url, o).futures;
  }

  /** The leader's call once its flight has landed with `o`. */
  lemma LeaderSettles(cfg: Config, c: Coarse.State, threads: Threads.State, t: TaskId, o: Outcome)
    requires Coarse.Flights(c) && Coarse.IsLeading(c, t)
    ensures var task := c.tasks[t];
      var need := task.pc.need;
      Finish(cfg, At(Between(c, threads), t, FineTask(task), AtPop(need, o, false))) ==
        Between(Coarse.Conclude(cfg, Coarse.EndFlight(c, t, o), t, need, o), threads)
  {
    var task, c2 := c.tasks[t], Coarse.EndFlight(c, t, o);
    var need := task.pc.need;
    var end := Settle(cfg, c.store, task.url, task.kid, task.now, need, o);
    assert Coarse.Registered(c, t);
    FromPop(cfg, Between(c, threads), t, FineTask(task), need, o, false);
    LandsAlike(c, threads, t, o);
    FromOutcome(cfg, Between(c2, threads), t, FineTask(task), need, o);
    Rests(c2.(store := end.store), threads, t, task.(pc := Coarse.Finished(end.answer)));
  }

  lemma HttpEndIsStep(cfg: Config, c: Coarse.State, threads: Threads.State, t: TaskId, body: Body)
    requires Coarse.Flights(c) && Coarse.IsLeading(c, t) && Parsed(body)
    ensures SameStep(cfg, c, threads, Coarse.HttpEnd(t, body))
  {
    var s, task, o := Between(c, threads), c.tasks[t], Coarse.HttpOutcome(c, t, body);
    var c1 := c.(log := if o.Fetched? then c.log + {o.keys} else c.log);
    assert Step(cfg, s, HttpEnd(t, body)) == At(Between(c1, threads), t, FineTask(task), AtPop(task.pc.need, o, false));
    FlightsIgnoreLog(c, c1.log);
    LeaderSettles(cfg, c1, threads, t, o);
  }

  lemma FlightsIgnoreLog(c: Coarse.State, log: set<KeySet>)
    requires Coarse.Flights(c)
    ensures Coarse.Flights(c.(log := log))
  {
    var r := c.(log := log);
    forall t | Coarse.IsLeading(r, t) ensures Coarse.Registered(r, t) { assert Coarse.IsLeading(c, t); }
    forall t | Coarse.IsFollowing(r, t) ensures Coarse.Attached(r, t, r.tasks[t].pc.leader) {
      assert Coarse.IsFollowing(c, t);
    }
  }

  lemma ResumeIsStep(cfg: Config, c: Coarse.State, threads: Threads.State, t: TaskId)
    requires Coarse.Enabled(c, Coarse.Resume(t))
    ensures SameStep(cfg, c, threads, Coarse.Resume(t))
  {
    var s, task := Between(c, threads), c.tasks[t];
    var o := c.futures[task.pc.leader].outcome;
    var end := Settle(cfg, c.store, task.url, task.kid, task.now, task.pc.need, o);
    assert Step(cfg, s, Resume(t)) ==
      At(s, t, FineTask(task), AfterOutcome(cfg, task.pc.need, o, task.kid, task.now));
    FromOutcome(cfg, s, t, FineTask(task), task.pc.need, o);
    Rests(c.(store := end.store), threads, t, task.(pc := Coarse.Finished(end.answer)));
  }

  lemma CancelIsStep(cfg: Config, c: Coarse.State, threads: Threads.State, t: TaskId)
    requires Coarse.Flights(c) && Coarse.Enabled(c, Coarse.Cancel(t))
    ensures SameStep(cfg, c, threads, Coarse.Cancel(t))
  {
    var s, task := Between(c, threads), c.tasks[t];
    if Coarse.IsLeading(c, t) {
      var need := task.pc.need;
      assert Coarse.Registered(c, t);
      assert Step(cfg, s, Cancel(t)) == At(s, t, FineTask(task), AtPop(need, Failed, true));
      FromPop(cfg, s, t, FineTask(task), need, Failed, true);
      LandsAlike(c, threads, t, Failed);
      Rests(Coarse.EndFlight(c, t, Failed), threads, t, task.(pc := Coarse.Cancelled));
    } else {
      assert Step(cfg, s, Cancel(t)) == At(s, t, FineTask(task), Cancelled);
      Rests(c, threads, t, task.(pc := Coarse.Cancelled));
    }
  }

  /** The same events can happen. */
  lemma SameEnabled(cfg: Config, c: Coarse.State, threads: Threads.State, ev: Coarse.Event)
    ensures Enabled(cfg, Between(c, threads), Fine(ev)) <==> Coarse.Enabled(c, ev)
  {
  }

  /**
   * Every step of `AsyncFetch`, in every reachable state, is an uninterrupted stretch of
   * `SharedCache`, whatever the threads hold; and between stretches the same can happen.
   */
  lemma StretchIsStep(cfg: Config, evs: seq<Coarse.Event>, ev: Coarse.Event, threads: Threads.State)
    requires Coarse.Possible(cfg, Coarse.Initial, evs)
    ensures var c := Coarse.Exec(cfg, Coarse.Initial, evs);
      && (Enabled(cfg, Between(c, threads), Fine(ev)) <==> Coarse.Enabled(c, ev))
      && (Coarse.Enabled(c, ev) ==> SameStep(cfg, c, threads, ev))
  {
    var c := Coarse.Exec(cfg, Coarse.Initial, evs);
    Coarse.RunFlights(cfg, Coarse.Initial, evs);
    SameEnabled(cfg, c, threads, ev);
    if !Coarse.Enabled(c, ev) { return; }
    match ev
    case Tick(now) => AtRest(cfg, Step(cfg, Between(c, threads), Thread(Threads.Tick(now))));
    case Call(t, url, kid) => CallIsStep(cfg, c, threads, t, url, kid);
    case HttpEnd(t, body) => HttpEndIsStep(cfg, c, threads, t, body);
    case Cancel(t) => CancelIsStep(cfg, c, threads, t);
    case Resume(t) => ResumeIsStep(cfg, c, threads, t);
  }
}
