/**
 * Tasks and threads on one cache, interleaved at every lock section of either.
 *
 * The threads are those of `SyncFetch`, whose clock, entries, negative cache and record of
 * fetches all share.  A task goes through the same lock sections as a thread, but the
 * event loop runs one task at a time between awaits: `busy` is the task in the middle of
 * such a stretch.  Threads may act at any point of it.
 *
 * Two things are proved: what tasks keep beside threads, and that tasks do to threads only
 * what `SyncFetch` provides for as its environment, so that what is proved there about all
 * reachable states, and all continuations, holds beside tasks too.
 */
module SharedCache {
  import opened Wrappers
  import opened JwksStore
  import Threads = SyncFetch

  type TaskId = nat

  datatype Pc =
    | AtNegative                            // about to read the negative cache
    | AtEntry                               // about to read (and touch) the entry
    | AtJoin(need: Need)                    // about to look for a fetch in flight
    | Leading(need: Need)                   // awaiting its own HTTP fetch
    | Following(need: Need, leader: TaskId) // awaiting the shielded future of `leader`
    | AtPop(need: Need, outcome: Outcome, cancelled: bool)  // leader, about to unregister its future
    | AtSet(need: Need, outcome: Outcome, cancelled: bool)  // leader, about to resolve it
    | AtStore(keys: KeySet)                 // about to store a key set under its own `now`
    | AtStamp                               // about to record the kid as missing
    | Finished(answer: Answer)
    | Cancelled

  datatype Task = Task(url: Url, kid: Kid, now: real, pc: Pc)

  datatype Future = Pending | Done(outcome: Outcome)

  /** `inflight` is `_inflight_async`; a task leads at most one fetch, so its future bears its name. */
  datatype State = State(
    threads: Threads.State,
    tasks: map<TaskId, Task>,
    inflight: map<Url, TaskId>,
    futures: map<TaskId, Future>,
    busy: Option<TaskId>)

  const Initial: State := State(Threads.Initial, map[], map[], map[], None)

  datatype Event =
    | Thread(ev: Threads.Event)
    | Call(id: TaskId, url: Url, kid: Kid)
    | Move(id: TaskId)
    | HttpEnd(id: TaskId, body: Body)
    | Cancel(id: TaskId)
    | Resume(id: TaskId)

  /** Between two awaits. */
  predicate MidStretch(pc: Pc) {
    pc.AtNegative? || pc.AtEntry? || pc.AtJoin? || pc.AtPop? || pc.AtSet? || pc.AtStore? || pc.AtStamp?
  }

  predicate Resolved(s: State, l: TaskId) {
    l in s.futures && s.futures[l].Done?
  }

  predicate Enabled(cfg: Config, s: State, ev: Event) {
    match ev
    case Thread(e) => Threads.IsOwn(e) && Threads.Enabled(cfg, s.threads, e)
    case Call(t, _, _) => s.busy.None? && t !in s.tasks
    case Move(t) => s.busy == Some(t) && t in s.tasks && MidStretch(s.tasks[t].pc)
    case HttpEnd(t, body) => s.busy.None? && t in s.tasks && s.tasks[t].pc.Leading? && Parsed(body)
    case Cancel(t) => s.busy.None? && t in s.tasks && (s.tasks[t].pc.Leading? || s.tasks[t].pc.Following?)
    case Resume(t) =>
      s.busy.None? && t in s.tasks && s.tasks[t].pc.Following? && Resolved(s, s.tasks[t].pc.leader)
  }

  function SetPc(s: State, t: TaskId, pc: Pc): (r: State)
    requires t in s.tasks
  {
    s.(tasks := s.tasks[t := s.tasks[t].(pc := pc)], busy := if MidStretch(pc) then Some(t) else None)
  }

  function WithStore(s: State, store: Store): (r: State) {
    s.(threads := s.threads.(store := store))
  }

  function AfterOpen(opening: Opening): (r: Pc) {
    match opening
    case Serve(key) => Finished(Found(key))
    case Fetch(need) => AtJoin(need)
  }

  /** The fetch, or the shared future, gave `o`. */
  function AfterOutcome(cfg: Config, need: Need, o: Outcome, kid: Kid, now: real): (r: Pc) {
    match o
    case Fetched(keys) => AtStore(keys)
    case Failed =>
      match Threads.AfterFailure(cfg, need, kid, now)
      case Finished(answer) => Finished(answer)
      case _ => AtStamp
  }

  /** Where a task in the middle of a stretch gets by its next step. */
  function NextPc(cfg: Config, s: State, t: TaskId): (r: Pc)
    requires Enabled(cfg, s, Move(t))
  {
    var Task(url, kid, now, pc) := s.tasks[t];
    match pc
    case AtNegative => if Rejects(cfg, s.threads.store, url, kid, now) then Finished(NegativeCached) else AtEntry
    case AtEntry => AfterOpen(Open(cfg, Lookup(s.threads.store, url), kid, now))
    case AtJoin(need) => if url in s.inflight then Following(need, s.inflight[url]) else Leading(need)
    case AtPop(need, o, cancelled) => AtSet(need, o, cancelled)
    case AtSet(need, o, cancelled) => if cancelled then Cancelled else AfterOutcome(cfg, need, o, kid, now)
    case AtStore(keys) => if kid in keys.byKid then Finished(Found(keys.byKid[kid])) else AtStamp
    case AtStamp => Finished(UnknownKid)
  }

  /** What the step does to what tasks share. */
  function Effects(cfg: Config, s: State, t: TaskId): (r: State)
    requires Enabled(cfg, s, Move(t))
    ensures r.tasks == s.tasks && r.threads == s.threads.(store := r.threads.store)
  {
    var Task(url, kid, now, pc) := s.tasks[t];
    var store := s.threads.store;
    match pc
    case AtEntry => WithStore(s, Touch(store, url))
    case AtJoin(_) =>
      if url in s.inflight then s else s.(inflight := s.inflight[url := t], futures := s.futures[t := Pending])
    case AtPop(_, _, _) =>
      if url in s.inflight && s.inflight[url] == t then s.(inflight := s.inflight - {url}) else s
    case AtSet(_, o, _) => if Resolved(s, t) then s else s.(futures := s.futures[t := Done(o)])
    case AtStore(keys) => WithStore(s, Put(store, url, Entry(keys, now), cfg.maxUrls))
    case AtStamp => WithStore(s, Stamp(store, url, kid, now))
    case _ => s
  }

  function MoveTask(cfg: Config, s: State, t: TaskId): (r: State)
    requires Enabled(cfg, s, Move(t))
  {
    SetPc(Effects(cfg, s, t), t, NextPc(cfg, s, t))
  }

  function HttpOutcome(s: State, t: TaskId, body: Body): (r: Outcome)
    requires t in s.tasks
  {
    if body.None? then Failed else Fetched(KeySet(body.value, s.tasks[t].url, s.threads.clock))
  }

  function EndHttp(s: State, t: TaskId, body: Body): (r: State)
    requires t in s.tasks && s.tasks[t].pc.Leading?
  {
    var o := HttpOutcome(s, t, body);
    var log := if o.Fetched? then s.threads.log + {o.keys} else s.threads.log;
    SetPc(s.(threads := s.threads.(log := log)), t, AtPop(s.tasks[t].pc.need, o, false))
  }

  function Step(cfg: Config, s: State, ev: Event): (r: State) {
    if !Enabled(cfg, s, ev) then s
    else
      match ev
      case Thread(e) => s.(threads := Threads.Step(cfg, s.threads, e))
      case Call(t, url, kid) =>
        s.(tasks := s.tasks[t := Task(url, kid, s.threads.clock, AtNegative)], busy := Some(t))
      case Move(t) => MoveTask(cfg, s, t)
      case HttpEnd(t, body) => EndHttp(s, t, body)
      case Cancel(t) =>
        var pc := s.tasks[t].pc;
        SetPc(s, t, if pc.Leading? then AtPop(pc.need, Failed, true) else Cancelled)
      case Resume(t) =>
        var Task(_, kid, now, pc) := s.tasks[t];
        SetPc(s, t, AfterOutcome(cfg, pc.need, s.futures[pc.leader].outcome, kid, now))
  }

  function Exec(cfg: Config, s: State, evs: seq<Event>): (r: State) {
    if evs == [] then s else Step(cfg, Exec(cfg, s, evs[..|evs| - 1]), evs[|evs| - 1])
  }

  predicate Possible(cfg: Config, s: State, evs: seq<Event>) {
    evs == [] ||
    (Possible(cfg, s, evs[..|evs| - 1]) && Enabled(cfg, Exec(cfg, s, evs[..|evs| - 1]), evs[|evs| - 1]))
  }

  /** A continuation of the state after a first event is one of the state before it. */
  lemma {:induction false} ExecCons(cfg: Config, s: State, ev: Event, more: seq<Event>)
    requires Enabled(cfg, s, ev) && Possible(cfg, Step(cfg, s, ev), more)
    ensures Possible(cfg, s, [ev] + more) && Exec(cfg, s, [ev] + more) == Exec(cfg, Step(cfg, s, ev), more)
  {
    var all := [ev] + more;
    if more == [] {
      assert all[..|all| - 1] == [];
      assert Exec(cfg, s, all) == Step(cfg, Exec(cfg, s, []), ev);
    } else {
      assert all[..|all| - 1] == [ev] + more[..|more| - 1];
      ExecCons(cfg, s, ev, more[..|more| - 1]);
    }
  }

  /** Steps of threads as steps of the whole. */
  function Lifted(evs: seq<Threads.Event>): (r: seq<Event>) {
    if evs == [] then [] else Lifted(evs[..|evs| - 1]) + [Thread(evs[|evs| - 1])]
  }

  /** What threads can do among themselves they can do beside tasks. */
  lemma {:induction false} LiftedRuns(cfg: Config, s: State, evs: seq<Threads.Event>)
    requires Threads.Possible(cfg, s.threads, evs) && forall ev :: ev in evs ==> Threads.IsOwn(ev)
    ensures Possible(cfg, s, Lifted(evs))
    ensures Exec(cfg, s, Lifted(evs)) == s.(threads := Threads.Exec(cfg, s.threads, evs))
  {
    if evs != [] {
      var before, last := evs[..|evs| - 1], evs[|evs| - 1];
      LiftedRuns(cfg, s, before);
      assert last in evs;
      var all := Lifted(evs);
      assert all[..|all| - 1] == Lifted(before) && all[|all| - 1] == Thread(last);
    }
  }

  // ---------------------------------------------------------------------------
  // Single flight
  // ---------------------------------------------------------------------------

  /** From registering the future to unregistering it; the HTTP fetch is inside. */
  predicate Leads(pc: Pc) {
    pc.Leading? || pc.AtPop?
  }

  /** The task's future is yet to be resolved. */
  predicate Owes(pc: Pc) {
    Leads(pc) || pc.AtSet?
  }

  /** The task has not come to lead a fetch. */
  predicate NotLed(pc: Pc) {
    pc.AtNegative? || pc.AtEntry? || pc.AtJoin? || pc.Following?
  }

  ghost predicate Flights(s: State) {
    && (forall u :: u in s.inflight ==>
         s.inflight[u] in s.tasks && s.tasks[s.inflight[u]].url == u && Leads(s.tasks[s.inflight[u]].pc))
    && (forall t :: t in s.tasks ==> Attached(s, t, s.tasks[t]))
    && (forall t :: t in s.futures ==> t in s.tasks)
  }

  ghost predicate Attached(s: State, t: TaskId, task: Task) {
    && (Leads(task.pc) ==> task.url in s.inflight && s.inflight[task.url] == t)
    && (Owes(task.pc) ==> t in s.futures && s.futures[t].Pending?)
    && (NotLed(task.pc) ==> t !in s.futures)
    && (task.pc.Following? ==> Owed(s, task.pc.leader, task.url))
  }

  /** The future of `l` is resolved, or `l` is a task on the URL that is bound to resolve it. */
  ghost predicate Owed(s: State, l: TaskId, url: Url) {
    l in s.tasks && s.tasks[l].url == url && l in s.futures && (s.futures[l].Pending? ==> Owes(s.tasks[l].pc))
  }

  /** `busy` names exactly the task in the middle of a stretch. */
  ghost predicate OneAtATime(s: State) {
    && (s.busy.Some? ==> s.busy.value in s.tasks && MidStretch(s.tasks[s.busy.value].pc))
    && (forall t :: t in s.tasks && MidStretch(s.tasks[t].pc) ==> s.busy == Some(t))
  }

  /** A step of task `t`: nothing about the other tasks changes but that `t`'s flight may begin or end. */
  lemma OthersStayAttached(s: State, r: State, t: TaskId)
    requires Flights(s) && t in r.tasks && r.tasks == s.tasks[t := r.tasks[t]]
    requires t in s.tasks ==> r.tasks[t].url == s.tasks[t].url
    requires r.futures == s.futures ||
      (t in s.tasks && t in r.futures && r.futures == s.futures[t := r.futures[t]] &&
       (r.futures[t].Pending? ==> t !in s.futures))
    requires t in s.tasks && Owes(s.tasks[t].pc) ==> Owes(r.tasks[t].pc) || Resolved(r, t)
    requires r.inflight == s.inflight ||
      (t in s.tasks && Leads(s.tasks[t].pc) && r.inflight == s.inflight - {s.tasks[t].url}) ||
      (t in s.tasks && s.tasks[t].url !in s.inflight && r.inflight == s.inflight[s.tasks[t].url := t])
    ensures forall x :: x in s.tasks && x != t ==> Attached(r, x, r.tasks[x])
  {
    forall x | x in s.tasks && x != t ensures Attached(r, x, r.tasks[x]) {
      assert Attached(s, x, s.tasks[x]);
      if t in s.tasks { assert Attached(s, t, s.tasks[t]); }
    }
  }

  /** How many more steps the stretch of a task can take. */
  function Left(pc: Pc): (n: nat) {
    match pc
    case AtPop(_, _, _) => 4
    case AtSet(_, _, _) => 3
    case AtNegative => 3
    case AtStore(_) => 2
    case AtEntry => 2
    case AtStamp => 1
    case AtJoin(_) => 1
    case _ => 0
  }

  lemma StretchesEnd(cfg: Config, s: State, t: TaskId)
    requires Enabled(cfg, s, Move(t))
    ensures var r := MoveTask(cfg, s, t); t in r.tasks && Left(r.tasks[t].pc) < Left(s.tasks[t].pc)
  {
  }

  /** A task's step moves that task alone, and keeps what it was called with. */
  lemma MoveIsLocal(cfg: Config, s: State, t: TaskId)
    requires Enabled(cfg, s, Move(t))
    ensures var r := MoveTask(cfg, s, t);
      && t in r.tasks && r.tasks == s.tasks[t := s.tasks[t].(pc := r.tasks[t].pc)]
      && r.busy == (if MidStretch(r.tasks[t].pc) then Some(t) else None)
      && r.threads == s.threads.(store := r.threads.store)
  {
  }

  /** The steps that read or write the map of fetches in flight, or resolve a future. */
  predicate Coordinates(pc: Pc) {
    pc.AtJoin? || pc.AtPop? || pc.AtSet?
  }

  lemma CoordinatingMoveFlights(cfg: Config, s: State, t: TaskId)
    requires Flights(s) && Enabled(cfg, s, Move(t)) && Coordinates(s.tasks[t].pc)
    ensures Flights(MoveTask(cfg, s, t))
  {
    var r := MoveTask(cfg, s, t);
    MoveIsLocal(cfg, s, t);
    assert Attached(s, t, s.tasks[t]);
    OthersStayAttached(s, r, t);
    assert Attached(r, t, r.tasks[t]);
  }

  lemma PrivateMove(cfg: Config, s: State, t: TaskId)
    requires Enabled(cfg, s, Move(t)) && !Coordinates(s.tasks[t].pc)
    ensures var r := MoveTask(cfg, s, t);
      && r.inflight == s.inflight && r.futures == s.futures
      && t in r.tasks && !Owes(s.tasks[t].pc) && !Owes(r.tasks[t].pc) && !r.tasks[t].pc.Following?
      && (NotLed(r.tasks[t].pc) ==> NotLed(s.tasks[t].pc))
  {
  }

  lemma MoveFlights(cfg: Config, s: State, t: TaskId)
    requires Flights(s) && Enabled(cfg, s, Move(t))
    ensures Flights(MoveTask(cfg, s, t))
  {
    if Coordinates(s.tasks[t].pc) {
      CoordinatingMoveFlights(cfg, s, t);
    } else {
      MoveIsLocal(cfg, s, t);
      PrivateMove(cfg, s, t);
      assert Attached(s, t, s.tasks[t]);
      OthersStayAttached(s, MoveTask(cfg, s, t), t);
    }
  }

  /** An await ends: a fetch, a wait, or either by cancellation. */
  lemma AwaitEnds(cfg: Config, s: State, ev: Event)
    requires Flights(s) && Enabled(cfg, s, ev) && (ev.HttpEnd? || ev.Cancel? || ev.Resume?)
    ensures var r := Step(cfg, s, ev);
      && r.inflight == s.inflight && r.futures == s.futures
      && ev.id in r.tasks && r.tasks == s.tasks[ev.id := s.tasks[ev.id].(pc := r.tasks[ev.id].pc)]
      && (Owes(s.tasks[ev.id].pc) <==> Owes(r.tasks[ev.id].pc))
      && (Leads(s.tasks[ev.id].pc) <==> Leads(r.tasks[ev.id].pc)) && !NotLed(r.tasks[ev.id].pc)
  {
  }

  lemma AwaitEndFlights(cfg: Config, s: State, ev: Event)
    requires Flights(s) && Enabled(cfg, s, ev) && (ev.HttpEnd? || ev.Cancel? || ev.Resume?)
    ensures Flights(Step(cfg, s, ev))
  {
    var r := Step(cfg, s, ev);
    AwaitEnds(cfg, s, ev);
    assert Attached(s, ev.id, s.tasks[ev.id]);
    assert Attached(r, ev.id, r.tasks[ev.id]);
    OthersStayAttached(s, r, ev.id);
  }

  lemma StepFlights(cfg: Config, s: State, ev: Event)
    requires Flights(s) && Enabled(cfg, s, ev)
    ensures Flights(Step(cfg, s, ev))
  {
    var r := Step(cfg, s, ev);
    match ev
    case Thread(_) => assert forall x :: x in s.tasks ==> Attached(s, x, s.tasks[x]) && Attached(r, x, s.tasks[x]);
    case Move(t) => MoveFlights(cfg, s, t);
    case Call(t, _, _) => OthersStayAttached(s, r, t);
    case _ => AwaitEndFlights(cfg, s, ev);
  }

  lemma StepOneAtATime(cfg: Config, s: State, ev: Event)
    requires OneAtATime(s) && Enabled(cfg, s, ev)
    ensures OneAtATime(Step(cfg, s, ev))
  {
    if ev.Move? { MoveIsLocal(cfg, s, ev.id); }
  }

  // ---------------------------------------------------------------------------
  // Where keys come from
  // ---------------------------------------------------------------------------

  ghost predicate GenuineAnswer(url: Url, kid: Kid, answer: Answer, log: set<KeySet>) {
    answer.Found? ==> Threads.Genuine(url, kid, answer.key, log)
  }

  /** If the fetch returned keys, they are the URL's, fetched at `now` or later. */
  predicate SoundOutcome(url: Url, now: real, o: Outcome, log: set<KeySet>) {
    o.Fetched? ==> FetchedBy(url, o.keys, log) && o.keys.completed >= now
  }

  /** How the fetch of `l` has ended, if it has. */
  function OutcomeOf(s: State, l: TaskId): (r: Option<Outcome>) {
    if Resolved(s, l) then Some(s.futures[l].outcome)
    else if l in s.tasks && (s.tasks[l].pc.AtPop? || s.tasks[l].pc.AtSet?) then Some(s.tasks[l].pc.outcome)
    else None
  }

  ghost predicate GenuineTask(s: State, task: Task) {
    var Task(url, kid, now, pc) := task;
    var log := s.threads.log;
    && now <= s.threads.clock
    && match pc
       case AtJoin(need) => Threads.GenuineNeed(url, need, log)
       case Leading(need) => Threads.GenuineNeed(url, need, log)
       case Following(need, l) =>
         && Threads.GenuineNeed(url, need, log)
         && (OutcomeOf(s, l).Some? ==> SoundOutcome(url, now, OutcomeOf(s, l).value, log))
       case AtPop(need, o, cancelled) =>
         Threads.GenuineNeed(url, need, log) && SoundOutcome(url, now, o, log) && (cancelled ==> o.Failed?)
       case AtSet(need, o, cancelled) =>
         Threads.GenuineNeed(url, need, log) && SoundOutcome(url, now, o, log) && (cancelled ==> o.Failed?)
       case AtStore(keys) => SoundOutcome(url, now, Fetched(keys), log)
       case Finished(answer) => GenuineAnswer(url, kid, answer, log)
       case _ => true
  }

  ghost predicate GenuineTasks(s: State) {
    forall t :: t in s.tasks ==> GenuineTask(s, s.tasks[t])
  }

  /** What every reachable state satisfies. */
  ghost predicate Good(cfg: Config, s: State) {
    Threads.Provenance(cfg, s.threads) && Flights(s) && OneAtATime(s) && GenuineTasks(s)
  }

  lemma GenuineAnswerGrows(url: Url, kid: Kid, answer: Answer, log: set<KeySet>, more: set<KeySet>)
    requires GenuineAnswer(url, kid, answer, log) && log <= more
    ensures GenuineAnswer(url, kid, answer, more)
  {
    if answer.Found? {
      var ks :| FetchedBy(url, ks, log) && kid in ks.byKid && ks.byKid[kid] == answer.key;
      assert FetchedBy(url, ks, more);
    }
  }

  /** A task that does not move stays genuine while what it waits for is as before, or soundly ended. */
  lemma GenuineTaskKept(s: State, r: State, task: Task)
    requires GenuineTask(s, task) && s.threads.clock <= r.threads.clock && s.threads.log <= r.threads.log
    requires task.pc.Following? ==>
      var before, after := OutcomeOf(s, task.pc.leader), OutcomeOf(r, task.pc.leader);
      after == before || (after.Some? && SoundOutcome(task.url, task.now, after.value, r.threads.log))
    ensures GenuineTask(r, task)
  {
    if task.pc.Finished? { GenuineAnswerGrows(task.url, task.kid, task.pc.answer, s.threads.log, r.threads.log); }
  }

  /** Only the end of its fetch gives a flight an outcome, and then for good. */
  lemma OutcomesKept(cfg: Config, s: State, ev: Event, l: TaskId)
    requires Flights(s) && Enabled(cfg, s, ev)
    requires !((ev.HttpEnd? || ev.Cancel?) && ev.id == l && s.tasks[l].pc.Leading?)
    ensures OutcomeOf(Step(cfg, s, ev), l) == OutcomeOf(s, l)
  {
    if l in s.tasks { assert Attached(s, l, s.tasks[l]); }
    if ev.Move? { MoveKeepsOutcome(cfg, s, ev.id, l); }
  }

  lemma MoveKeepsOutcome(cfg: Config, s: State, t: TaskId, l: TaskId)
    requires Flights(s) && Enabled(cfg, s, Move(t))
    ensures OutcomeOf(MoveTask(cfg, s, t), l) == OutcomeOf(s, l)
  {
    assert Attached(s, t, s.tasks[t]);
    MoveIsLocal(cfg, s, t);
  }

  /** Time and log grow, and no step changes another task. */
  lemma StepGrows(cfg: Config, s: State, ev: Event)
    requires Enabled(cfg, s, ev)
    ensures var r := Step(cfg, s, ev);
      && s.threads.clock <= r.threads.clock && s.threads.log <= r.threads.log
      && (forall x :: x in s.tasks && (ev.Thread? || ev.id != x) ==> x in r.tasks && r.tasks[x] == s.tasks[x])
      && (ev.Thread? ==> r == s.(threads := r.threads))
      && (!ev.Thread? ==> r.threads.threads == s.threads.threads && r.threads.clock == s.threads.clock)
  {
    match ev
    case Thread(e) => if e.Move? { Threads.MoveIsLocal(cfg, s.threads, e.id); }
    case Move(t) => MoveIsLocal(cfg, s, t);
    case _ =>
  }

  /** The tasks that do not move. */
  lemma OthersStayGenuine(cfg: Config, s: State, ev: Event, x: TaskId)
    requires Flights(s) && GenuineTasks(s) && Enabled(cfg, s, ev) && x in s.tasks && (ev.Thread? || ev.id != x)
    ensures GenuineTask(Step(cfg, s, ev), s.tasks[x])
  {
    var r, task := Step(cfg, s, ev), s.tasks[x];
    StepGrows(cfg, s, ev);
    if task.pc.Following? {
      var l := task.pc.leader;
      assert Attached(s, x, task);
      if (ev.HttpEnd? || ev.Cancel?) && ev.id == l && s.tasks[l].pc.Leading? {
        FlightEnds(cfg, s, ev, task);
      } else {
        OutcomesKept(cfg, s, ev, l);
      }
    }
    GenuineTaskKept(s, r, task);
  }

  /** What the end of a flight gives is sound for everyone who awaits it. */
  lemma FlightEnds(cfg: Config, s: State, ev: Event, task: Task)
    requires Flights(s) && Enabled(cfg, s, ev) && (ev.HttpEnd? || ev.Cancel?) && s.tasks[ev.id].pc.Leading?
    requires task.url == s.tasks[ev.id].url && task.now <= s.threads.clock
    ensures var r := Step(cfg, s, ev);
      OutcomeOf(r, ev.id).Some? && SoundOutcome(task.url, task.now, OutcomeOf(r, ev.id).value, r.threads.log)
  {
    assert Attached(s, ev.id, s.tasks[ev.id]);
  }

  lemma OutcomeIsGenuine(cfg: Config, need: Need, o: Outcome, url: Url, kid: Kid, now: real, log: set<KeySet>)
    requires Threads.GenuineNeed(url, need, log) && SoundOutcome(url, now, o, log)
    ensures var pc := AfterOutcome(cfg, need, o, kid, now);
      && (pc.AtStore? || pc.AtStamp? || pc.Finished?)
      && (pc.AtStore? ==> SoundOutcome(url, now, Fetched(pc.keys), log))
      && (pc.Finished? ==> GenuineAnswer(url, kid, pc.answer, log))
  {
    if need.Refresh? && need.held.Some? { assert FetchedBy(url, need.held.value.keys, log); }
  }

  /** The task in the middle of a stretch. */
  lemma MoverStaysGenuine(cfg: Config, s: State, t: TaskId)
    requires Threads.Provenance(cfg, s.threads) && Flights(s) && GenuineTasks(s) && OneAtATime(s)
    requires Enabled(cfg, s, Move(t))
    ensures var r := MoveTask(cfg, s, t); t in r.tasks && GenuineTask(r, r.tasks[t])
  {
    var Task(url, kid, now, pc) := s.tasks[t];
    var store, log := s.threads.store, s.threads.log;
    MoveIsLocal(cfg, s, t);
    assert GenuineTask(s, s.tasks[t]);
    match pc
    case AtEntry => if url in store.entries { assert FetchedBy(url, store.entries[url].keys, log); }
    case AtJoin(_) => JoinerIsGenuine(cfg, s, t);
    case AtSet(need, o, _) => OutcomeIsGenuine(cfg, need, o, url, kid, now, log);
    case AtStore(keys) => assert FetchedBy(url, keys, log);
    case _ =>
  }

  /** Who joins a flight finds it under way: its leader is not in the middle of a stretch. */
  lemma JoinerIsGenuine(cfg: Config, s: State, t: TaskId)
    requires Flights(s) && GenuineTasks(s) && OneAtATime(s) && Enabled(cfg, s, Move(t)) && s.tasks[t].pc.AtJoin?
    ensures var r := MoveTask(cfg, s, t); t in r.tasks && GenuineTask(r, r.tasks[t])
  {
    var url := s.tasks[t].url;
    assert GenuineTask(s, s.tasks[t]);
    if url in s.inflight {
      var l := s.inflight[url];
      assert Attached(s, l, s.tasks[l]);
      assert s.tasks[l].pc.Leading?;
    }
  }

  lemma ActorStaysGenuine(cfg: Config, s: State, ev: Event)
    requires Good(cfg, s) && Enabled(cfg, s, ev) && !ev.Thread?
    ensures var r := Step(cfg, s, ev); ev.id in r.tasks && GenuineTask(r, r.tasks[ev.id])
  {
    if ev.Call? { return; }
    assert GenuineTask(s, s.tasks[ev.id]);
    match ev
    case Move(t) => MoverStaysGenuine(cfg, s, t);
    case HttpEnd(t, body) =>
      var r, o := Step(cfg, s, ev), HttpOutcome(s, t, body);
      if o.Fetched? { assert FetchedBy(s.tasks[t].url, o.keys, r.threads.log); }
    case Resume(t) =>
      var Task(url, kid, now, pc) := s.tasks[t];
      OutcomeIsGenuine(cfg, pc.need, s.futures[pc.leader].outcome, url, kid, now, s.threads.log);
    case _ =>
  }

  /** What a task stores was fetched from its URL. */
  lemma MoveStoresGenuinely(cfg: Config, s: State, t: TaskId)
    requires cfg.Valid() && Good(cfg, s) && Enabled(cfg, s, Move(t))
    ensures var store := Effects(cfg, s, t).threads.store;
      store.Valid(cfg.maxUrls) && Threads.GenuineStore(store, s.threads.log)
  {
    var Task(url, kid, now, pc) := s.tasks[t];
    assert GenuineTask(s, s.tasks[t]);
    match pc
    case AtEntry => TouchKeeps(s.threads.store, url, cfg.maxUrls);
    case AtStore(keys) => PutKeeps(s.threads.store, url, Entry(keys, now), cfg.maxUrls);
    case _ =>
  }

  lemma StoreStaysGenuine(cfg: Config, s: State, ev: Event)
    requires cfg.Valid() && Good(cfg, s) && Enabled(cfg, s, ev) && !ev.Thread?
    ensures Threads.Provenance(cfg, Step(cfg, s, ev).threads)
  {
    StepGrows(cfg, s, ev);
    if ev.Move? { MoveStoresGenuinely(cfg, s, ev.id); }
    Threads.AsyncProvenance(cfg, s.threads, Step(cfg, s, ev).threads);
  }

  lemma StepGood(cfg: Config, s: State, ev: Event)
    requires cfg.Valid() && Good(cfg, s) && Enabled(cfg, s, ev)
    ensures Good(cfg, Step(cfg, s, ev))
  {
    var r := Step(cfg, s, ev);
    StepFlights(cfg, s, ev);
    StepOneAtATime(cfg, s, ev);
    StepGrows(cfg, s, ev);
    if ev.Thread? {
      Threads.StepProvenance(cfg, s.threads, ev.ev);
    } else {
      StoreStaysGenuine(cfg, s, ev);
      ActorStaysGenuine(cfg, s, ev);
    }
    forall x | x in r.tasks && (ev.Thread? || x != ev.id) ensures GenuineTask(r, r.tasks[x]) {
      TasksComeByCalls(cfg, s, ev, x);
      OthersStayGenuine(cfg, s, ev, x);
    }
  }

  lemma TasksComeByCalls(cfg: Config, s: State, ev: Event, x: TaskId)
    requires Enabled(cfg, s, ev) && x in Step(cfg, s, ev).tasks && (ev.Thread? || x != ev.id)
    ensures x in s.tasks
  {
    if ev.Move? { MoveIsLocal(cfg, s, ev.id); }
  }

  lemma {:induction false} RunGood(cfg: Config, s: State, evs: seq<Event>)
    requires cfg.Valid() && Good(cfg, s) && Possible(cfg, s, evs)
    ensures Good(cfg, Exec(cfg, s, evs))
  {
    if evs != [] {
      RunGood(cfg, s, evs[..|evs| - 1]);
      StepGood(cfg, Exec(cfg, s, evs[..|evs| - 1]), evs[|evs| - 1]);
    }
  }

  /**
   * On a shared cache, in every interleaving of the lock sections of tasks and threads,
   * every answer of a task and every answer of a thread is its kid's key in what a
   * successful fetch of its URL returned, and so is every cached entry.
   */
  lemma OnlyGenuineAnswers(cfg: Config, evs: seq<Event>, t: TaskId, x: Threads.ThreadId)
    requires cfg.Valid() && Possible(cfg, Initial, evs)
    ensures var s := Exec(cfg, Initial, evs);
      && Threads.GenuineStore(s.threads.store, s.threads.log) && |s.threads.store.order| <= cfg.maxUrls
      && (t in s.tasks && s.tasks[t].pc.Finished? ==>
           GenuineAnswer(s.tasks[t].url, s.tasks[t].kid, s.tasks[t].pc.answer, s.threads.log))
      && (x in s.threads.threads && s.threads.threads[x].pc.Finished? ==>
           GenuineAnswer(s.threads.threads[x].url, s.threads.threads[x].kid, s.threads.threads[x].pc.answer,
             s.threads.log))
  {
    RunGood(cfg, Initial, evs);
    GoodAnswers(cfg, Exec(cfg, Initial, evs), t, x);
  }

  lemma GoodAnswers(cfg: Config, s: State, t: TaskId, x: Threads.ThreadId)
    requires Good(cfg, s)
    ensures t in s.tasks && s.tasks[t].pc.Finished? ==>
      GenuineAnswer(s.tasks[t].url, s.tasks[t].kid, s.tasks[t].pc.answer, s.threads.log)
    ensures x in s.threads.threads && s.threads.threads[x].pc.Finished? ==>
      GenuineAnswer(s.threads.threads[x].url, s.threads.threads[x].kid, s.threads.threads[x].pc.answer, s.threads.log)
  {
    if t in s.tasks { assert GenuineTask(s, s.tasks[t]); }
    if x in s.threads.threads {
      var thread := s.threads.threads[x];
      assert Threads.GenuinePc(thread.url, thread.kid, thread.pc, s.threads.log);
    }
  }

  /** Beside threads, too, at most one task is inside the HTTP fetch of a URL, and its own future is registered. */
  lemma TasksShareFlights(cfg: Config, evs: seq<Event>, a: TaskId, b: TaskId)
    requires cfg.Valid() && Possible(cfg, Initial, evs)
    requires var s := Exec(cfg, Initial, evs);
      a in s.tasks && b in s.tasks && Leads(s.tasks[a].pc) && Leads(s.tasks[b].pc) && s.tasks[a].url == s.tasks[b].url
    ensures var s := Exec(cfg, Initial, evs);
      a == b && s.tasks[a].url in s.inflight && s.inflight[s.tasks[a].url] == a &&
      a in s.futures && s.futures[a].Pending?
  {
    RunGood(cfg, Initial, evs);
    var s := Exec(cfg, Initial, evs);
    assert Attached(s, a, s.tasks[a]) && Attached(s, b, s.tasks[b]);
  }

  /** The entries of `r` are those of `s`, or soundly dated. */
  ghost predicate StoresSoundly(s: Store, r: Store, log: set<KeySet>) {
    forall u :: u in r.entries ==>
      (u in s.entries && r.entries[u] == s.entries[u]) || SoundEntry(u, r.entries[u], log)
  }

  lemma StepStoresSoundly(cfg: Config, s: State, ev: Event)
    requires cfg.Valid() && Good(cfg, s) && Enabled(cfg, s, ev) && !ev.Thread?
    ensures StoresSoundly(s.threads.store, Step(cfg, s, ev).threads.store, s.threads.log)
  {
    if ev.Move? {
      var Task(url, _, now, pc) := s.tasks[ev.id];
      assert GenuineTask(s, s.tasks[ev.id]);
      TouchKeeps(s.threads.store, url, cfg.maxUrls);
      if pc.AtStore? { PutKeeps(s.threads.store, url, Entry(pc.keys, now), cfg.maxUrls); }
    }
  }

  /**
   * Whatever threads have put into the cache, a task never stores an entry that claims to
   * be younger than its fetch.
   */
  lemma TasksStoreSoundly(cfg: Config, evs: seq<Event>, ev: Event)
    requires cfg.Valid() && Possible(cfg, Initial, evs)
    requires Enabled(cfg, Exec(cfg, Initial, evs), ev) && !ev.Thread?
    ensures var s := Exec(cfg, Initial, evs);
      StoresSoundly(s.threads.store, Step(cfg, s, ev).threads.store, s.threads.log)
  {
    RunGood(cfg, Initial, evs);
    StepStoresSoundly(cfg, Exec(cfg, Initial, evs), ev);
  }

  // ---------------------------------------------------------------------------
  // Tasks as the threads' environment
  // ---------------------------------------------------------------------------

  /** Some events of the thread machine lead from `s` to `r`. */
  ghost predicate Reaches(cfg: Config, s: Threads.State, r: Threads.State) {
    exists evs :: Threads.Possible(cfg, s, evs) && Threads.Exec(cfg, s, evs) == r
  }

  lemma ReachesSelf(cfg: Config, s: Threads.State)
    ensures Reaches(cfg, s, s)
  {
    assert Threads.Possible(cfg, s, []) && Threads.Exec(cfg, s, []) == s;
  }

  lemma ReachesOn(cfg: Config, s: Threads.State, m: Threads.State, ev: Threads.Event, r: Threads.State)
    requires Reaches(cfg, s, m) && Threads.Enabled(cfg, m, ev) && Threads.Step(cfg, m, ev) == r
    ensures Reaches(cfg, s, r)
  {
    var evs :| Threads.Possible(cfg, s, evs) && Threads.Exec(cfg, s, evs) == m;
    var more := evs + [ev];
    assert more[..|more| - 1] == evs;
    assert Threads.Possible(cfg, s, more) && Threads.Exec(cfg, s, more) == r;
  }

  /** The step of the threads' environment that a step of a task amounts to, if it touches what they share. */
  function AsEnvironment(s: State, ev: Event): (r: Option<Threads.Event>) {
    match ev
    case Thread(e) => Some(e)
    case HttpEnd(t, body) =>
      if t in s.tasks && body.Some? then Some(Threads.AsyncFetches(HttpOutcome(s, t, body).keys)) else None
    case Move(t) =>
      if t !in s.tasks then None
      else
        var Task(url, kid, now, pc) := s.tasks[t];
        (match pc
         case AtEntry => Some(Threads.AsyncTouches(url))
         case AtStore(keys) => Some(Threads.AsyncStores(url, Entry(keys, now)))
         case AtStamp => Some(Threads.AsyncStamps(url, kid, now))
         case _ => None)
    case _ => None
  }

  lemma StepIsEnvironment(cfg: Config, s: State, ev: Event)
    requires Good(cfg, s) && Enabled(cfg, s, ev)
    ensures var e := AsEnvironment(s, ev);
      if e.None? then Step(cfg, s, ev).threads == s.threads
      else Threads.Enabled(cfg, s.threads, e.value) && Step(cfg, s, ev).threads == Threads.Step(cfg, s.threads, e.value)
  {
    if ev.Move? { assert GenuineTask(s, s.tasks[ev.id]); }
  }

  /**
   * Threads beside tasks reach only states that the thread machine reaches, with its
   * environment, by itself: what is proved of all its reachable states, and of all
   * continuations from them, is true of threads that share their cache with tasks.
   */
  lemma {:induction false} ThreadsBesideTasks(cfg: Config, s: State, evs: seq<Event>)
    requires cfg.Valid() && Good(cfg, s) && Possible(cfg, s, evs)
    ensures Reaches(cfg, s.threads, Exec(cfg, s, evs).threads)
  {
    if evs == [] {
      ReachesSelf(cfg, s.threads);
    } else {
      var m, ev := Exec(cfg, s, evs[..|evs| - 1]), evs[|evs| - 1];
      ThreadsBesideTasks(cfg, s, evs[..|evs| - 1]);
      RunGood(cfg, s, evs[..|evs| - 1]);
      StepIsEnvironment(cfg, m, ev);
      if AsEnvironment(m, ev).Some? {
        ReachesOn(cfg, s.threads, m.threads, AsEnvironment(m, ev).value, Step(cfg, m, ev).threads);
      }
    }
  }
}
