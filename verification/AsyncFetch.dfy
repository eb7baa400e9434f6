/**
 * `get_key_async` under every interleaving of its tasks.
 *
 * A task runs from one `await` to the next without interruption, so a step of the
 * protocol is one such stretch: the beginning of a call up to its wait, the end of a
 * leader's HTTP fetch up to the end of its call, a follower waking on the shared
 * future, a cancellation.  A task leads at most one fetch, so the future it
 * registers is identified with the task.
 */
module AsyncFetch {
  import opened Wrappers
  import opened JwksStore
  import opened JwksCache

  type TaskId = nat

  datatype Pc =
    | Leading(need: Need)                    // awaiting its own HTTP fetch
    | Following(need: Need, leader: TaskId)  // awaiting the shielded future of `leader`
    | Finished(answer: Answer)
    | Cancelled

  datatype Task = Task(url: Url, kid: Kid, now: real, pc: Pc)

  datatype Future = Pending | Done(outcome: Outcome)

  /**
   * `inflight` is `_inflight_async`.  `log`, `ended` and `started` are history: the
   * key sets successful fetches returned, how each leader's fetch ended, and the URLs
   * of all HTTP fetches ever begun.
   */
  datatype State = State(
    clock: real,
    store: Store,
    inflight: map<Url, TaskId>,
    futures: map<TaskId, Future>,
    tasks: map<TaskId, Task>,
    log: set<KeySet>,
    ended: map<TaskId, Outcome>,
    started: multiset<Url>)

  const Initial: State := State(0.0, Empty, map[], map[], map[], {}, map[], multiset{})

  datatype Event =
    | Tick(now: real)
    | Call(id: TaskId, url: Url, kid: Kid)
    | HttpEnd(id: TaskId, body: Body)  // None: the fetch raised
    | Cancel(id: TaskId)
    | Resume(id: TaskId)

  predicate IsLeading(s: State, t: TaskId) {
    t in s.tasks && s.tasks[t].pc.Leading?
  }

  predicate IsFollowing(s: State, t: TaskId) {
    t in s.tasks && s.tasks[t].pc.Following?
  }

  predicate Enabled(s: State, ev: Event) {
    match ev
    case Tick(now) => now >= s.clock
    case Call(t, _, _) => t !in s.tasks
    case HttpEnd(t, body) => IsLeading(s, t) && Parsed(body)
    case Cancel(t) => IsLeading(s, t) || IsFollowing(s, t)
    case Resume(t) =>
      && IsFollowing(s, t)
      && s.tasks[t].pc.leader in s.futures && s.futures[s.tasks[t].pc.leader].Done?
  }

  function SetPc(s: State, t: TaskId, pc: Pc): (r: State)
    requires t in s.tasks
  {
    s.(tasks := s.tasks[t := s.tasks[t].(pc := pc)])
  }

  /** A new task, with the store its first stretch leaves. */
  function Enter(s: State, store: Store, t: TaskId, task: Task): (r: State) {
    s.(store := store, tasks := s.tasks[t := task])
  }

  /** The new task registers a fresh future for its URL and starts the HTTP fetch. */
  function Lead(s: State, t: TaskId, url: Url): (r: State) {
    s.(inflight := s.inflight[url := t], futures := s.futures[t := Pending], started := s.started + multiset{url})
  }

  /** Where a call's first stretch ends: it is answered, or leads a fetch, or joins one. */
  function FirstPc(cfg: Config, s: State, url: Url, kid: Kid): (r: Pc) {
    if Rejects(cfg, s.store, url, kid, s.clock) then Finished(NegativeCached)
    else
      match Open(cfg, Lookup(s.store, url), kid, s.clock)
      case Serve(key) => Finished(Found(key))
      case Fetch(need) => if url in s.inflight then Following(need, s.inflight[url]) else Leading(need)
  }

  /** A call up to its first wait. */
  function Begin(cfg: Config, s: State, t: TaskId, url: Url, kid: Kid): (r: State) {
    var pc := FirstPc(cfg, s, url, kid);
    var store := if Rejects(cfg, s.store, url, kid, s.clock) then s.store else Touch(s.store, url);
    var entered := Enter(s, store, t, Task(url, kid, s.clock, pc));
    if pc.Leading? then Lead(entered, t, url) else entered
  }

  /** The leader unregisters its future and resolves it, each behind the source's guard. */
  function EndFlight(s: State, t: TaskId, o: Outcome): (r: State)
    requires t in s.tasks
  {
    var url := s.tasks[t].url;
    s.(inflight := if url in s.inflight && s.inflight[url] == t then s.inflight - {url} else s.inflight,
       futures := if t in s.futures && s.futures[t].Done? then s.futures else s.futures[t := Done(o)],
       ended := s.ended[t := o])
  }

  /** The rest of a call whose fetch, its own or the awaited one, ended with `o`. */
  function Conclude(cfg: Config, s: State, t: TaskId, need: Need, o: Outcome): (r: State)
    requires t in s.tasks
  {
    var task := s.tasks[t];
    var end := Settle(cfg, s.store, task.url, task.kid, task.now, need, o);
    SetPc(s.(store := end.store), t, Finished(end.answer))
  }

  function HttpOutcome(s: State, t: TaskId, body: Body): (r: Outcome)
    requires t in s.tasks
  {
    if body.None? then Failed else Fetched(KeySet(body.value, s.tasks[t].url, s.clock))
  }

  function EndHttp(cfg: Config, s: State, t: TaskId, body: Body): (r: State)
    requires IsLeading(s, t)
  {
    var o := HttpOutcome(s, t, body);
    var s1 := s.(log := if o.Fetched? then s.log + {o.keys} else s.log);
    Conclude(cfg, EndFlight(s1, t, o), t, s.tasks[t].pc.need, o)
  }

  function Step(cfg: Config, s: State, ev: Event): (r: State) {
    if !Enabled(s, ev) then s
    else
      match ev
      case Tick(now) => s.(clock := now)
      case Call(t, url, kid) => Begin(cfg, s, t, url, kid)
      case HttpEnd(t, body) => EndHttp(cfg, s, t, body)
      case Cancel(t) => if IsLeading(s, t) then SetPc(EndFlight(s, t, Failed), t, Cancelled) else SetPc(s, t, Cancelled)
      case Resume(t) =>
        var pc := s.tasks[t].pc;
        Conclude(cfg, s, t, pc.need, s.futures[pc.leader].outcome)
  }

  /** The state after the events `evs` from `s`. */
  function Exec(cfg: Config, s: State, evs: seq<Event>): (r: State) {
    if evs == [] then s else Step(cfg, Exec(cfg, s, evs[..|evs| - 1]), evs[|evs| - 1])
  }

  /** Each event of `evs` can happen when its turn comes. */
  predicate Possible(cfg: Config, s: State, evs: seq<Event>) {
    evs == [] ||
    (Possible(cfg, s, evs[..|evs| - 1]) && Enabled(Exec(cfg, s, evs[..|evs| - 1]), evs[|evs| - 1]))
  }

  // ---------------------------------------------------------------------------
  // Single flight
  // ---------------------------------------------------------------------------

  /** What is in flight: registered futures, their leaders, and who waits on them. */
  ghost predicate Flights(s: State) {
    && (forall u :: u in s.inflight ==> IsLeading(s, s.inflight[u]) && s.tasks[s.inflight[u]].url == u)
    && (forall t :: IsLeading(s, t) ==> Registered(s, t))
    && (forall t :: IsFollowing(s, t) ==> Attached(s, t, s.tasks[t].pc.leader))
    && (forall t :: t in s.futures ==> t in s.tasks)
    && (forall t :: t in s.futures && s.futures[t].Done? ==> t in s.ended && s.ended[t] == s.futures[t].outcome)
  }

  /** The leader's future is the one registered for its URL, and is not yet resolved. */
  ghost predicate Registered(s: State, t: TaskId) {
    && t in s.tasks && s.tasks[t].url in s.inflight && s.inflight[s.tasks[t].url] == t
    && t in s.futures && s.futures[t].Pending?
  }

  /** Follower `t` waits on `l`'s future, for its own URL; an unresolved one has a live leader. */
  ghost predicate Attached(s: State, t: TaskId, l: TaskId) {
    && t in s.tasks && l in s.tasks && s.tasks[l].url == s.tasks[t].url
    && l in s.futures && (s.futures[l].Pending? ==> IsLeading(s, l))
  }

  lemma EnterFlights(s: State, store: Store, t: TaskId, task: Task)
    requires Flights(s) && t !in s.tasks
    requires task.pc.Finished? ||
      (task.pc.Following? && task.url in s.inflight && task.pc.leader == s.inflight[task.url])
    ensures Flights(Enter(s, store, t, task))
  {
    var r := Enter(s, store, t, task);
    forall x | IsLeading(r, x) ensures Registered(r, x) { assert IsLeading(s, x); }
    forall x | IsFollowing(r, x) ensures Attached(r, x, r.tasks[x].pc.leader) {
      if x != t {
        assert IsFollowing(s, x);
      } else {
        assert IsLeading(s, task.pc.leader);
        assert Registered(s, task.pc.leader);
      }
    }
  }

  lemma LeadFlights(s: State, store: Store, t: TaskId, task: Task)
    requires Flights(s) && t !in s.tasks && task.pc.Leading? && task.url !in s.inflight
    ensures Flights(Lead(Enter(s, store, t, task), t, task.url))
  {
    var r := Lead(Enter(s, store, t, task), t, task.url);
    forall u | u in r.inflight ensures IsLeading(r, r.inflight[u]) && r.tasks[r.inflight[u]].url == u {
      if u != task.url { assert IsLeading(s, s.inflight[u]); }
    }
    forall x | IsLeading(r, x) ensures Registered(r, x) {
      if x != t { assert IsLeading(s, x); }
    }
    forall x | IsFollowing(r, x) ensures Attached(r, x, r.tasks[x].pc.leader) { assert IsFollowing(s, x); }
  }

  /** What the first stretch of a call amounts to. */
  lemma BeginShape(cfg: Config, s: State, t: TaskId, url: Url, kid: Kid)
    ensures var r, pc := Begin(cfg, s, t, url, kid), FirstPc(cfg, s, url, kid);
      && t in r.tasks && r.tasks[t] == Task(url, kid, s.clock, pc)
      && r == (if pc.Leading? then Lead(Enter(s, r.store, t, r.tasks[t]), t, url) else Enter(s, r.store, t, r.tasks[t]))
      && (r.store == s.store || r.store == Touch(s.store, url))
  {
  }

  /** A call leads only when nothing is in flight for its URL, and follows only what is. */
  lemma FirstPcShape(cfg: Config, s: State, url: Url, kid: Kid)
    ensures var pc := FirstPc(cfg, s, url, kid);
      && (pc.Leading? ==> url !in s.inflight)
      && (pc.Following? ==> url in s.inflight && pc.leader == s.inflight[url])
      && !pc.Cancelled?
  {
  }

  lemma BeginFlights(cfg: Config, s: State, t: TaskId, url: Url, kid: Kid)
    requires Flights(s) && t !in s.tasks
    ensures Flights(Begin(cfg, s, t, url, kid))
  {
    BeginShape(cfg, s, t, url, kid);
    FirstPcShape(cfg, s, url, kid);
    var r := Begin(cfg, s, t, url, kid);
    var store, task := r.store, r.tasks[t];
    if task.pc.Leading? {
      LeadFlights(s, store, t, task);
    } else {
      EnterFlights(s, store, t, task);
    }
  }

  /** A leader ends: its URL is free again and its future is resolved. */
  lemma EndFlightFlights(s: State, t: TaskId, o: Outcome, store: Store, pc: Pc, log: set<KeySet>)
    requires Flights(s) && IsLeading(s, t) && (pc.Finished? || pc.Cancelled?)
    ensures Flights(SetPc(EndFlight(s.(log := log), t, o).(store := store), t, pc))
  {
    var r := SetPc(EndFlight(s.(log := log), t, o).(store := store), t, pc);
    assert Registered(s, t);
    forall u | u in r.inflight ensures IsLeading(r, r.inflight[u]) && r.tasks[r.inflight[u]].url == u {
      assert IsLeading(s, s.inflight[u]);
    }
    forall x | IsLeading(r, x) ensures Registered(r, x) { assert IsLeading(s, x); }
    forall x | IsFollowing(r, x) ensures Attached(r, x, r.tasks[x].pc.leader) { assert IsFollowing(s, x); }
  }

  /** A follower ends: nothing in flight is affected. */
  lemma FollowerFlights(s: State, t: TaskId, store: Store, pc: Pc)
    requires Flights(s) && IsFollowing(s, t) && (pc.Finished? || pc.Cancelled?)
    ensures Flights(SetPc(s.(store := store), t, pc))
  {
    var r := SetPc(s.(store := store), t, pc);
    forall x | IsLeading(r, x) ensures Registered(r, x) { assert IsLeading(s, x); }
    forall x | IsFollowing(r, x) ensures Attached(r, x, r.tasks[x].pc.leader) { assert IsFollowing(s, x); }
  }

  lemma StepFlights(cfg: Config, s: State, ev: Event)
    requires Flights(s) && Enabled(s, ev)
    ensures Flights(Step(cfg, s, ev))
  {
    var r := Step(cfg, s, ev);
    match ev
    case Tick(_) =>
      assert forall x :: IsLeading(r, x) ==> IsLeading(s, x);
      assert forall x :: IsFollowing(r, x) ==> IsFollowing(s, x);
    case Call(t, url, kid) => BeginFlights(cfg, s, t, url, kid);
    case HttpEnd(t, body) =>
      var o := HttpOutcome(s, t, body);
      EndFlightFlights(s, t, o, r.store, r.tasks[t].pc, r.log);
    case Cancel(t) =>
      if IsLeading(s, t) {
        EndFlightFlights(s, t, Failed, s.store, Cancelled, s.log);
      } else {
        FollowerFlights(s, t, s.store, Cancelled);
      }
    case Resume(t) => FollowerFlights(s, t, r.store, r.tasks[t].pc);
  }

  lemma {:induction false} RunFlights(cfg: Config, s: State, evs: seq<Event>)
    requires Flights(s) && Possible(cfg, s, evs)
    ensures Flights(Exec(cfg, s, evs))
  {
    if evs != [] {
      RunFlights(cfg, s, evs[..|evs| - 1]);
      StepFlights(cfg, Exec(cfg, s, evs[..|evs| - 1]), evs[|evs| - 1]);
    }
  }

  /**
   * Single flight: in every reachable state at most one task is inside the HTTP fetch
   * of a URL, and when that task ends both guards around its clean-up hold: the
   * registered future is its own, and the future is not yet resolved.
   */
  lemma SingleFlight(cfg: Config, evs: seq<Event>, a: TaskId, b: TaskId)
    requires Possible(cfg, Initial, evs)
    requires IsLeading(Exec(cfg, Initial, evs), a) && IsLeading(Exec(cfg, Initial, evs), b)
    requires Exec(cfg, Initial, evs).tasks[a].url == Exec(cfg, Initial, evs).tasks[b].url
    ensures a == b && Registered(Exec(cfg, Initial, evs), a)
  {
    RunFlights(cfg, Initial, evs);
  }

  /** No follower is stranded: it waits on a live leader, or it can take its next step. */
  lemma NoFollowerStranded(cfg: Config, evs: seq<Event>, t: TaskId)
    requires Possible(cfg, Initial, evs) && IsFollowing(Exec(cfg, Initial, evs), t)
    ensures var s := Exec(cfg, Initial, evs);
      var l := s.tasks[t].pc.leader;
      (IsLeading(s, l) && s.tasks[l].url == s.tasks[t].url) ||
      (Enabled(s, Resume(t)) && Step(cfg, s, Resume(t)).tasks[t].pc.Finished?)
  {
    RunFlights(cfg, Initial, evs);
  }

  /** A resolved future keeps its outcome for ever, and so does the record of a leader's end. */
  lemma OutcomeIsFinal(cfg: Config, s: State, ev: Event, l: TaskId)
    requires Flights(s) && l in s.futures && s.futures[l].Done?
    ensures var r := Step(cfg, s, ev);
      && l in r.futures && r.futures[l] == s.futures[l]
      && l in r.ended && r.ended[l] == s.ended[l]
  {
    if ev.HttpEnd? && IsLeading(s, ev.id) { assert Registered(s, ev.id); }
    if ev.Cancel? && IsLeading(s, ev.id) { assert Registered(s, ev.id); }
  }

  /**
   * A follower that is not cancelled settles its call with exactly the outcome its
   * leader's fetch had: the same key set, or a failure when the leader failed or was
   * cancelled.
   */
  lemma FollowerGetsLeadersOutcome(cfg: Config, evs: seq<Event>, t: TaskId)
    requires Possible(cfg, Initial, evs) && Enabled(Exec(cfg, Initial, evs), Resume(t))
    ensures var s := Exec(cfg, Initial, evs);
      var task := s.tasks[t];
      var l := task.pc.leader;
      && l in s.ended && l in s.tasks && s.tasks[l].url == task.url
      && Step(cfg, s, Resume(t)).tasks[t].pc ==
           Finished(Settle(cfg, s.store, task.url, task.kid, task.now, task.pc.need, s.ended[l]).answer)
  {
    RunFlights(cfg, Initial, evs);
  }

  // ---------------------------------------------------------------------------
  // Age soundness
  // ---------------------------------------------------------------------------

  ghost predicate SoundTask(cfg: Config, s: State, task: Task) {
    && task.now <= s.clock
    && (task.pc.Leading? || task.pc.Following? ==> SoundNeed(task.url, task.pc.need, s.log))
    && (task.pc.Following? && task.pc.leader in s.futures ==>
         SoundFuture(s.futures[task.pc.leader], task.url, task.now, s.log))
    && (task.pc.Finished? ==>
         VouchedAnswer(task.url, task.kid, task.pc.answer, s.log, task.now - cfg.AgeBound()))
  }

  /** A future that yields keys yields keys fetched after everyone awaiting it began. */
  ghost predicate SoundFuture(f: Future, url: Url, now: real, log: set<KeySet>) {
    f.Done? && f.outcome.Fetched? ==> FetchedBy(url, f.outcome.keys, log) && f.outcome.keys.completed >= now
  }

  ghost predicate AgeSound(cfg: Config, s: State) {
    && s.store.Valid(cfg.maxUrls) && Sound(s.store, s.log)
    && (forall t :: t in s.tasks ==> SoundTask(cfg, s, s.tasks[t]))
  }

  /** A task that keeps its place stays sound when clock and log grow and futures keep sound. */
  lemma SoundTaskKept(cfg: Config, s: State, r: State, task: Task)
    requires SoundTask(cfg, s, task) && s.clock <= r.clock && s.log <= r.log
    requires task.pc.Following? && task.pc.leader in r.futures ==>
      SoundFuture(r.futures[task.pc.leader], task.url, task.now, r.log)
    ensures SoundTask(cfg, r, task)
  {
    if task.pc.Finished? {
      VouchedGrows(task.url, task.kid, task.pc.answer, s.log, r.log, task.now - cfg.AgeBound());
    }
  }

  /** The new task of a call is sound in the state its first stretch leaves. */
  lemma NewTaskIsSound(cfg: Config, s: State, t: TaskId, url: Url, kid: Kid)
    requires cfg.Valid() && Flights(s) && AgeSound(cfg, s) && t !in s.tasks
    ensures SoundTask(cfg, Begin(cfg, s, t, url, kid), Begin(cfg, s, t, url, kid).tasks[t])
  {
    OpenIsSound(cfg, url, Lookup(s.store, url), kid, s.clock, s.log);
    if url in s.inflight {
      assert IsLeading(s, s.inflight[url]);
      assert Registered(s, s.inflight[url]);
    }
  }

  /** A newcomer leaves the other tasks sound, whether or not it registers a future. */
  lemma NewcomerIsHarmless(cfg: Config, s: State, r: State, t: TaskId)
    requires Flights(s) && AgeSound(cfg, s) && t !in s.tasks
    requires r.clock == s.clock && r.log == s.log && t in r.tasks && r.tasks == s.tasks[t := r.tasks[t]]
    requires r.futures == s.futures || r.futures == s.futures[t := Pending]
    ensures forall x :: x in s.tasks ==> SoundTask(cfg, r, r.tasks[x])
  {
    forall x | x in s.tasks ensures SoundTask(cfg, r, r.tasks[x]) {
      if IsFollowing(s, x) { assert Attached(s, x, s.tasks[x].pc.leader); }
      SoundTaskKept(cfg, s, r, s.tasks[x]);
    }
  }

  lemma BeginAge(cfg: Config, s: State, t: TaskId, url: Url, kid: Kid)
    requires cfg.Valid() && Flights(s) && AgeSound(cfg, s) && t !in s.tasks
    ensures AgeSound(cfg, Begin(cfg, s, t, url, kid))
  {
    var r := Begin(cfg, s, t, url, kid);
    BeginShape(cfg, s, t, url, kid);
    TouchKeeps(s.store, url, cfg.maxUrls);
    NewTaskIsSound(cfg, s, t, url, kid);
    NewcomerIsHarmless(cfg, s, r, t);
  }

  /** Tasks other than `t`, when `t`'s future (if it leads) is resolved with `o` and `t` moves to `pc`. */
  lemma OthersStaySound(cfg: Config, s: State, r: State, t: TaskId, o: Outcome)
    requires Flights(s) && AgeSound(cfg, s) && t in s.tasks
    requires r.clock == s.clock && s.log <= r.log && r.tasks.Keys == s.tasks.Keys
    requires forall x :: x in s.tasks && x != t ==> r.tasks[x] == s.tasks[x]
    requires r.futures == s.futures || r.futures == s.futures[t := Done(o)]
    requires o.Fetched? ==> FetchedBy(s.tasks[t].url, o.keys, r.log) && o.keys.completed >= s.clock
    ensures forall x :: x in s.tasks && x != t ==> SoundTask(cfg, r, r.tasks[x])
  {
    forall x | x in s.tasks && x != t ensures SoundTask(cfg, r, r.tasks[x]) {
      if IsFollowing(s, x) { assert Attached(s, x, s.tasks[x].pc.leader); }
      SoundTaskKept(cfg, s, r, s.tasks[x]);
    }
  }

  lemma EndHttpAge(cfg: Config, s: State, t: TaskId, body: Body)
    requires cfg.Valid() && Flights(s) && AgeSound(cfg, s) && IsLeading(s, t)
    ensures AgeSound(cfg, EndHttp(cfg, s, t, body))
  {
    var r := EndHttp(cfg, s, t, body);
    var task, o := s.tasks[t], HttpOutcome(s, t, body);
    SoundGrows(s.store, s.log, r.log);
    assert Registered(s, t);
    SettleIsSound(cfg, s.store, task.url, task.kid, task.now, task.pc.need, o, r.log);
    OthersStaySound(cfg, s, r, t, o);
  }

  lemma ResumeAge(cfg: Config, s: State, t: TaskId)
    requires cfg.Valid() && Flights(s) && AgeSound(cfg, s) && Enabled(s, Resume(t))
    ensures AgeSound(cfg, Step(cfg, s, Resume(t)))
  {
    var r := Step(cfg, s, Resume(t));
    var task := s.tasks[t];
    assert SoundTask(cfg, s, task);
    SettleIsSound(cfg, s.store, task.url, task.kid, task.now, task.pc.need,
                  s.futures[task.pc.leader].outcome, s.log);
    OthersStaySound(cfg, s, r, t, Failed);
  }

  lemma StepAge(cfg: Config, s: State, ev: Event)
    requires cfg.Valid() && Flights(s) && AgeSound(cfg, s) && Enabled(s, ev)
    ensures AgeSound(cfg, Step(cfg, s, ev))
  {
    var r := Step(cfg, s, ev);
    match ev
    case Tick(_) =>
      forall x | x in r.tasks ensures SoundTask(cfg, r, r.tasks[x]) { SoundTaskKept(cfg, s, r, s.tasks[x]); }
    case Call(t, url, kid) => BeginAge(cfg, s, t, url, kid);
    case HttpEnd(t, body) => EndHttpAge(cfg, s, t, body);
    case Cancel(t) =>
      if IsLeading(s, t) { assert Registered(s, t); }
      OthersStaySound(cfg, s, r, t, Failed);
      assert SoundTask(cfg, s, s.tasks[t]);
    case Resume(t) => ResumeAge(cfg, s, t);
  }

  lemma {:induction false} RunAge(cfg: Config, evs: seq<Event>)
    requires cfg.Valid() && Possible(cfg, Initial, evs)
    ensures Flights(Exec(cfg, Initial, evs)) && AgeSound(cfg, Exec(cfg, Initial, evs))
  {
    RunFlights(cfg, Initial, evs);
    if evs != [] {
      RunAge(cfg, evs[..|evs| - 1]);
      StepAge(cfg, Exec(cfg, Initial, evs[..|evs| - 1]), evs[|evs| - 1]);
    }
  }

  /**
   * Age soundness over all async interleavings: a key returned to a call that started
   * at `now` comes from a successful fetch of the same URL that completed no earlier
   * than `now` minus max(cache_ttl, stale_ttl).
   */
  lemma AsyncAgeBound(cfg: Config, evs: seq<Event>, t: TaskId)
    requires cfg.Valid() && Possible(cfg, Initial, evs)
    requires t in Exec(cfg, Initial, evs).tasks && Exec(cfg, Initial, evs).tasks[t].pc.Finished?
    ensures var s := Exec(cfg, Initial, evs);
      var task := s.tasks[t];
      VouchedAnswer(task.url, task.kid, task.pc.answer, s.log, task.now - cfg.AgeBound())
  {
    RunAge(cfg, evs);
    var s := Exec(cfg, Initial, evs);
    assert SoundTask(cfg, s, s.tasks[t]);
  }

  /** Every stored entry is a fetched one and at most as old as it claims; the cache stays capped. */
  lemma AsyncEntriesAreSound(cfg: Config, evs: seq<Event>)
    requires cfg.Valid() && Possible(cfg, Initial, evs)
    ensures var s := Exec(cfg, Initial, evs);
      Sound(s.store, s.log) && s.store.Valid(cfg.maxUrls)
  {
    RunAge(cfg, evs);
  }

  // ---------------------------------------------------------------------------
  // A call with nothing beside it
  // ---------------------------------------------------------------------------

  lemma SoloFetch(cfg: Config, s: State, t: TaskId, body: Body)
    requires IsLeading(s, t) && Parsed(body)
    requires t in s.futures && s.tasks[t].url in s.inflight && s.inflight[s.tasks[t].url] == t
    ensures var task, r := s.tasks[t], Step(cfg, s, HttpEnd(t, body));
      var end := Settle(cfg, s.store, task.url, task.kid, task.now, task.pc.need, HttpOutcome(s, t, body));
      && r.store == end.store && t in r.tasks && r.tasks[t].pc == Finished(end.answer)
      && r.inflight == s.inflight - {task.url}
  {
  }

  /**
   * In any state, whatever is in flight, a task that is not interrupted by others does what
   * the sequential `get_key` does, unless it needs a fetch and one is in flight for the URL:
   * then it has looked the entry up and follows that fetch, and starts none.
   */
  lemma SoloCallIsGetKey(cfg: Config, s: State, t: TaskId, url: Url, kid: Kid, body: Body)
    requires t !in s.tasks && Parsed(body)
    ensures var o := if body.None? then Failed else Fetched(KeySet(body.value, url, s.clock));
      var effect := GetKeyEffect(cfg, s.store, Request(url, kid, s.clock, o));
      var s1 := Step(cfg, s, Call(t, url, kid));
      var r := if effect.fetched then Step(cfg, s1, HttpEnd(t, body)) else s1;
      if effect.fetched && url in s.inflight then
        s1.store == Touch(s.store, url) && s1.inflight == s.inflight && s1.started == s.started &&
        t in s1.tasks && s1.tasks[t].pc.Following? && s1.tasks[t].pc.leader == s.inflight[url]
      else
        r.store == effect.store && t in r.tasks && r.tasks[t].pc == Finished(effect.answer) && r.inflight == s.inflight
  {
    BeginShape(cfg, s, t, url, kid);
    var s1 := Begin(cfg, s, t, url, kid);
    assert Step(cfg, s, Call(t, url, kid)) == s1;
    if s1.tasks[t].pc.Leading? {
      SoloFetch(cfg, s1, t, body);
      assert s1.inflight - {url} == s.inflight;
    }
  }

  /**
   * Coalescing serves: in every reachable state the fetch that a task follows can still
   * return any key set, and the task can then take its kid's key from it.
   */
  lemma FetchServesFollowers(cfg: Config, evs: seq<Event>, t: TaskId, body: map<Kid, Key>)
    requires Possible(cfg, Initial, evs) && body != map[]
    requires var s := Exec(cfg, Initial, evs); IsFollowing(s, t) && IsLeading(s, s.tasks[t].pc.leader)
    ensures var s := Exec(cfg, Initial, evs);
      var kid, l := s.tasks[t].kid, s.tasks[t].pc.leader;
      var landed := Step(cfg, s, HttpEnd(l, Some(body)));
      && Enabled(s, HttpEnd(l, Some(body))) && Enabled(landed, Resume(t))
      && Step(cfg, landed, Resume(t)).tasks[t].pc == Finished(if kid in body then Found(body[kid]) else UnknownKid)
  {
    RunFlights(cfg, Initial, evs);
    var s := Exec(cfg, Initial, evs);
    var l := s.tasks[t].pc.leader;
    assert Registered(s, l) && Attached(s, t, l);
  }

  /**
   * A task can be cancelled at every await, and disturbs no one: a follower's cancellation
   * changes nothing but its own place; a leader's frees the URL and fails the flight for
   * its followers, and leaves cache, stamps and every other task as they were.
   */
  lemma CancelDisturbsNoOne(cfg: Config, evs: seq<Event>, t: TaskId)
    requires Possible(cfg, Initial, evs)
    requires IsLeading(Exec(cfg, Initial, evs), t) || IsFollowing(Exec(cfg, Initial, evs), t)
    ensures var s := Exec(cfg, Initial, evs);
      var r, url := Step(cfg, s, Cancel(t)), s.tasks[t].url;
      && Enabled(s, Cancel(t))
      && r.tasks == s.tasks[t := s.tasks[t].(pc := Cancelled)] && r.store == s.store && r.log == s.log
      && r.inflight == (if IsLeading(s, t) then s.inflight - {url} else s.inflight)
      && r.futures == (if IsLeading(s, t) then s.futures[t := Done(Failed)] else s.futures)
  {
    RunFlights(cfg, Initial, evs);
    var s := Exec(cfg, Initial, evs);
    if IsLeading(s, t) { assert Registered(s, t); }
  }
}
