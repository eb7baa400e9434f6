/** Any number of async calls on a cold URL share exactly one HTTP fetch, and its success or failure. */
module ColdBurst {
  import opened Wrappers
  import opened JwksStore
  import opened AsyncFetch

  predicate Active(task: Task) {
    task.pc.Leading? || task.pc.Following?
  }

  /** Nothing is cached for the URL, and no task is working on it. */
  ghost predicate Cold(s: State, url: Url) {
    && url !in s.store.entries && url !in s.inflight
    && (forall t :: t in s.tasks && s.tasks[t].url == url ==> !Active(s.tasks[t]))
  }

  /** What a caller gets out of the shared fetch. */
  function BurstAnswer(body: Body, kid: Kid): Answer {
    if body.None? then FetchFailed else if kid in body.value then Found(body.value[kid]) else UnknownKid
  }

  /** A task that joined the burst begun in `s0`, while the fetch of `leader` is on its way. */
  ghost predicate Waiting(cfg: Config, s0: State, leader: TaskId, t: TaskId, task: Task) {
    match task.pc
    case Leading(need) => t == leader && need == Refresh(None) && !Rejects(cfg, s0.store, task.url, task.kid, task.now)
    case Following(need, l) => l == leader && need == Refresh(None) &&
      !Rejects(cfg, s0.store, task.url, task.kid, task.now)
    case Finished(answer) => answer == NegativeCached && Rejects(cfg, s0.store, task.url, task.kid, task.now)
    case Cancelled => true
  }

  /** Such a task once the fetch has ended with `body`. */
  ghost predicate Served(cfg: Config, s0: State, leader: TaskId, body: Body, task: Task) {
    match task.pc
    case Leading(_) => false
    case Following(need, l) => l == leader && need == Refresh(None) &&
      !Rejects(cfg, s0.store, task.url, task.kid, task.now)
    case Finished(answer) =>
      answer == if Rejects(cfg, s0.store, task.url, task.kid, task.now) then NegativeCached
        else BurstAnswer(body, task.kid)
    case Cancelled => true
  }

  /** A task on the URL is over if it is one of `s0`'s, else waiting or, once the fetch has ended, served. */
  ghost predicate TaskPhase(cfg: Config, s0: State, leader: TaskId, end: Option<Body>, t: TaskId, task: Task) {
    if t in s0.tasks then !Active(task)
    else if end.None? then Waiting(cfg, s0, leader, t, task)
    else Served(cfg, s0, leader, end.value, task)
  }

  ghost predicate Phase(cfg: Config, s0: State, s: State, url: Url, leader: TaskId, end: Option<Body>) {
    && s.started[url] == s0.started[url] + 1
    && (forall t :: t in s.tasks && s.tasks[t].url == url ==> TaskPhase(cfg, s0, leader, end, t, s.tasks[t]))
  }

  ghost predicate InFlight(cfg: Config, s0: State, s: State, url: Url, leader: TaskId) {
    && Phase(cfg, s0, s, url, leader, None)
    && url in s.inflight && s.inflight[url] == leader && IsLeading(s, leader) && leader !in s0.tasks
    && s.tasks[leader].url == url
    && url !in s.store.entries
    && (forall kid :: MissedAt(s.store, url, kid) == MissedAt(s0.store, url, kid))
  }

  /** The outcome of a fetch that gave `body`. */
  predicate Gave(o: Outcome, body: Body) {
    if body.None? then o.Failed? else o.Fetched? && o.keys.byKid == body.value
  }

  ghost predicate Landed(cfg: Config, s0: State, s: State, url: Url, leader: TaskId, body: Body) {
    && Phase(cfg, s0, s, url, leader, Some(body))
    && leader in s.futures && s.futures[leader].Done?
    && Gave(s.futures[leader].outcome, body)
  }

  /** Settling a call on another URL neither caches this URL nor stamps its kids. */
  lemma ForeignSettle(cfg: Config, s: Store, u: Url, kid: Kid, now: real, need: Need, o: Outcome, url: Url)
    requires u != url
    ensures var r := Settle(cfg, s, u, kid, now, need, o).store;
      && (url in r.entries ==> url in s.entries)
      && (forall k :: MissedAt(r, url, k) == MissedAt(s, url, k))
  {
  }

  /** A call on the cold URL is rejected by an old stamp, or refreshes with nothing held. */
  lemma ColdBegin(cfg: Config, s: State, t: TaskId, url: Url, kid: Kid)
    requires url !in s.store.entries
    ensures var r := Begin(cfg, s, t, url, kid);
      && t in r.tasks
      && (r.tasks[t].pc == Finished(NegativeCached) <==> Rejects(cfg, s.store, url, kid, s.clock))
      && (Rejects(cfg, s.store, url, kid, s.clock) || r.tasks[t].pc == Leading(Refresh(None)) ||
          (url in s.inflight && r.tasks[t].pc == Following(Refresh(None), s.inflight[url])))
      && r.store.entries == s.store.entries && r.store.unknown == s.store.unknown
  {
  }

  lemma BurstBegins(cfg: Config, s0: State, url: Url, kid: Kid, leader: TaskId)
    requires Cold(s0, url) && leader !in s0.tasks && !Rejects(cfg, s0.store, url, kid, s0.clock)
    ensures InFlight(cfg, s0, Begin(cfg, s0, leader, url, kid), url, leader)
  {
    BeginShape(cfg, s0, leader, url, kid);
    ColdBegin(cfg, s0, leader, url, kid);
  }

  lemma BurstJoins(cfg: Config, s0: State, s: State, url: Url, leader: TaskId, t: TaskId, u: Url, kid: Kid)
    requires InFlight(cfg, s0, s, url, leader) && t !in s.tasks && s0.tasks.Keys <= s.tasks.Keys
    ensures InFlight(cfg, s0, Begin(cfg, s, t, u, kid), url, leader)
  {
    BeginShape(cfg, s, t, u, kid);
    if u == url { ColdBegin(cfg, s, t, url, kid); }
  }

  /** Ending task `t`, which is not on the URL, leaves the burst alone. */
  lemma ForeignEnd(cfg: Config, s0: State, s: State, url: Url, leader: TaskId, ev: Event)
    requires Flights(s) && InFlight(cfg, s0, s, url, leader) && Enabled(s, ev)
    requires ev.HttpEnd? || ev.Cancel? || ev.Resume?
    requires s.tasks[ev.id].url != url
    ensures InFlight(cfg, s0, Step(cfg, s, ev), url, leader)
  {
    var task := s.tasks[ev.id];
    var r := Step(cfg, s, ev);
    assert url in r.inflight && r.inflight[url] == leader;
    assert forall x :: x in s.tasks && x != ev.id ==> r.tasks[x] == s.tasks[x];
    if ev.HttpEnd? {
      ForeignSettle(cfg, s.store, task.url, task.kid, task.now, task.pc.need, HttpOutcome(s, ev.id, ev.body), url);
    } else if ev.Resume? {
      ForeignSettle(cfg, s.store, task.url, task.kid, task.now, task.pc.need, s.futures[task.pc.leader].outcome, url);
    }
  }

  /** While the fetch is on its way, only its own end can end the burst. */
  lemma BurstGoesOn(cfg: Config, s0: State, s: State, url: Url, leader: TaskId, ev: Event)
    requires Flights(s) && InFlight(cfg, s0, s, url, leader) && Enabled(s, ev) && s0.tasks.Keys <= s.tasks.Keys
    requires !(ev.HttpEnd? && ev.id == leader) && !(ev.Cancel? && ev.id == leader)
    ensures InFlight(cfg, s0, Step(cfg, s, ev), url, leader)
  {
    match ev
    case Tick(_) =>
    case Call(t, u, kid) => BurstJoins(cfg, s0, s, url, leader, t, u, kid);
    case HttpEnd(t, _) =>
      assert Registered(s, t) && Registered(s, leader);
      ForeignEnd(cfg, s0, s, url, leader, ev);
    case Cancel(t) =>
      if s.tasks[t].url != url {
        ForeignEnd(cfg, s0, s, url, leader, ev);
      }
    case Resume(t) =>
      assert Registered(s, leader);
      ForeignEnd(cfg, s0, s, url, leader, ev);
  }

  /** The fetch ends: the leader has its answer, and the followers' future holds the outcome. */
  lemma BurstLands(cfg: Config, s0: State, s: State, url: Url, leader: TaskId, body: Body)
    requires Flights(s) && InFlight(cfg, s0, s, url, leader) && Parsed(body)
    ensures Landed(cfg, s0, Step(cfg, s, HttpEnd(leader, body)), url, leader, body)
  {
    assert Registered(s, leader);
    assert Waiting(cfg, s0, leader, leader, s.tasks[leader]);
  }

  /** Only task `t` changed, and it still fits. */
  lemma StaysLanded(cfg: Config, s0: State, s: State, r: State, url: Url, leader: TaskId, body: Body, t: TaskId)
    requires Landed(cfg, s0, s, url, leader, body)
    requires r.started[url] == s.started[url]
    requires leader in r.futures && r.futures[leader] == s.futures[leader]
    requires t in r.tasks && r.tasks == s.tasks[t := r.tasks[t]]
    requires r.tasks[t].url == url ==> TaskPhase(cfg, s0, leader, Some(body), t, r.tasks[t])
    ensures Landed(cfg, s0, r, url, leader, body)
  {
  }

  /** Afterwards everyone who still waits is answered from the same outcome, without a fetch. */
  lemma BurstDrains(cfg: Config, s0: State, s: State, url: Url, leader: TaskId, body: Body, ev: Event)
    requires Flights(s) && Landed(cfg, s0, s, url, leader, body) && Enabled(s, ev) && s0.tasks.Keys <= s.tasks.Keys
    requires !(ev.Call? && ev.url == url)
    ensures Landed(cfg, s0, Step(cfg, s, ev), url, leader, body)
  {
    var r := Step(cfg, s, ev);
    OutcomeIsFinal(cfg, s, ev, leader);
    if !ev.Tick? {
      if ev.Call? {
        BeginShape(cfg, s, ev.id, ev.url, ev.kid);
      } else if s.tasks[ev.id].url == url {
        assert TaskPhase(cfg, s0, leader, Some(body), ev.id, s.tasks[ev.id]);
      }
      StaysLanded(cfg, s0, s, r, url, leader, body, ev.id);
    }
  }

  lemma TasksPersist(cfg: Config, s: State, ev: Event)
    ensures s.tasks.Keys <= Step(cfg, s, ev).tasks.Keys
  {
    if ev.Call? { BeginShape(cfg, s, ev.id, ev.url, ev.kid); }
  }

  lemma {:induction false} BurstUntil(cfg: Config, s0: State, url: Url, kid: Kid, leader: TaskId, evs: seq<Event>)
    requires Flights(s0) && Cold(s0, url) && leader !in s0.tasks && !Rejects(cfg, s0.store, url, kid, s0.clock)
    requires Possible(cfg, Step(cfg, s0, Call(leader, url, kid)), evs)
    requires forall ev :: ev in evs ==> !(ev.HttpEnd? && ev.id == leader) && !(ev.Cancel? && ev.id == leader)
    ensures var s := Exec(cfg, Step(cfg, s0, Call(leader, url, kid)), evs);
      Flights(s) && InFlight(cfg, s0, s, url, leader) && s0.tasks.Keys <= s.tasks.Keys
  {
    var s1 := Step(cfg, s0, Call(leader, url, kid));
    if evs == [] {
      BurstBegins(cfg, s0, url, kid, leader);
      StepFlights(cfg, s0, Call(leader, url, kid));
      TasksPersist(cfg, s0, Call(leader, url, kid));
    } else {
      var n := |evs| - 1;
      var s := Exec(cfg, s1, evs[..n]);
      BurstUntil(cfg, s0, url, kid, leader, evs[..n]);
      assert evs[n] in evs;
      BurstGoesOn(cfg, s0, s, url, leader, evs[n]);
      StepFlights(cfg, s, evs[n]);
      TasksPersist(cfg, s, evs[n]);
    }
  }

  lemma {:induction false} BurstAfter(cfg: Config, s0: State, s: State, url: Url, leader: TaskId, body: Body,
                                      evs: seq<Event>)
    requires Flights(s) && Landed(cfg, s0, s, url, leader, body) && s0.tasks.Keys <= s.tasks.Keys
    requires Possible(cfg, s, evs) && forall ev :: ev in evs ==> !(ev.Call? && ev.url == url)
    ensures var r := Exec(cfg, s, evs);
      Flights(r) && Landed(cfg, s0, r, url, leader, body) && s0.tasks.Keys <= r.tasks.Keys
  {
    if evs != [] {
      var n := |evs| - 1;
      BurstAfter(cfg, s0, s, url, leader, body, evs[..n]);
      assert evs[n] in evs;
      BurstDrains(cfg, s0, Exec(cfg, s, evs[..n]), url, leader, body, evs[n]);
      StepFlights(cfg, Exec(cfg, s, evs[..n]), evs[n]);
      TasksPersist(cfg, Exec(cfg, s, evs[..n]), evs[n]);
    }
  }

  /**
   * A burst on `s0`: `leader` calls first, anything happens (`before`) short of its
   * fetch ending or its cancellation, the fetch ends with `body` (`None`: it failed), and
   * anything happens
   * (`after`) short of new calls on the URL.
   */
  ghost predicate Burst(cfg: Config, s0: State, url: Url, kid: Kid, leader: TaskId,
                        before: seq<Event>, body: Body, after: seq<Event>) {
    && Cold(s0, url) && leader !in s0.tasks && !Rejects(cfg, s0.store, url, kid, s0.clock)
    && Possible(cfg, Step(cfg, s0, Call(leader, url, kid)), before)
    && (forall ev :: ev in before ==> !(ev.HttpEnd? && ev.id == leader) && !(ev.Cancel? && ev.id == leader))
    && Parsed(body) && Possible(cfg, AtLanding(cfg, s0, url, kid, leader, before, body), after)
    && (forall ev :: ev in after ==> !(ev.Call? && ev.url == url))
  }

  function AtLanding(cfg: Config, s0: State, url: Url, kid: Kid, leader: TaskId,
                     before: seq<Event>, body: Body): State {
    Step(cfg, Exec(cfg, Step(cfg, s0, Call(leader, url, kid)), before), HttpEnd(leader, body))
  }

  /** After a burst. */
  function AtEnd(cfg: Config, s0: State, url: Url, kid: Kid, leader: TaskId,
                 before: seq<Event>, body: Body, after: seq<Event>): State {
    Exec(cfg, AtLanding(cfg, s0, url, kid, leader, before, body), after)
  }

  lemma BurstOutcome(cfg: Config, s0: State, url: Url, kid: Kid, leader: TaskId,
                     before: seq<Event>, body: Body, after: seq<Event>)
    requires Flights(s0) && Burst(cfg, s0, url, kid, leader, before, body, after)
    ensures Landed(cfg, s0, AtEnd(cfg, s0, url, kid, leader, before, body, after), url, leader, body)
  {
    BurstUntil(cfg, s0, url, kid, leader, before);
    var s2 := Exec(cfg, Step(cfg, s0, Call(leader, url, kid)), before);
    var s3 := AtLanding(cfg, s0, url, kid, leader, before, body);
    BurstLands(cfg, s0, s2, url, leader, body);
    StepFlights(cfg, s2, HttpEnd(leader, body));
    TasksPersist(cfg, s2, HttpEnd(leader, body));
    BurstAfter(cfg, s0, s3, url, leader, body, after);
  }

  /**
   * Cold-burst coalescing, in any reachable state where the URL is cold: exactly one
   * HTTP fetch of the URL was begun, and every call of the burst that finished got its
   * kid's key from what that fetch returned, or "unknown kid" without a second fetch, or,
   * if the fetch failed, its failure without another attempt; unless a negative stamp from
   * before the burst rejected it.
   */
  lemma ColdBurstSharesOneFetch(cfg: Config, init: seq<Event>, url: Url, kid: Kid, leader: TaskId,
                                before: seq<Event>, body: Body, after: seq<Event>)
    requires Possible(cfg, Initial, init)
    requires Burst(cfg, Exec(cfg, Initial, init), url, kid, leader, before, body, after)
    ensures var s0 := Exec(cfg, Initial, init);
      var s := AtEnd(cfg, s0, url, kid, leader, before, body, after);
      && s.started[url] == s0.started[url] + 1
      && (forall t :: t in s.tasks && t !in s0.tasks && s.tasks[t].url == url && s.tasks[t].pc.Finished? ==>
           s.tasks[t].pc.answer ==
             if Rejects(cfg, s0.store, url, s.tasks[t].kid, s.tasks[t].now) then NegativeCached
             else BurstAnswer(body, s.tasks[t].kid))
  {
    var s0 := Exec(cfg, Initial, init);
    RunFlights(cfg, Initial, init);
    BurstOutcome(cfg, s0, url, kid, leader, before, body, after);
    var s := AtEnd(cfg, s0, url, kid, leader, before, body, after);
    assert forall t :: t in s.tasks && t !in s0.tasks && s.tasks[t].url == url ==>
      TaskPhase(cfg, s0, leader, Some(body), t, s.tasks[t]);
  }
}
