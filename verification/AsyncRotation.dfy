/** Key rotation under every interleaving of `get_key_async` calls. */
module AsyncRotation {
  import opened Wrappers
  import opened JwksStore
  import opened AsyncFetch

  /** If the event ends a fetch of the URL at `since` or later, the fetch has returned the kid. */
  predicate Yields(s: State, ev: Event, url: Url, kid: Kid, since: real) {
    s.clock >= since && (ev.HttpEnd? || ev.Cancel?) && IsLeading(s, ev.id) && s.tasks[ev.id].url == url ==>
      ev.HttpEnd? && ev.body.Some? && kid in ev.body.value
  }

  /** From `since` on every fetch of the URL that ends returns the kid. */
  predicate RotatedIn(cfg: Config, evs: seq<Event>, url: Url, kid: Kid, since: real) {
    evs == [] ||
    (RotatedIn(cfg, evs[..|evs| - 1], url, kid, since) &&
      Yields(Exec(cfg, Initial, evs[..|evs| - 1]), evs[|evs| - 1], url, kid, since))
  }

  /** A call for the kid that began since the rotation waits for a fetch that returns it, or has found it. */
  ghost predicate Finds(cfg: Config, s: State, task: Task, kid: Kid, since: real) {
    match task.pc
    case Following(_, l) => l in s.futures && s.futures[l].Done? ==> HasKid(s.futures[l].outcome, kid)
    case Finished(answer) => task.kid == kid ==>
      answer.Found? || (answer.NegativeCached? && task.now < since + cfg.unknownKidTtl)
    case _ => true
  }

  ghost predicate Visible(cfg: Config, s: State, url: Url, kid: Kid, since: real) {
    && NoStampSince(s.store, url, kid, since)
    && (forall t :: t in s.tasks ==> s.tasks[t].now <= s.clock)
    && (forall t :: t in s.tasks && s.tasks[t].url == url && s.tasks[t].now >= since ==>
        Finds(cfg, s, s.tasks[t], kid, since))
  }

  /** A call settles without a new stamp on the kid, unless it began before the rotation. */
  lemma SettleStamps(cfg: Config, s: Store, u: Url, k: Kid, now: real, need: Need, o: Outcome, url: Url, kid: Kid,
                     since: real)
    requires NoStampSince(s, url, kid, since)
    requires u == url && now >= since ==> HasKid(o, kid)
    ensures NoStampSince(Settle(cfg, s, u, k, now, need, o).store, url, kid, since)
    ensures u == url && k == kid && now >= since ==> Settle(cfg, s, u, k, now, need, o).answer.Found?
  {
  }

  lemma BeginVisible(cfg: Config, s: State, t: TaskId, u: Url, k: Kid, url: Url, kid: Kid, since: real)
    requires cfg.Valid() && Flights(s) && Visible(cfg, s, url, kid, since) && t !in s.tasks
    ensures Visible(cfg, Begin(cfg, s, t, u, k), url, kid, since)
  {
    var r := Begin(cfg, s, t, u, k);
    BeginShape(cfg, s, t, u, k);
    NewcomerFinds(cfg, s, r, t, u, k, url, kid, since);
    forall x | x in s.tasks && s.tasks[x].url == url && s.tasks[x].now >= since
      ensures Finds(cfg, r, r.tasks[x], kid, since) {
      assert Finds(cfg, s, s.tasks[x], kid, since);
      if IsFollowing(s, x) { assert Attached(s, x, s.tasks[x].pc.leader); }
    }
  }

  lemma NewcomerFinds(cfg: Config, s: State, r: State, t: TaskId, u: Url, k: Kid, url: Url, kid: Kid, since: real)
    requires cfg.Valid() && Flights(s) && Visible(cfg, s, url, kid, since) && t !in s.tasks
    requires r.futures == s.futures || r.futures == s.futures[t := Pending]
    requires t in r.tasks && r.tasks[t] == Task(u, k, s.clock, FirstPc(cfg, s, u, k))
    ensures u == url && s.clock >= since ==> Finds(cfg, r, r.tasks[t], kid, since)
  {
    if u in s.inflight {
      assert IsLeading(s, s.inflight[u]);
      assert Registered(s, s.inflight[u]);
    }
  }

  /** When task `t` has ended its fetch or its wait, the others still find the kid. */
  lemma OthersFind(cfg: Config, s: State, r: State, t: TaskId, o: Outcome, url: Url, kid: Kid, since: real)
    requires Flights(s) && Visible(cfg, s, url, kid, since) && t in s.tasks && NoStampSince(r.store, url, kid, since)
    requires r.clock == s.clock && t in r.tasks && r.tasks == s.tasks[t := s.tasks[t].(pc := r.tasks[t].pc)]
    requires r.futures == s.futures || (r.futures == s.futures[t := Done(o)] && IsLeading(s, t))
    requires IsLeading(s, t) && s.tasks[t].url == url && s.clock >= since ==> HasKid(o, kid)
    requires s.tasks[t].url == url && s.tasks[t].now >= since ==> Finds(cfg, r, r.tasks[t], kid, since)
    ensures Visible(cfg, r, url, kid, since)
  {
    forall x | x in s.tasks && x != t && s.tasks[x].url == url && s.tasks[x].now >= since
      ensures Finds(cfg, r, r.tasks[x], kid, since)
    {
      assert Finds(cfg, s, s.tasks[x], kid, since);
      if IsFollowing(s, x) { assert Attached(s, x, s.tasks[x].pc.leader); }
    }
  }

  lemma EndHttpVisible(cfg: Config, s: State, t: TaskId, body: Body, url: Url, kid: Kid, since: real)
    requires Flights(s) && Visible(cfg, s, url, kid, since) && IsLeading(s, t)
    requires Yields(s, HttpEnd(t, body), url, kid, since)
    ensures Visible(cfg, EndHttp(cfg, s, t, body), url, kid, since)
  {
    var task, o := s.tasks[t], HttpOutcome(s, t, body);
    assert Registered(s, t);
    SettleStamps(cfg, s.store, task.url, task.kid, task.now, task.pc.need, o, url, kid, since);
    OthersFind(cfg, s, EndHttp(cfg, s, t, body), t, o, url, kid, since);
  }

  lemma StepVisible(cfg: Config, s: State, ev: Event, url: Url, kid: Kid, since: real)
    requires cfg.Valid() && Flights(s) && Visible(cfg, s, url, kid, since)
    requires Enabled(s, ev) && Yields(s, ev, url, kid, since)
    ensures Visible(cfg, Step(cfg, s, ev), url, kid, since)
  {
    var r := Step(cfg, s, ev);
    match ev
    case Tick(_) =>
      forall x | x in s.tasks && s.tasks[x].url == url && s.tasks[x].now >= since
        ensures Finds(cfg, r, r.tasks[x], kid, since) {
        assert Finds(cfg, s, s.tasks[x], kid, since);
      }
    case Call(t, u, k) => BeginVisible(cfg, s, t, u, k, url, kid, since);
    case HttpEnd(t, body) => EndHttpVisible(cfg, s, t, body, url, kid, since);
    case Cancel(t) =>
      if IsLeading(s, t) { assert Registered(s, t); }
      OthersFind(cfg, s, r, t, Failed, url, kid, since);
    case Resume(t) =>
      var task := s.tasks[t];
      if task.url == url && task.now >= since { assert Finds(cfg, s, task, kid, since); }
      SettleStamps(cfg, s.store, task.url, task.kid, task.now, task.pc.need, s.futures[task.pc.leader].outcome, url,
        kid, since);
      OthersFind(cfg, s, r, t, Failed, url, kid, since);
  }

  lemma {:induction false} RunVisible(cfg: Config, evs: seq<Event>, url: Url, kid: Kid, since: real)
    requires cfg.Valid() && Possible(cfg, Initial, evs) && RotatedIn(cfg, evs, url, kid, since)
    ensures Visible(cfg, Exec(cfg, Initial, evs), url, kid, since)
  {
    if evs != [] {
      var s := Exec(cfg, Initial, evs[..|evs| - 1]);
      RunVisible(cfg, evs[..|evs| - 1], url, kid, since);
      RunFlights(cfg, Initial, evs[..|evs| - 1]);
      StepVisible(cfg, s, evs[|evs| - 1], url, kid, since);
    }
  }

  /**
   * Key rotation over all async interleavings: if every fetch of the URL that ends at
   * `since` or later returns the kid, every call for it that starts at least
   * `unknown_kid_ttl` after `since` and is not cancelled finishes with a key, followers
   * included, whatever is called for other kids or URLs.
   */
  lemma AsyncRotationBecomesVisible(cfg: Config, evs: seq<Event>, t: TaskId, since: real)
    requires cfg.Valid() && Possible(cfg, Initial, evs)
    requires var s := Exec(cfg, Initial, evs);
      && t in s.tasks && s.tasks[t].pc.Finished? && s.tasks[t].now >= since + cfg.unknownKidTtl
      && RotatedIn(cfg, evs, s.tasks[t].url, s.tasks[t].kid, since)
    ensures Exec(cfg, Initial, evs).tasks[t].pc.answer.Found?
  {
    var s := Exec(cfg, Initial, evs);
    RunVisible(cfg, evs, s.tasks[t].url, s.tasks[t].kid, since);
    assert Finds(cfg, s, s.tasks[t], s.tasks[t].kid, since);
  }
}
