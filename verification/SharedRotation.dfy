/** Key rotation on a cache that tasks and threads share. */
module SharedRotation {
  import opened Wrappers
  import opened JwksStore
  import opened SharedCache
  import Threads = SyncFetch
  import SyncAge
  import SyncRotation

  /** If the event ends a fetch of the URL at `since` or later, the fetch has returned the kid. */
  predicate Yields(s: State, ev: Event, url: Url, kid: Kid, since: real) {
    match ev
    case Thread(e) => SyncRotation.Yields(s.threads, e, url, kid, since)
    case HttpEnd(t, body) =>
      t in s.tasks && s.tasks[t].url == url && s.threads.clock >= since ==> body.Some? && kid in body.value
    case Cancel(t) =>
      t in s.tasks && s.tasks[t].url == url && s.tasks[t].pc.Leading? ==> s.threads.clock < since
    case _ => true
  }

  /**
   * From `since` on every fetch of the URL that ends, by a thread or a task, returns the
   * kid, and at no time does a thread wait for another one's fetch of it.
   */
  ghost predicate RotatedIn(cfg: Config, evs: seq<Event>, url: Url, kid: Kid, since: real) {
    && SyncAge.NoWaiter(Exec(cfg, Initial, evs).threads, url)
    && (evs == [] ||
        (RotatedIn(cfg, evs[..|evs| - 1], url, kid, since) &&
         Yields(Exec(cfg, Initial, evs[..|evs| - 1]), evs[|evs| - 1], url, kid, since)))
  }

  /** A task's call that began since the rotation has found the kid or will, unless cancelled. */
  ghost predicate Finds(cfg: Config, s: State, task: Task, kid: Kid, since: real) {
    match task.pc
    case AtPop(_, o, _) => HasKid(o, kid)
    case AtSet(_, o, _) => HasKid(o, kid)
    case Following(_, l) => OutcomeOf(s, l).Some? ==> HasKid(OutcomeOf(s, l).value, kid)
    case AtStore(keys) => kid in keys.byKid
    case AtStamp => task.kid != kid
    case Finished(answer) => task.kid == kid ==>
      answer.Found? || (answer.NegativeCached? && task.now < since + cfg.unknownKidTtl)
    case _ => true
  }

  ghost predicate Visible(cfg: Config, s: State, url: Url, kid: Kid, since: real) {
    && SyncRotation.Visible(cfg, s.threads, url, kid, since)
    && (forall t :: t in s.tasks && s.tasks[t].url == url && s.tasks[t].now >= since ==>
        Finds(cfg, s, s.tasks[t], kid, since))
  }

  /** A task writes a stamp only at the end of a call that found nothing, and only its own. */
  lemma MoveStamps(cfg: Config, s: State, t: TaskId, url: Url, kid: Kid)
    requires Enabled(cfg, s, Move(t))
    ensures MissedAt(Effects(cfg, s, t).threads.store, url, kid) ==
      if s.tasks[t].pc.AtStamp? && s.tasks[t].url == url && s.tasks[t].kid == kid then Some(s.tasks[t].now)
      else MissedAt(s.threads.store, url, kid)
  {
    StampAt(s.threads.store, s.tasks[t].url, s.tasks[t].kid, s.tasks[t].now, url, kid);
  }

  /** The task in the middle of a stretch. */
  lemma MoverFinds(cfg: Config, s: State, t: TaskId, url: Url, kid: Kid, since: real)
    requires cfg.Valid() && Good(cfg, s) && Enabled(cfg, s, Move(t)) && NoStampSince(s.threads.store, url, kid, since)
    requires s.tasks[t].url == url && s.tasks[t].now >= since && Finds(cfg, s, s.tasks[t], kid, since)
    ensures var r := MoveTask(cfg, s, t); t in r.tasks && Finds(cfg, r, r.tasks[t], kid, since)
  {
    MoveIsLocal(cfg, s, t);
    assert GenuineTask(s, s.tasks[t]);
    if s.tasks[t].pc.AtJoin? && url in s.inflight {
      assert Attached(s, s.inflight[url], s.tasks[s.inflight[url]]);
    }
  }

  lemma ActorFinds(cfg: Config, s: State, ev: Event, url: Url, kid: Kid, since: real)
    requires cfg.Valid() && Good(cfg, s) && Enabled(cfg, s, ev) && !ev.Thread? && Yields(s, ev, url, kid, since)
    requires NoStampSince(s.threads.store, url, kid, since)
    requires ev.id in s.tasks && s.tasks[ev.id].url == url && s.tasks[ev.id].now >= since
    requires Finds(cfg, s, s.tasks[ev.id], kid, since)
    ensures var r := Step(cfg, s, ev); ev.id in r.tasks && Finds(cfg, r, r.tasks[ev.id], kid, since)
  {
    assert GenuineTask(s, s.tasks[ev.id]);
    if ev.Move? { MoverFinds(cfg, s, ev.id, url, kid, since); }
  }

  /** A task that awaits a flight finds in its outcome what the flight returned. */
  lemma BystanderFinds(cfg: Config, s: State, ev: Event, x: TaskId, url: Url, kid: Kid, since: real)
    requires Good(cfg, s) && Enabled(cfg, s, ev) && Yields(s, ev, url, kid, since) && x in s.tasks
    requires ev.Thread? || ev.id != x
    requires s.tasks[x].url == url && s.tasks[x].now >= since && Finds(cfg, s, s.tasks[x], kid, since)
    ensures Finds(cfg, Step(cfg, s, ev), s.tasks[x], kid, since)
  {
    var task := s.tasks[x];
    assert GenuineTask(s, task);
    if task.pc.Following? {
      var l := task.pc.leader;
      assert Attached(s, x, task);
      if (ev.HttpEnd? || ev.Cancel?) && ev.id == l && s.tasks[l].pc.Leading? {
        assert Attached(s, l, s.tasks[l]);
      } else {
        OutcomesKept(cfg, s, ev, l);
      }
    }
  }

  lemma TaskStepStamps(cfg: Config, s: State, ev: Event, url: Url, kid: Kid, since: real)
    requires Enabled(cfg, s, ev) && !ev.Thread? && Visible(cfg, s, url, kid, since)
    ensures NoStampSince(Step(cfg, s, ev).threads.store, url, kid, since)
  {
    if ev.Move? { MoveStamps(cfg, s, ev.id, url, kid); }
  }

  lemma StepVisible(cfg: Config, s: State, ev: Event, url: Url, kid: Kid, since: real)
    requires cfg.Valid() && Good(cfg, s) && Visible(cfg, s, url, kid, since) && Enabled(cfg, s, ev)
    requires Yields(s, ev, url, kid, since)
    requires SyncAge.NoWaiter(s.threads, url) && SyncAge.NoWaiter(Step(cfg, s, ev).threads, url)
    ensures Visible(cfg, Step(cfg, s, ev), url, kid, since)
  {
    var r := Step(cfg, s, ev);
    StepGrows(cfg, s, ev);
    if ev.Thread? {
      SyncRotation.StepVisible(cfg, s.threads, ev.ev, url, kid, since);
    } else {
      TaskStepStamps(cfg, s, ev, url, kid, since);
    }
    forall x | x in r.tasks && r.tasks[x].url == url && r.tasks[x].now >= since
      ensures Finds(cfg, r, r.tasks[x], kid, since) {
      TaskFinds(cfg, s, ev, x, url, kid, since);
    }
  }

  lemma TaskFinds(cfg: Config, s: State, ev: Event, x: TaskId, url: Url, kid: Kid, since: real)
    requires cfg.Valid() && Good(cfg, s) && Visible(cfg, s, url, kid, since) && Enabled(cfg, s, ev)
    requires Yields(s, ev, url, kid, since)
    requires var r := Step(cfg, s, ev); x in r.tasks && r.tasks[x].url == url && r.tasks[x].now >= since
    ensures Finds(cfg, Step(cfg, s, ev), Step(cfg, s, ev).tasks[x], kid, since)
  {
    StepGrows(cfg, s, ev);
    if ev.Thread? || x != ev.id {
      TasksComeByCalls(cfg, s, ev, x);
      BystanderFinds(cfg, s, ev, x, url, kid, since);
    } else if !ev.Call? {
      if ev.Move? { MoveIsLocal(cfg, s, x); }
      ActorFinds(cfg, s, ev, url, kid, since);
    }
  }

  lemma {:induction false} RunVisible(cfg: Config, evs: seq<Event>, url: Url, kid: Kid, since: real)
    requires cfg.Valid() && Possible(cfg, Initial, evs) && RotatedIn(cfg, evs, url, kid, since)
    ensures Visible(cfg, Exec(cfg, Initial, evs), url, kid, since)
  {
    if evs != [] {
      RunVisible(cfg, evs[..|evs| - 1], url, kid, since);
      RunGood(cfg, Initial, evs[..|evs| - 1]);
      StepVisible(cfg, Exec(cfg, Initial, evs[..|evs| - 1]), evs[|evs| - 1], url, kid, since);
    }
  }

  /**
   * Key rotation on a shared cache, in every interleaving: if every fetch of the URL that
   * ends at `since` or later returns the kid, and no thread waits for another one's fetch
   * of it, every call for the kid that starts at least `unknown_kid_ttl` after `since` and
   * is not cancelled finishes with a key, whether a task or a thread makes it.
   */
  lemma SharedRotationBecomesVisible(cfg: Config, evs: seq<Event>, url: Url, kid: Kid, since: real,
                                     t: TaskId, x: Threads.ThreadId)
    requires cfg.Valid() && Possible(cfg, Initial, evs) && RotatedIn(cfg, evs, url, kid, since)
    ensures var tasks := Exec(cfg, Initial, evs).tasks;
      t in tasks && tasks[t].url == url && tasks[t].kid == kid && tasks[t].now >= since + cfg.unknownKidTtl ==>
        tasks[t].pc.Finished? ==> tasks[t].pc.answer.Found?
    ensures var threads := Exec(cfg, Initial, evs).threads.threads;
      x in threads && threads[x].url == url && threads[x].kid == kid && threads[x].now >= since + cfg.unknownKidTtl ==>
        threads[x].pc.Finished? ==> threads[x].pc.answer.Found?
  {
    RunVisible(cfg, evs, url, kid, since);
    VisibleAnswers(cfg, Exec(cfg, Initial, evs), url, kid, since, t, x);
  }

  lemma VisibleAnswers(cfg: Config, s: State, url: Url, kid: Kid, since: real, t: TaskId, x: Threads.ThreadId)
    requires cfg.Valid() && Visible(cfg, s, url, kid, since)
    ensures t in s.tasks && s.tasks[t].url == url && s.tasks[t].now >= since ==> Finds(cfg, s, s.tasks[t], kid, since)
    ensures x in s.threads.threads && s.threads.threads[x].url == url && s.threads.threads[x].now >= since ==>
      SyncRotation.Finds(cfg, s.threads.threads[x], kid, since)
  {
  }
}
