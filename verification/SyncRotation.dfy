/**
 * Key rotation under every interleaving of threads that do not wait for one another.
 *
 * Threads that do wait can miss it: see `SyncFollowers.RotationCanBeMissed`.
 */
module SyncRotation {
  import opened Wrappers
  import opened JwksStore
  import opened SyncFetch
  import SyncAge

  /**
   * At `since` or later, a fetch of the URL that ends returns the kid, and the asynchronous
   * path records no call as having missed it.
   */
  predicate Yields(s: State, ev: Event, url: Url, kid: Kid, since: real) {
    match ev
    case HttpEnd(t, body) =>
      t in s.threads && s.threads[t].url == url && s.clock >= since ==> body.Some? && kid in body.value
    case AsyncStamps(u, k, at) => u == url && k == kid ==> at < since
    case _ => true
  }

  predicate RotatedIn(cfg: Config, evs: seq<Event>, url: Url, kid: Kid, since: real) {
    evs == [] ||
    (RotatedIn(cfg, evs[..|evs| - 1], url, kid, since) &&
      Yields(Exec(cfg, Initial, evs[..|evs| - 1]), evs[|evs| - 1], url, kid, since))
  }

  /** A call that began since the rotation, and leads its own fetch if any, has found the kid or will. */
  predicate Finds(cfg: Config, thread: Thread, kid: Kid, since: real) {
    match thread.pc
    case AtPop(_, o) => HasKid(o, kid)
    case AtSet(_, o) => HasKid(o, kid)
    case AtStore(keys) => kid in keys.byKid
    case AtStamp => thread.kid != kid
    case Waiting(_, _, _) => false
    case AtReread(_) => false
    case Finished(answer) => thread.kid == kid ==>
      answer.Found? || (answer.NegativeCached? && thread.now < since + cfg.unknownKidTtl)
    case _ => true
  }

  ghost predicate Visible(cfg: Config, s: State, url: Url, kid: Kid, since: real) {
    && NoStampSince(s.store, url, kid, since)
    && (forall t :: t in s.threads ==> s.threads[t].now <= s.clock)
    && (forall t :: t in s.threads && s.threads[t].url == url && s.threads[t].now >= since ==>
        Finds(cfg, s.threads[t], kid, since))
  }

  /** A thread's move writes a stamp only at the end of a call that found nothing, and only its own. */
  lemma MoveStamps(cfg: Config, s: State, t: ThreadId, url: Url, kid: Kid)
    requires Enabled(cfg, s, Move(t))
    ensures MissedAt(MoveThread(cfg, s, t).store, url, kid) ==
      if s.threads[t].pc.AtStamp? && s.threads[t].url == url && s.threads[t].kid == kid then Some(s.threads[t].now)
      else MissedAt(s.store, url, kid)
  {
    StampAt(s.store, s.threads[t].url, s.threads[t].kid, s.threads[t].now, url, kid);
  }

  lemma MoveFinds(cfg: Config, s: State, t: ThreadId, url: Url, kid: Kid, since: real)
    requires cfg.Valid() && NoStampSince(s.store, url, kid, since) && Enabled(cfg, s, Move(t))
    requires s.threads[t].url == url && s.threads[t].now >= since && Finds(cfg, s.threads[t], kid, since)
    ensures var r := MoveThread(cfg, s, t);
      t in r.threads && (!r.threads[t].pc.Waiting? ==> Finds(cfg, r.threads[t], kid, since))
  {
  }

  lemma StepVisible(cfg: Config, s: State, ev: Event, url: Url, kid: Kid, since: real)
    requires cfg.Valid() && Visible(cfg, s, url, kid, since) && Enabled(cfg, s, ev) && Yields(s, ev, url, kid, since)
    requires SyncAge.NoWaiter(s, url) && SyncAge.NoWaiter(Step(cfg, s, ev), url)
    ensures Visible(cfg, Step(cfg, s, ev), url, kid, since)
  {
    if ev.Move? {
      MoveIsLocal(cfg, s, ev.id);
      MoveStamps(cfg, s, ev.id, url, kid);
      if s.threads[ev.id].url == url && s.threads[ev.id].now >= since { MoveFinds(cfg, s, ev.id, url, kid, since); }
    }
  }

  lemma {:induction false} RunVisible(cfg: Config, evs: seq<Event>, url: Url, kid: Kid, since: real)
    requires cfg.Valid() && Possible(cfg, Initial, evs) && SyncAge.NobodyWaits(cfg, evs, url)
    requires RotatedIn(cfg, evs, url, kid, since)
    ensures Visible(cfg, Exec(cfg, Initial, evs), url, kid, since)
  {
    if evs != [] {
      RunVisible(cfg, evs[..|evs| - 1], url, kid, since);
      StepVisible(cfg, Exec(cfg, Initial, evs[..|evs| - 1]), evs[|evs| - 1], url, kid, since);
    }
  }

  /**
   * Key rotation without waiting: if every fetch of the URL that ends at `since` or later
   * returns the kid, and no thread waits for another one's fetch of it, every call for the
   * kid that starts at least `unknown_kid_ttl` after `since` finishes with a key.
   */
  lemma SyncRotationBecomesVisible(cfg: Config, evs: seq<Event>, t: ThreadId, since: real)
    requires cfg.Valid() && Possible(cfg, Initial, evs)
    requires var s := Exec(cfg, Initial, evs);
      && t in s.threads && s.threads[t].pc.Finished? && s.threads[t].now >= since + cfg.unknownKidTtl
      && SyncAge.NobodyWaits(cfg, evs, s.threads[t].url)
      && RotatedIn(cfg, evs, s.threads[t].url, s.threads[t].kid, since)
    ensures Exec(cfg, Initial, evs).threads[t].pc.answer.Found?
  {
    var s := Exec(cfg, Initial, evs);
    RunVisible(cfg, evs, s.threads[t].url, s.threads[t].kid, since);
    assert Finds(cfg, s.threads[t], s.threads[t].kid, since);
  }
}
