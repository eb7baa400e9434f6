/**
 * How old a key served by the threaded `get_key` may be, as long as its URL's stores are
 * honest.
 *
 * A leader stores what it fetched only after it has set its event, so a follower that
 * wakes re-reads whatever entry is there and stores it again under its own start time.
 * This module proves the age bound, URL by URL, for every run in which no thread does
 * that to the URL with keys fetched before its call, and in particular for every run in
 * which no thread waits for that URL.  What happens otherwise is the subject of
 * `SyncFollowers`.
 */
module SyncAge {
  import opened Wrappers
  import opened JwksStore
  import opened SyncFetch

  /** The event stores, for the URL, a key set fetched before the storing call began. */
  predicate Backdated(s: State, ev: Event, url: Url) {
    ev.Move? && ev.id in s.threads && s.threads[ev.id].url == url && s.threads[ev.id].pc.AtStore? &&
    s.threads[ev.id].pc.keys.completed < s.threads[ev.id].now
  }

  /** No store that the run makes for the URL is of that kind. */
  predicate HonestStores(cfg: Config, evs: seq<Event>, url: Url) {
    evs == [] ||
    (HonestStores(cfg, evs[..|evs| - 1], url) && !Backdated(Exec(cfg, Initial, evs[..|evs| - 1]), evs[|evs| - 1], url))
  }

  // ---------------------------------------------------------------------------
  // The bound
  // ---------------------------------------------------------------------------

  ghost predicate SoundPc(cfg: Config, thread: Thread, log: set<KeySet>) {
    var Thread(url, kid, now, pc) := thread;
    match pc
    case AtJoin(need) => SoundNeed(url, need, log)
    case InFetch(need) => SoundNeed(url, need, log)
    case AtPop(need, o) => SoundNeed(url, need, log) && (o.Fetched? ==> FetchedBy(url, o.keys, log))
    case AtSet(need, o) => SoundNeed(url, need, log) && (o.Fetched? ==> FetchedBy(url, o.keys, log))
    case Waiting(need, _, _) => SoundNeed(url, need, log)
    case AtReread(need) => SoundNeed(url, need, log)
    case AtStore(keys) => FetchedBy(url, keys, log)
    case Finished(answer) => VouchedAnswer(url, kid, answer, log, now - cfg.AgeBound())
    case _ => true
  }

  /** The URL's entry, if there is one, is sound. */
  ghost predicate SoundAt(s: Store, url: Url, log: set<KeySet>) {
    url in s.entries ==> SoundEntry(url, s.entries[url], log)
  }

  ghost predicate AgeSound(cfg: Config, s: State, url: Url) {
    && s.store.Valid(cfg.maxUrls) && SoundAt(s.store, url, s.log)
    && (forall t :: t in s.threads && s.threads[t].url == url ==> SoundPc(cfg, s.threads[t], s.log))
  }

  lemma SoundPcGrows(cfg: Config, thread: Thread, log: set<KeySet>, more: set<KeySet>)
    requires SoundPc(cfg, thread, log) && log <= more
    ensures SoundPc(cfg, thread, more)
  {
    if thread.pc.Finished? {
      VouchedGrows(thread.url, thread.kid, thread.pc.answer, log, more, thread.now - cfg.AgeBound());
    }
  }

  lemma FailureIsSound(cfg: Config, thread: Thread, need: Need, log: set<KeySet>)
    requires SoundNeed(thread.url, need, log)
    ensures SoundPc(cfg, thread.(pc := AfterFailure(cfg, need, thread.kid, thread.now)), log)
  {
    if need.Refresh? && need.held.Some? { assert FetchedBy(thread.url, need.held.value.keys, log); }
  }

  /** The mover, and the URL's entry, are sound after the move. */
  ghost predicate MovedSoundly(cfg: Config, s: State, r: State, t: ThreadId) {
    && r.store.Valid(cfg.maxUrls) && t in r.threads
    && SoundAt(r.store, r.threads[t].url, s.log) && SoundPc(cfg, r.threads[t], s.log)
  }

  lemma EntryAge(cfg: Config, s: State, t: ThreadId)
    requires cfg.Valid() && Enabled(cfg, s, Move(t)) && AgeSound(cfg, s, s.threads[t].url) && s.threads[t].pc.AtEntry?
    ensures MovedSoundly(cfg, s, MoveThread(cfg, s, t), t)
  {
    var thread := s.threads[t];
    TouchKeeps(s.store, thread.url, cfg.maxUrls);
    OpenIsSound(cfg, thread.url, Lookup(s.store, thread.url), thread.kid, thread.now, s.log);
  }

  lemma StoreAge(cfg: Config, s: State, t: ThreadId)
    requires cfg.Valid() && Enabled(cfg, s, Move(t)) && AgeSound(cfg, s, s.threads[t].url) && s.threads[t].pc.AtStore?
    requires !Backdated(s, Move(t), s.threads[t].url)
    ensures MovedSoundly(cfg, s, MoveThread(cfg, s, t), t)
  {
    var thread := s.threads[t];
    assert SoundPc(cfg, thread, s.log);
    PutKeeps(s.store, thread.url, Entry(thread.pc.keys, thread.now), cfg.maxUrls);
    assert FetchedBy(thread.url, thread.pc.keys, s.log);
  }

  lemma MoveAge(cfg: Config, s: State, t: ThreadId)
    requires cfg.Valid() && Enabled(cfg, s, Move(t)) && AgeSound(cfg, s, s.threads[t].url)
    requires !Backdated(s, Move(t), s.threads[t].url)
    ensures MovedSoundly(cfg, s, MoveThread(cfg, s, t), t)
  {
    var thread := s.threads[t];
    assert SoundPc(cfg, thread, s.log);
    match thread.pc
    case AtEntry => EntryAge(cfg, s, t);
    case AtStore(_) => StoreAge(cfg, s, t);
    case AtSet(need, o) => FailureIsSound(cfg, thread, need, s.log);
    case AtReread(need) => FailureIsSound(cfg, thread, need, s.log);
    case _ =>
  }

  /** What a move does to the entries of other URLs: it may evict them. */
  lemma MoveElsewhere(cfg: Config, s: State, t: ThreadId, url: Url)
    requires cfg.Valid() && s.store.Valid(cfg.maxUrls) && Enabled(cfg, s, Move(t)) && s.threads[t].url != url
    ensures var r := MoveThread(cfg, s, t);
      && r.store.Valid(cfg.maxUrls)
      && (url in r.store.entries ==> url in s.store.entries && r.store.entries[url] == s.store.entries[url])
  {
    var thread := s.threads[t];
    TouchKeeps(s.store, thread.url, cfg.maxUrls);
    if thread.pc.AtStore? { PutKeeps(s.store, thread.url, Entry(thread.pc.keys, thread.now), cfg.maxUrls); }
  }

  lemma OthersStaySound(cfg: Config, s: State, r: State, t: ThreadId, url: Url)
    requires AgeSound(cfg, s, url) && s.log <= r.log
    requires t in r.threads && r.threads == s.threads[t := r.threads[t]]
    requires r.store.Valid(cfg.maxUrls) && SoundAt(r.store, url, r.log)
    requires r.threads[t].url == url ==> SoundPc(cfg, r.threads[t], r.log)
    ensures AgeSound(cfg, r, url)
  {
    forall x | x in s.threads && s.threads[x].url == url ensures SoundPc(cfg, s.threads[x], r.log) {
      SoundPcGrows(cfg, s.threads[x], s.log, r.log);
    }
  }

  lemma MoveKeepsAge(cfg: Config, s: State, t: ThreadId, url: Url)
    requires cfg.Valid() && AgeSound(cfg, s, url) && Enabled(cfg, s, Move(t)) && !Backdated(s, Move(t), url)
    ensures AgeSound(cfg, MoveThread(cfg, s, t), url)
  {
    MoveIsLocal(cfg, s, t);
    if s.threads[t].url == url { MoveAge(cfg, s, t); } else { MoveElsewhere(cfg, s, t, url); }
    OthersStaySound(cfg, s, MoveThread(cfg, s, t), t, url);
  }

  lemma StepAge(cfg: Config, s: State, ev: Event, url: Url)
    requires cfg.Valid() && AgeSound(cfg, s, url) && Enabled(cfg, s, ev) && !Backdated(s, ev, url)
    ensures AgeSound(cfg, Step(cfg, s, ev), url)
  {
    var r := Step(cfg, s, ev);
    match ev
    case Tick(_) =>
    case AsyncFetches(_) =>
      forall x | x in s.threads && s.threads[x].url == url ensures SoundPc(cfg, s.threads[x], r.log) {
        SoundPcGrows(cfg, s.threads[x], s.log, r.log);
      }
    case AsyncStores(u, e) => PutKeeps(s.store, u, e, cfg.maxUrls);
    case AsyncTouches(u) => TouchKeeps(s.store, u, cfg.maxUrls);
    case AsyncStamps(_, _, _) =>
    case Call(t, _, _) => OthersStaySound(cfg, s, r, t, url);
    case Move(t) => MoveKeepsAge(cfg, s, t, url);
    case HttpEnd(t, _) =>
      if s.threads[t].url == url { SoundPcGrows(cfg, s.threads[t], s.log, r.log); }
      OthersStaySound(cfg, s, r, t, url);
    case Wake(t) =>
      if s.threads[t].url == url { assert SoundPc(cfg, s.threads[t], s.log); }
      OthersStaySound(cfg, s, r, t, url);
  }

  lemma {:induction false} RunAge(cfg: Config, evs: seq<Event>, url: Url)
    requires cfg.Valid() && Possible(cfg, Initial, evs) && HonestStores(cfg, evs, url)
    ensures AgeSound(cfg, Exec(cfg, Initial, evs), url)
  {
    if evs != [] {
      RunAge(cfg, evs[..|evs| - 1], url);
      StepAge(cfg, Exec(cfg, Initial, evs[..|evs| - 1]), evs[|evs| - 1], url);
    }
  }

  /**
   * The age bound for threads: in a run whose stores for a URL are honest, whatever is
   * stored for other URLs, every key returned for it comes from a fetch of it completed no
   * earlier than max(cache_ttl, stale_ttl) before the call began.
   */
  lemma SyncAgeBound(cfg: Config, evs: seq<Event>, t: ThreadId)
    requires cfg.Valid() && Possible(cfg, Initial, evs)
    requires t in Exec(cfg, Initial, evs).threads && Exec(cfg, Initial, evs).threads[t].pc.Finished?
    requires HonestStores(cfg, evs, Exec(cfg, Initial, evs).threads[t].url)
    ensures var s := Exec(cfg, Initial, evs);
      var thread := s.threads[t];
      VouchedAnswer(thread.url, thread.kid, thread.pc.answer, s.log, thread.now - cfg.AgeBound())
  {
    var s := Exec(cfg, Initial, evs);
    RunAge(cfg, evs, s.threads[t].url);
    assert SoundPc(cfg, s.threads[t], s.log);
  }

  // ---------------------------------------------------------------------------
  // Runs in which nobody waits
  // ---------------------------------------------------------------------------

  ghost predicate NoWaiter(s: State, url: Url) {
    forall t :: t in s.threads && s.threads[t].url == url ==> !s.threads[t].pc.Waiting?
  }

  /** At no point of the run does a thread wait for another one's fetch of the URL. */
  ghost predicate NobodyWaits(cfg: Config, evs: seq<Event>, url: Url) {
    && NoWaiter(Exec(cfg, Initial, evs), url)
    && (evs == [] || NobodyWaits(cfg, evs[..|evs| - 1], url))
  }

  /** The key set a thread is about to hand on was fetched after its call began. */
  ghost predicate OwnFetch(thread: Thread) {
    match thread.pc
    case AtPop(_, o) => o.Fetched? ==> o.keys.completed >= thread.now
    case AtSet(_, o) => o.Fetched? ==> o.keys.completed >= thread.now
    case AtStore(keys) => keys.completed >= thread.now
    case AtReread(_) => false
    case Waiting(_, _, _) => false
    case _ => true
  }

  ghost predicate AllOwn(s: State, url: Url) {
    forall t :: t in s.threads && s.threads[t].url == url ==> OwnFetch(s.threads[t]) && s.threads[t].now <= s.clock
  }

  lemma StepOwnFetch(cfg: Config, s: State, ev: Event, t: ThreadId)
    requires Enabled(cfg, s, ev) && t in Step(cfg, s, ev).threads && !Step(cfg, s, ev).threads[t].pc.Waiting?
    requires t in s.threads ==> OwnFetch(s.threads[t]) && s.threads[t].now <= s.clock
    ensures OwnFetch(Step(cfg, s, ev).threads[t]) && Step(cfg, s, ev).threads[t].now <= Step(cfg, s, ev).clock
  {
    if ev.Move? { MoveIsLocal(cfg, s, ev.id); }
  }

  lemma {:induction false} OwnFetches(cfg: Config, evs: seq<Event>, url: Url)
    requires Possible(cfg, Initial, evs) && NobodyWaits(cfg, evs, url)
    ensures AllOwn(Exec(cfg, Initial, evs), url)
  {
    if evs != [] {
      OwnFetches(cfg, evs[..|evs| - 1], url);
      var s, ev := Exec(cfg, Initial, evs[..|evs| - 1]), evs[|evs| - 1];
      forall t | t in Step(cfg, s, ev).threads && Step(cfg, s, ev).threads[t].url == url
        ensures OwnFetch(Step(cfg, s, ev).threads[t]) && Step(cfg, s, ev).threads[t].now <= Step(cfg, s, ev).clock
      {
        StepKeepsCall(cfg, s, ev, t);
        StepOwnFetch(cfg, s, ev, t);
      }
    }
  }

  /** If nobody waits for a URL all its stores are honest, so the age bound holds for it. */
  lemma {:induction false} NobodyWaitsIsHonest(cfg: Config, evs: seq<Event>, url: Url)
    requires Possible(cfg, Initial, evs) && NobodyWaits(cfg, evs, url)
    ensures HonestStores(cfg, evs, url)
  {
    if evs != [] {
      NobodyWaitsIsHonest(cfg, evs[..|evs| - 1], url);
      OwnFetches(cfg, evs[..|evs| - 1], url);
    }
  }
}
