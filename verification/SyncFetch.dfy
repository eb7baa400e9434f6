/**
 * `get_key` called by many threads, interleaved at every lock section.
 *
 * A thread's program counter names the next thing it does; between any two of its
 * steps other threads, and the async users of the same cache, may run.  A thread
 * leads at most one fetch, so the `threading.Event` it registers is identified with
 * the thread.
 */
module SyncFetch {
  import opened Wrappers
  import opened JwksStore

  type ThreadId = nat

  datatype Pc =
    | AtNegative                             // about to read the negative cache
    | AtEntry                                // about to read (and touch) the entry
    | AtJoin(need: Need)                     // about to look for a fetch in flight
    | InFetch(need: Need)                    // leader, inside `_fetch`
    | AtPop(need: Need, outcome: Outcome)    // leader, about to unregister its event
    | AtSet(need: Need, outcome: Outcome)    // leader, about to set its event
    | Waiting(need: Need, leader: ThreadId, since: real)
    | AtReread(need: Need)                   // follower, about to read what the leader stored
    | AtStore(keys: KeySet)                  // about to store a key set under its own `now`
    | AtStamp                                // about to record the kid as missing
    | Finished(answer: Answer)

  datatype Thread = Thread(url: Url, kid: Kid, now: real, pc: Pc)

  /**
   * `inflight` is `_inflight_sync`, `raised` the set of events that have been set.  `log`
   * and `ended` are history: the key sets successful fetches returned, by either path,
   * and how each leader's fetch ended.
   */
  datatype State = State(
    clock: real,
    store: Store,
    inflight: map<Url, ThreadId>,
    raised: set<ThreadId>,
    threads: map<ThreadId, Thread>,
    log: set<KeySet>,
    ended: map<ThreadId, Outcome>)

  const Initial: State := State(0.0, Empty, map[], {}, map[], {}, map[])

  datatype Event =
    | Tick(now: real)
    | Call(id: ThreadId, url: Url, kid: Kid)
    | Move(id: ThreadId)
    | HttpEnd(id: ThreadId, body: Body)
    | Wake(id: ThreadId)
    | AsyncFetches(keys: KeySet)            // a fetch of the async path succeeds
    | AsyncStores(url: Url, entry: Entry)   // the async path stores what it fetched
    | AsyncTouches(url: Url)                // or looks an entry up
    | AsyncStamps(url: Url, kid: Kid, at: real)  // or records a kid as missing

  /** Steps of threads and the passing of time, not steps of the asynchronous path. */
  predicate IsOwn(ev: Event) {
    ev.Tick? || ev.Call? || ev.Move? || ev.HttpEnd? || ev.Wake?
  }

  predicate Live(s: State, t: ThreadId) {
    t in s.threads && !s.threads[t].pc.Finished?
  }

  predicate Enabled(cfg: Config, s: State, ev: Event) {
    match ev
    case Tick(now) => now >= s.clock
    case Call(t, _, _) => t !in s.threads
    case Move(t) => Live(s, t) && !s.threads[t].pc.InFetch? && !s.threads[t].pc.Waiting?
    case HttpEnd(t, body) => Live(s, t) && s.threads[t].pc.InFetch? && Parsed(body)
    case Wake(t) =>
      && Live(s, t) && s.threads[t].pc.Waiting?
      && (s.threads[t].pc.leader in s.raised || s.clock >= s.threads[t].pc.since + cfg.httpTimeout + 1.0)
    case AsyncFetches(keys) => keys.completed == s.clock
    case AsyncStores(url, e) => SoundEntry(url, e, s.log)
    case AsyncTouches(_) => true
    case AsyncStamps(_, _, at) => at <= s.clock
  }

  function SetPc(s: State, t: ThreadId, pc: Pc): (r: State)
    requires t in s.threads
  {
    s.(threads := s.threads[t := s.threads[t].(pc := pc)])
  }

  /** The fetch, or the wait for one, gave nothing. */
  function AfterFailure(cfg: Config, need: Need, kid: Kid, now: real): (r: Pc) {
    if need.Probe? then AtStamp
    else if need.held.Some? && now - need.held.value.fetchedAt <= cfg.staleTtl then
      if kid in need.held.value.keys.byKid then Finished(Found(need.held.value.keys.byKid[kid])) else AtStamp
    else Finished(FetchFailed)
  }

  function AfterStore(keys: KeySet, kid: Kid): (r: Pc) {
    if kid in keys.byKid then Finished(Found(keys.byKid[kid])) else AtStamp
  }

  function AfterOpen(opening: Opening): (r: Pc) {
    match opening
    case Serve(key) => Finished(Found(key))
    case Fetch(need) => AtJoin(need)
  }

  /** Where a thread that is neither fetching nor waiting gets by its next step. */
  function NextPc(cfg: Config, s: State, t: ThreadId): (r: Pc)
    requires Enabled(cfg, s, Move(t))
  {
    var Thread(url, kid, now, pc) := s.threads[t];
    match pc
    case AtNegative => if Rejects(cfg, s.store, url, kid, now) then Finished(NegativeCached) else AtEntry
    case AtEntry => AfterOpen(Open(cfg, Lookup(s.store, url), kid, now))
    case AtJoin(need) => if url in s.inflight then Waiting(need, s.inflight[url], s.clock) else InFetch(need)
    case AtPop(need, o) => AtSet(need, o)
    case AtSet(need, o) => if o.Fetched? then AtStore(o.keys) else AfterFailure(cfg, need, kid, now)
    case AtReread(need) =>
      var entry := Lookup(s.store, url);
      if entry.Some? then AtStore(entry.value.keys) else AfterFailure(cfg, need, kid, now)
    case AtStore(keys) => AfterStore(keys, kid)
    case AtStamp => Finished(UnknownKid)
  }

  /** What the step does to what threads share. */
  function Effects(cfg: Config, s: State, t: ThreadId): (r: State)
    requires Enabled(cfg, s, Move(t))
    ensures r == s.(store := r.store, inflight := r.inflight, raised := r.raised)
  {
    var Thread(url, kid, now, pc) := s.threads[t];
    match pc
    case AtEntry => s.(store := Touch(s.store, url))
    case AtJoin(_) => if url in s.inflight then s else s.(inflight := s.inflight[url := t])
    case AtPop(_, _) => if url in s.inflight && s.inflight[url] == t then s.(inflight := s.inflight - {url}) else s
    case AtSet(_, _) => s.(raised := s.raised + {t})
    case AtStore(keys) => s.(store := Put(s.store, url, Entry(keys, now), cfg.maxUrls))
    case AtStamp => s.(store := Stamp(s.store, url, kid, now))
    case _ => s
  }

  function MoveThread(cfg: Config, s: State, t: ThreadId): (r: State)
    requires Enabled(cfg, s, Move(t))
  {
    SetPc(Effects(cfg, s, t), t, NextPc(cfg, s, t))
  }

  function HttpOutcome(s: State, t: ThreadId, body: Body): (r: Outcome)
    requires t in s.threads
  {
    if body.None? then Failed else Fetched(KeySet(body.value, s.threads[t].url, s.clock))
  }

  function EndHttp(s: State, t: ThreadId, body: Body): (r: State)
    requires Live(s, t) && s.threads[t].pc.InFetch?
  {
    var o := HttpOutcome(s, t, body);
    SetPc(s.(log := if o.Fetched? then s.log + {o.keys} else s.log, ended := s.ended[t := o]),
          t, AtPop(s.threads[t].pc.need, o))
  }

  function Step(cfg: Config, s: State, ev: Event): (r: State) {
    if !Enabled(cfg, s, ev) then s
    else
      match ev
      case Tick(now) => s.(clock := now)
      case Call(t, url, kid) => s.(threads := s.threads[t := Thread(url, kid, s.clock, AtNegative)])
      case Move(t) => MoveThread(cfg, s, t)
      case HttpEnd(t, body) => EndHttp(s, t, body)
      case Wake(t) => SetPc(s, t, AtReread(s.threads[t].pc.need))
      case AsyncFetches(keys) => s.(log := s.log + {keys})
      case AsyncStores(url, e) => s.(store := Put(s.store, url, e, cfg.maxUrls))
      case AsyncTouches(url) => s.(store := Touch(s.store, url))
      case AsyncStamps(url, kid, at) => s.(store := Stamp(s.store, url, kid, at))
  }

  function Exec(cfg: Config, s: State, evs: seq<Event>): (r: State) {
    if evs == [] then s else Step(cfg, Exec(cfg, s, evs[..|evs| - 1]), evs[|evs| - 1])
  }

  predicate Possible(cfg: Config, s: State, evs: seq<Event>) {
    evs == [] ||
    (Possible(cfg, s, evs[..|evs| - 1]) && Enabled(cfg, Exec(cfg, s, evs[..|evs| - 1]), evs[|evs| - 1]))
  }

  // ---------------------------------------------------------------------------
  // Coalescing
  // ---------------------------------------------------------------------------

  /** From registering the event to unregistering it; `_fetch` runs inside. */
  predicate Leads(pc: Pc) {
    pc.InFetch? || pc.AtPop?
  }

  /** The event of such a thread has not been set yet. */
  predicate Owes(pc: Pc) {
    Leads(pc) || pc.AtSet?
  }

  /** The thread has been a leader and has set its event. */
  predicate Past(pc: Pc) {
    pc.AtStore? || pc.AtStamp? || pc.Finished?
  }

  ghost predicate Flights(s: State) {
    && (forall u :: u in s.inflight ==>
         s.inflight[u] in s.threads && s.threads[s.inflight[u]].url == u && Leads(s.threads[s.inflight[u]].pc))
    && (forall t :: t in s.threads ==> Attached(s, t, s.threads[t]))
    && (forall t :: t in s.raised ==> t in s.threads && Past(s.threads[t].pc))
  }

  /** A leader is the registered one; a follower's unset event belongs to a thread that will set it. */
  ghost predicate Attached(s: State, t: ThreadId, thread: Thread) {
    && (Leads(thread.pc) ==> thread.url in s.inflight && s.inflight[thread.url] == t)
    && (thread.pc.Waiting? ==> Owed(s, thread.pc.leader, thread.url))
  }

  ghost predicate Owed(s: State, l: ThreadId, url: Url) {
    l in s.threads && s.threads[l].url == url && (l in s.raised || Owes(s.threads[l].pc))
  }

  /** A step of `t` alone, seen from the other threads. */
  lemma OthersStayAttached(s: State, r: State, t: ThreadId)
    requires Flights(s) && t in s.threads && t in r.threads && r.threads == s.threads[t := r.threads[t]]
    requires r.threads[t].url == s.threads[t].url
    requires s.raised <= r.raised
    requires Owes(s.threads[t].pc) ==> Owes(r.threads[t].pc) || t in r.raised
    requires r.inflight == s.inflight || (Leads(s.threads[t].pc) && r.inflight == s.inflight - {s.threads[t].url}) ||
      (s.threads[t].url !in s.inflight && r.inflight == s.inflight[s.threads[t].url := t])
    ensures forall x :: x in s.threads && x != t ==> Attached(r, x, r.threads[x])
  {
    forall x | x in s.threads && x != t ensures Attached(r, x, r.threads[x]) {
      assert Attached(s, x, s.threads[x]);
      assert Attached(s, t, s.threads[t]);
    }
  }

  /** A thread's move changes its own program counter and shared state, no other thread. */
  lemma MoveIsLocal(cfg: Config, s: State, t: ThreadId)
    requires Enabled(cfg, s, Move(t))
    ensures var r := MoveThread(cfg, s, t);
      && r.clock == s.clock && r.log == s.log && t in r.threads
      && r.threads == s.threads[t := s.threads[t].(pc := r.threads[t].pc)]
  {
  }

  /** A call's URL, kid and start time never change. */
  lemma StepKeepsCall(cfg: Config, s: State, ev: Event, t: ThreadId)
    requires Enabled(cfg, s, ev)
    ensures t in s.threads ==>
      t in Step(cfg, s, ev).threads && Step(cfg, s, ev).threads[t] ==
        s.threads[t].(pc := Step(cfg, s, ev).threads[t].pc)
  {
    if ev.Move? { MoveIsLocal(cfg, s, ev.id); }
  }

  /** The steps that read or write the map of fetches in flight, or set an event. */
  predicate Coordinates(pc: Pc) {
    pc.AtJoin? || pc.AtPop? || pc.AtSet?
  }

  lemma CoordinatingMoveFlights(cfg: Config, s: State, t: ThreadId)
    requires Flights(s) && Enabled(cfg, s, Move(t)) && Coordinates(s.threads[t].pc)
    ensures Flights(MoveThread(cfg, s, t))
  {
    var r := MoveThread(cfg, s, t);
    MoveIsLocal(cfg, s, t);
    assert Attached(s, t, s.threads[t]);
    OthersStayAttached(s, r, t);
    assert Attached(r, t, r.threads[t]);
  }

  lemma PrivateMove(cfg: Config, s: State, t: ThreadId)
    requires Enabled(cfg, s, Move(t)) && !Coordinates(s.threads[t].pc)
    ensures var r := MoveThread(cfg, s, t);
      && r.inflight == s.inflight && r.raised == s.raised
      && t in r.threads && !Owes(r.threads[t].pc) && !r.threads[t].pc.Waiting?
      && !Owes(s.threads[t].pc) && (Past(s.threads[t].pc) ==> Past(r.threads[t].pc))
  {
  }

  lemma MoveFlights(cfg: Config, s: State, t: ThreadId)
    requires Flights(s) && Enabled(cfg, s, Move(t))
    ensures Flights(MoveThread(cfg, s, t))
  {
    if Coordinates(s.threads[t].pc) {
      CoordinatingMoveFlights(cfg, s, t);
    } else {
      MoveIsLocal(cfg, s, t);
      PrivateMove(cfg, s, t);
      OthersStayAttached(s, MoveThread(cfg, s, t), t);
    }
  }

  lemma StepFlights(cfg: Config, s: State, ev: Event)
    requires Flights(s) && Enabled(cfg, s, ev)
    ensures Flights(Step(cfg, s, ev))
  {
    var r := Step(cfg, s, ev);
    match ev
    case Move(t) => MoveFlights(cfg, s, t);
    case HttpEnd(t, _) =>
      assert Attached(s, t, s.threads[t]);
      OthersStayAttached(s, r, t);
    case Wake(t) =>
      assert Attached(s, t, s.threads[t]);
      OthersStayAttached(s, r, t);
    case Call(t, _, _) =>
      forall x | x in r.threads ensures Attached(r, x, r.threads[x]) {
        if x != t { assert Attached(s, x, s.threads[x]); }
      }
    case _ =>
      forall x | x in r.threads ensures Attached(r, x, r.threads[x]) { assert Attached(s, x, s.threads[x]); }
  }

  lemma {:induction false} RunFlights(cfg: Config, s: State, evs: seq<Event>)
    requires Flights(s) && Possible(cfg, s, evs)
    ensures Flights(Exec(cfg, s, evs))
  {
    if evs != [] {
      RunFlights(cfg, s, evs[..|evs| - 1]);
      StepFlights(cfg, Exec(cfg, s, evs[..|evs| - 1]), evs[|evs| - 1]);
    }
  }

  /**
   * Coalescing over all thread interleavings and timeouts: at most one thread per URL
   * is inside `_fetch`, its event is the registered one and is not set, and the guard
   * before unregistering it holds.
   */
  lemma OneFetchPerUrl(cfg: Config, evs: seq<Event>, a: ThreadId, b: ThreadId)
    requires Possible(cfg, Initial, evs)
    requires var s := Exec(cfg, Initial, evs);
      && a in s.threads && b in s.threads && Leads(s.threads[a].pc) && Leads(s.threads[b].pc)
      && s.threads[a].url == s.threads[b].url
    ensures var s := Exec(cfg, Initial, evs);
      a == b && s.threads[a].url in s.inflight && s.inflight[s.threads[a].url] == a && a !in s.raised
  {
    RunFlights(cfg, Initial, evs);
    var s := Exec(cfg, Initial, evs);
    assert Attached(s, a, s.threads[a]) && Attached(s, b, s.threads[b]);
  }

  /** A waiting thread can wake, or its leader is still bound to set the event; it waits no longer than the timeout. */
  lemma NoThreadPinned(cfg: Config, evs: seq<Event>, t: ThreadId)
    requires Possible(cfg, Initial, evs)
    requires t in Exec(cfg, Initial, evs).threads && Exec(cfg, Initial, evs).threads[t].pc.Waiting?
    ensures var s := Exec(cfg, Initial, evs);
      var pc := s.threads[t].pc;
      && (Enabled(cfg, s, Wake(t)) ||
          (pc.leader in s.threads && s.threads[pc.leader].url == s.threads[t].url && Owes(s.threads[pc.leader].pc)))
      && (s.clock >= pc.since + cfg.httpTimeout + 1.0 ==> Enabled(cfg, s, Wake(t)))
  {
    RunFlights(cfg, Initial, evs);
    var s := Exec(cfg, Initial, evs);
    assert Attached(s, t, s.threads[t]);
  }

  // ---------------------------------------------------------------------------
  // What a leader gets
  // ---------------------------------------------------------------------------

  /** Where a thread can be whose own fetch has ended with `o`. */
  ghost predicate Led(thread: Thread, o: Outcome) {
    match thread.pc
    case AtPop(_, o') => o' == o
    case AtSet(_, o') => o' == o
    case AtStore(keys) => o == Fetched(keys)
    case AtStamp => o.Fetched? ==> thread.kid !in o.keys.byKid
    case Finished(answer) =>
      o.Fetched? ==> answer == if thread.kid in o.keys.byKid then Found(o.keys.byKid[thread.kid]) else UnknownKid
    case _ => false
  }

  /** `ended` records exactly the fetches that have ended, and their leaders live by them. */
  ghost predicate Leaders(s: State) {
    && (forall t :: t in s.ended ==> t in s.threads && Led(s.threads[t], s.ended[t]))
    && (forall t :: t in s.threads && (s.threads[t].pc.AtPop? || s.threads[t].pc.AtSet?) ==> t in s.ended)
  }

  lemma MoveLeaders(cfg: Config, s: State, t: ThreadId)
    requires Leaders(s) && Enabled(cfg, s, Move(t))
    ensures Leaders(MoveThread(cfg, s, t)) && MoveThread(cfg, s, t).ended == s.ended
  {
    MoveIsLocal(cfg, s, t);
    if t in s.ended { assert Led(s.threads[t], s.ended[t]); }
  }

  lemma StepLeaders(cfg: Config, s: State, ev: Event)
    requires Leaders(s) && Enabled(cfg, s, ev)
    ensures Leaders(Step(cfg, s, ev))
    ensures forall t :: t in s.ended ==> t in Step(cfg, s, ev).ended && Step(cfg, s, ev).ended[t] == s.ended[t]
  {
    if ev.Move? { MoveLeaders(cfg, s, ev.id); }
  }

  lemma {:induction false} RunLeaders(cfg: Config, s: State, evs: seq<Event>)
    requires Leaders(s) && Possible(cfg, s, evs)
    ensures Leaders(Exec(cfg, s, evs))
    ensures forall t :: t in s.ended ==> t in Exec(cfg, s, evs).ended && Exec(cfg, s, evs).ended[t] == s.ended[t]
  {
    if evs != [] {
      RunLeaders(cfg, s, evs[..|evs| - 1]);
      StepLeaders(cfg, Exec(cfg, s, evs[..|evs| - 1]), evs[|evs| - 1]);
    }
  }

  /**
   * A leader is never wronged: in every interleaving a thread whose own fetch returned a
   * key set finishes with that set's answer for its kid.
   */
  lemma LeaderGetsItsKeys(cfg: Config, evs: seq<Event>, t: ThreadId)
    requires Possible(cfg, Initial, evs)
    requires var s := Exec(cfg, Initial, evs);
      t in s.ended && s.ended[t].Fetched? && t in s.threads && s.threads[t].pc.Finished?
    ensures var s := Exec(cfg, Initial, evs);
      var byKid, kid := s.ended[t].keys.byKid, s.threads[t].kid;
      s.threads[t].pc.answer == if kid in byKid then Found(byKid[kid]) else UnknownKid
  {
    RunLeaders(cfg, Initial, evs);
    var s := Exec(cfg, Initial, evs);
    assert Led(s.threads[t], s.ended[t]);
  }

  // ---------------------------------------------------------------------------
  // Provenance
  // ---------------------------------------------------------------------------

  /** The key is `kid`'s in some key set fetched from `url`, at whatever time. */
  ghost predicate Genuine(url: Url, kid: Kid, key: Key, log: set<KeySet>) {
    exists ks :: FetchedBy(url, ks, log) && kid in ks.byKid && ks.byKid[kid] == key
  }

  ghost predicate GenuineNeed(url: Url, need: Need, log: set<KeySet>) {
    need.Refresh? && need.held.Some? ==> FetchedBy(url, need.held.value.keys, log)
  }

  ghost predicate GenuinePc(url: Url, kid: Kid, pc: Pc, log: set<KeySet>) {
    match pc
    case AtJoin(need) => GenuineNeed(url, need, log)
    case InFetch(need) => GenuineNeed(url, need, log)
    case AtPop(need, o) => GenuineNeed(url, need, log) && (o.Fetched? ==> FetchedBy(url, o.keys, log))
    case AtSet(need, o) => GenuineNeed(url, need, log) && (o.Fetched? ==> FetchedBy(url, o.keys, log))
    case Waiting(need, _, _) => GenuineNeed(url, need, log)
    case AtReread(need) => GenuineNeed(url, need, log)
    case AtStore(keys) => FetchedBy(url, keys, log)
    case Finished(answer) => answer.Found? ==> Genuine(url, kid, answer.key, log)
    case _ => true
  }

  ghost predicate GenuineStore(s: Store, log: set<KeySet>) {
    forall u :: u in s.entries ==> FetchedBy(u, s.entries[u].keys, log)
  }

  ghost predicate Provenance(cfg: Config, s: State) {
    && s.store.Valid(cfg.maxUrls) && GenuineStore(s.store, s.log)
    && (forall t :: t in s.threads ==> GenuinePc(s.threads[t].url, s.threads[t].kid, s.threads[t].pc, s.log))
  }

  lemma GenuineGrows(url: Url, kid: Kid, pc: Pc, log: set<KeySet>, more: set<KeySet>)
    requires GenuinePc(url, kid, pc, log) && log <= more
    ensures GenuinePc(url, kid, pc, more)
  {
    if pc.Finished? && pc.answer.Found? {
      var ks :| FetchedBy(url, ks, log) && kid in ks.byKid && ks.byKid[kid] == pc.answer.key;
      assert FetchedBy(url, ks, more);
    }
  }

  /** The thread that moved, and the store, have genuine keys only. */
  ghost predicate MovedGenuinely(cfg: Config, s: State, r: State, t: ThreadId) {
    && r.store.Valid(cfg.maxUrls) && GenuineStore(r.store, s.log) && t in r.threads
    && GenuinePc(r.threads[t].url, r.threads[t].kid, r.threads[t].pc, s.log)
  }

  lemma EntryIsGenuine(cfg: Config, s: State, t: ThreadId)
    requires Provenance(cfg, s) && Enabled(cfg, s, Move(t)) && s.threads[t].pc.AtEntry?
    ensures MovedGenuinely(cfg, s, MoveThread(cfg, s, t), t)
  {
    var url := s.threads[t].url;
    TouchKeeps(s.store, url, cfg.maxUrls);
    if url in s.store.entries { assert FetchedBy(url, s.store.entries[url].keys, s.log); }
  }

  lemma StoredIsGenuine(cfg: Config, s: State, t: ThreadId)
    requires cfg.Valid() && Provenance(cfg, s) && Enabled(cfg, s, Move(t)) && s.threads[t].pc.AtStore?
    ensures MovedGenuinely(cfg, s, MoveThread(cfg, s, t), t)
  {
    var Thread(url, kid, now, pc) := s.threads[t];
    assert GenuinePc(url, kid, pc, s.log);
    PutKeeps(s.store, url, Entry(pc.keys, now), cfg.maxUrls);
    assert FetchedBy(url, pc.keys, s.log);
  }

  lemma MoveProvenance(cfg: Config, s: State, t: ThreadId)
    requires cfg.Valid() && Provenance(cfg, s) && Enabled(cfg, s, Move(t))
    ensures MovedGenuinely(cfg, s, MoveThread(cfg, s, t), t)
  {
    assert GenuinePc(s.threads[t].url, s.threads[t].kid, s.threads[t].pc, s.log);
    match s.threads[t].pc
    case AtEntry => EntryIsGenuine(cfg, s, t);
    case AtStore(_) => StoredIsGenuine(cfg, s, t);
    case AtSet(need, o) => FailureIsGenuine(cfg, s.threads[t], need, s.log);
    case AtReread(need) => FailureIsGenuine(cfg, s.threads[t], need, s.log);
    case _ =>
  }

  lemma FailureIsGenuine(cfg: Config, thread: Thread, need: Need, log: set<KeySet>)
    requires GenuineNeed(thread.url, need, log)
    ensures GenuinePc(thread.url, thread.kid, AfterFailure(cfg, need, thread.kid, thread.now), log)
  {
    if need.Refresh? && need.held.Some? { assert FetchedBy(thread.url, need.held.value.keys, log); }
  }

  /** The threads that an event does not concern keep what they hold. */
  lemma OthersStayGenuine(cfg: Config, s: State, r: State, t: ThreadId)
    requires Provenance(cfg, s) && s.log <= r.log
    requires t in r.threads && r.threads == s.threads[t := r.threads[t]]
    requires r.store.Valid(cfg.maxUrls) && GenuineStore(r.store, r.log)
    requires GenuinePc(r.threads[t].url, r.threads[t].kid, r.threads[t].pc, r.log)
    ensures Provenance(cfg, r)
  {
    forall x | x in s.threads ensures GenuinePc(s.threads[x].url, s.threads[x].kid, s.threads[x].pc, r.log) {
      GenuineGrows(s.threads[x].url, s.threads[x].kid, s.threads[x].pc, s.log, r.log);
    }
  }

  /** Steps of the async path: more is known to have been fetched, and a fetched set may be stored. */
  lemma AsyncProvenance(cfg: Config, s: State, r: State)
    requires Provenance(cfg, s) && s.log <= r.log && r.threads == s.threads
    requires r.store.Valid(cfg.maxUrls) && GenuineStore(r.store, r.log)
    ensures Provenance(cfg, r)
  {
    forall x | x in s.threads ensures GenuinePc(s.threads[x].url, s.threads[x].kid, s.threads[x].pc, r.log) {
      GenuineGrows(s.threads[x].url, s.threads[x].kid, s.threads[x].pc, s.log, r.log);
    }
  }

  lemma MoveKeepsProvenance(cfg: Config, s: State, t: ThreadId)
    requires cfg.Valid() && Provenance(cfg, s) && Enabled(cfg, s, Move(t))
    ensures Provenance(cfg, MoveThread(cfg, s, t))
  {
    MoveProvenance(cfg, s, t);
    MoveIsLocal(cfg, s, t);
    OthersStayGenuine(cfg, s, MoveThread(cfg, s, t), t);
  }

  lemma StepProvenance(cfg: Config, s: State, ev: Event)
    requires cfg.Valid() && Provenance(cfg, s) && Enabled(cfg, s, ev)
    ensures Provenance(cfg, Step(cfg, s, ev))
  {
    var r := Step(cfg, s, ev);
    match ev
    case Tick(_) => AsyncProvenance(cfg, s, r);
    case AsyncFetches(_) => AsyncProvenance(cfg, s, r);
    case AsyncStores(url, e) =>
      PutKeeps(s.store, url, e, cfg.maxUrls);
      AsyncProvenance(cfg, s, r);
    case AsyncTouches(url) =>
      TouchKeeps(s.store, url, cfg.maxUrls);
      AsyncProvenance(cfg, s, r);
    case AsyncStamps(_, _, _) => AsyncProvenance(cfg, s, r);
    case Call(t, _, _) => OthersStayGenuine(cfg, s, r, t);
    case Move(t) => MoveKeepsProvenance(cfg, s, t);
    case HttpEnd(t, _) =>
      GenuineGrows(s.threads[t].url, s.threads[t].kid, s.threads[t].pc, s.log, r.log);
      OthersStayGenuine(cfg, s, r, t);
    case Wake(t) => OthersStayGenuine(cfg, s, r, t);
  }

  lemma {:induction false} RunProvenance(cfg: Config, s: State, evs: seq<Event>)
    requires cfg.Valid() && Provenance(cfg, s) && Possible(cfg, s, evs)
    ensures Provenance(cfg, Exec(cfg, s, evs))
  {
    if evs != [] {
      RunProvenance(cfg, s, evs[..|evs| - 1]);
      StepProvenance(cfg, Exec(cfg, s, evs[..|evs| - 1]), evs[|evs| - 1]);
    }
  }

  /**
   * Provenance in every interleaving, timeouts and followers included: whatever is
   * stored for a URL, and whatever key is returned for it, came from a successful fetch
   * of that URL, and the cache never exceeds its cap.
   */
  lemma OnlyGenuineKeys(cfg: Config, evs: seq<Event>, t: ThreadId)
    requires cfg.Valid() && Possible(cfg, Initial, evs) && t in Exec(cfg, Initial, evs).threads
    ensures var s := Exec(cfg, Initial, evs);
      && GenuineStore(s.store, s.log) && |s.store.order| <= cfg.maxUrls
      && (s.threads[t].pc.Finished? && s.threads[t].pc.answer.Found? ==>
           Genuine(s.threads[t].url, s.threads[t].kid, s.threads[t].pc.answer.key, s.log))
  {
    RunProvenance(cfg, Initial, evs);
    var s := Exec(cfg, Initial, evs);
    assert GenuinePc(s.threads[t].url, s.threads[t].kid, s.threads[t].pc, s.log);
  }

  // ---------------------------------------------------------------------------
  // What a continuation keeps
  // ---------------------------------------------------------------------------

  /** Time and log grow, what is fetched from now on completes from now on, and calls stay as they were made. */
  ghost predicate Continues(s: State, r: State) {
    && s.clock <= r.clock && s.log <= r.log
    && (forall ks :: ks in r.log && ks !in s.log ==> ks.completed >= s.clock)
    && (forall t :: t in s.threads ==> t in r.threads && r.threads[t] == s.threads[t].(pc := r.threads[t].pc))
  }

  lemma StepContinues(cfg: Config, s: State, ev: Event)
    requires Enabled(cfg, s, ev)
    ensures Continues(s, Step(cfg, s, ev))
  {
    forall t | t in s.threads
      ensures t in Step(cfg, s, ev).threads &&
        Step(cfg, s, ev).threads[t] == s.threads[t].(pc := Step(cfg, s, ev).threads[t].pc)
    {
      StepKeepsCall(cfg, s, ev, t);
    }
    if ev.Move? { MoveIsLocal(cfg, s, ev.id); }
  }

  lemma {:induction false} ExecContinues(cfg: Config, s: State, evs: seq<Event>)
    requires Possible(cfg, s, evs)
    ensures Continues(s, Exec(cfg, s, evs))
  {
    if evs != [] {
      ExecContinues(cfg, s, evs[..|evs| - 1]);
      StepContinues(cfg, Exec(cfg, s, evs[..|evs| - 1]), evs[|evs| - 1]);
    }
  }

  ghost predicate Started(s: State) {
    forall t :: t in s.threads ==> s.threads[t].now <= s.clock
  }

  lemma StepStarted(cfg: Config, s: State, ev: Event)
    requires Enabled(cfg, s, ev) && Started(s)
    ensures Started(Step(cfg, s, ev))
  {
    StepContinues(cfg, s, ev);
    if ev.Move? { MoveIsLocal(cfg, s, ev.id); }
    forall t | t in Step(cfg, s, ev).threads ensures Step(cfg, s, ev).threads[t].now <= Step(cfg, s, ev).clock {
      if t in s.threads { StepKeepsCall(cfg, s, ev, t); }
    }
  }

  lemma {:induction false} RunStarted(cfg: Config, evs: seq<Event>)
    requires Possible(cfg, Initial, evs)
    ensures Started(Exec(cfg, Initial, evs))
  {
    if evs != [] {
      RunStarted(cfg, evs[..|evs| - 1]);
      StepStarted(cfg, Exec(cfg, Initial, evs[..|evs| - 1]), evs[|evs| - 1]);
    }
  }
}
