/**
 * The userinfo clients under every interleaving of their callers.
 *
 * `SyncUserinfoClient` (`locked`) takes the lock in `invalidate` too, and its threads
 * may run at any point.  `UserinfoClient` (not `locked`) invalidates without the lock,
 * and its tasks are interrupted only while they await, so nothing comes between a
 * response and the cache write that follows it.
 */
module UserinfoProtocol {
  import opened Wrappers
  import opened UserKeys
  import opened UserinfoStore
  import opened UserinfoClient

  type PartyId = nat

  datatype Pc =
    | Starting                                    // about to look at the cache without the lock
    | Queued                                      // waiting for the lock
    | Holding                                     // has the lock, about to look again
    | Requesting(requested: nat, began: real)     // has the lock, HTTP request on its way
    | Writing(entry: Entry)                       // has the lock, about to write the cache
    | Answered(answer: Answer, seen: nat)         // when the log had this length
    | Aborted
    | InvalidateQueued                            // an invalidation waiting for the lock
    | Scanning(acquired: nat, todo: set<string>)  // has the lock, keys still to visit
    | InvalidateDone(acquired: nat, returned: nat)

  /**
   * A call: `fetch` for a user, a token prefix and a ttl, or `invalidate` for a user.
   * `started` and `logged` are history: how many events, and how many records in the log,
   * there were when it began.
   */
  datatype Party = Party(user: int, prefix: string, ttl: real, now: real, started: nat, logged: nat, pc: Pc)

  /**
   * `steps` counts events, so it dates them; `log` records, in order, the responses
   * stored and the invalidations.
   */
  datatype State = State(
    clock: real, steps: nat, cache: Cache, lock: Option<PartyId>, parties: map<PartyId, Party>, log: seq<Record>)

  const Initial: State := State(0.0, 0, map[], None, map[], [])

  datatype Event =
    | Tick(now: real)
    | CallFetch(id: PartyId, user: int, prefix: string, ttl: real)
    | Look(id: PartyId)
    | Acquire(id: PartyId)
    | LookAgain(id: PartyId)
    | Respond(id: PartyId, body: Option<Body>)   // None: the request failed
    | Write(id: PartyId)
    | Abort(id: PartyId)                         // cancelled, or an exception leaves `fetch`
    | CallInvalidate(id: PartyId, user: int)
    | Visit(id: PartyId, key: string)
    | Release(id: PartyId)
    | InvalidateNow(user: int)                   // the asynchronous client's `invalidate`

  predicate Holds(pc: Pc) {
    pc.Holding? || pc.Requesting? || pc.Writing? || pc.Scanning?
  }

  predicate At(s: State, t: PartyId, p: Pc -> bool) {
    t in s.parties && p(s.parties[t].pc)
  }

  /** Without threads, a party that has its response writes it before anything else happens. */
  predicate Undisturbed(locked: bool, s: State, ev: Event) {
    !locked && s.lock.Some? && At(s, s.lock.value, (pc: Pc) => pc.Writing?) ==> ev == Write(s.lock.value)
  }

  predicate Enabled(locked: bool, s: State, ev: Event) {
    && Undisturbed(locked, s, ev)
    && match ev
       case Tick(now) => now >= s.clock
       case CallFetch(t, _, _, _) => t !in s.parties
       case Look(t) => At(s, t, (pc: Pc) => pc.Starting?)
       case Acquire(t) => s.lock.None? && At(s, t, (pc: Pc) => pc.Queued? || pc.InvalidateQueued?)
       case LookAgain(t) => At(s, t, (pc: Pc) => pc.Holding?)
       case Respond(t, _) => At(s, t, (pc: Pc) => pc.Requesting?)
       case Write(t) => At(s, t, (pc: Pc) => pc.Writing?)
       case Abort(t) => At(s, t, (pc: Pc) => pc.Queued? || pc.Requesting?)
       case CallInvalidate(t, _) => locked && t !in s.parties
       case Visit(t, k) => At(s, t, (pc: Pc) => pc.Scanning? && k in pc.todo)
       case Release(t) => At(s, t, (pc: Pc) => pc.Scanning? && pc.todo == {})
       case InvalidateNow(_) => !locked
  }

  function SetPc(s: State, t: PartyId, pc: Pc): (r: State)
    requires t in s.parties
  {
    s.(parties := s.parties[t := s.parties[t].(pc := pc)])
  }

  function Key(p: Party): string {
    CacheKey(p.user, p.prefix)
  }

  /** The party leaves the lock free and is in `pc`. */
  function Leave(s: State, t: PartyId, pc: Pc): (r: State)
    requires t in s.parties
  {
    SetPc(s.(lock := None), t, pc)
  }

  /** What an enabled event does, apart from being counted. */
  function Act(locked: bool, s: State, ev: Event): (r: State)
    requires Enabled(locked, s, ev)
  {
    match ev
    case Tick(now) => s.(clock := now)
    case CallFetch(t, user, prefix, ttl) =>
      s.(parties := s.parties[t := Party(user, prefix, ttl, s.clock, s.steps, |s.log|, Starting)])
    case Look(t) =>
      var p := s.parties[t];
      var hit := Hit(s.cache, Key(p), p.ttl, p.now);
      SetPc(s, t, if hit.Some? then Answered(Cached(hit.value), |s.log|) else Queued)
    case Acquire(t) =>
      var p := s.parties[t];
      if p.pc.Queued? then SetPc(s.(lock := Some(t)), t, Holding)
      else SetPc(s.(lock := Some(t), log := s.log + [Dropped(p.user)]), t, Scanning(s.steps, s.cache.Keys))
    case LookAgain(t) =>
      var p := s.parties[t];
      var hit := Hit(s.cache, Key(p), p.ttl, p.now);
      if hit.Some? then Leave(s, t, Answered(Cached(hit.value), |s.log|)) else SetPc(s, t, Requesting(s.steps, s.clock))
    case Respond(t, body) =>
      var p := s.parties[t];
      if body.None? then Leave(s, t, Answered(Fallback, |s.log|))
      else SetPc(s, t, Writing(Entry(s.clock + p.ttl,
        Response(body.value, p.user, p.prefix, p.pc.requested, p.pc.began, s.clock, p.ttl))))
    case Write(t) =>
      var p := s.parties[t];
      var e := p.pc.entry;
      Leave(s.(cache := s.cache[Key(p) := e], log := s.log + [Stored(e.payload)]), t, Answered(Own(e.payload), |s.log|))
    case Abort(t) =>
      if s.parties[t].pc.Queued? then SetPc(s, t, Aborted) else Leave(s, t, Aborted)
    case CallInvalidate(t, user) =>
      s.(parties := s.parties[t := Party(user, "", 0.0, s.clock, s.steps, |s.log|, InvalidateQueued)])
    case Visit(t, k) =>
      var p := s.parties[t];
      SetPc(s.(cache := if UserPrefix(p.user) <= k then s.cache - {k} else s.cache), t,
            Scanning(p.pc.acquired, p.pc.todo - {k}))
    case Release(t) => Leave(s, t, InvalidateDone(s.parties[t].pc.acquired, s.steps))
    case InvalidateNow(user) => s.(cache := Invalidated(s.cache, user), log := s.log + [Dropped(user)])
  }

  function Step(locked: bool, s: State, ev: Event): (r: State) {
    if Enabled(locked, s, ev) then Act(locked, s, ev).(steps := s.steps + 1) else s
  }

  function Exec(locked: bool, s: State, evs: seq<Event>): (r: State) {
    if evs == [] then s else Step(locked, Exec(locked, s, evs[..|evs| - 1]), evs[|evs| - 1])
  }

  predicate Possible(locked: bool, s: State, evs: seq<Event>) {
    evs == [] ||
    (Possible(locked, s, evs[..|evs| - 1]) && Enabled(locked, Exec(locked, s, evs[..|evs| - 1]), evs[|evs| - 1]))
  }

  /** The only party an event moves. */
  function Actor(ev: Event): (r: Option<PartyId>) {
    if ev.Tick? || ev.InvalidateNow? then None else Some(ev.id)
  }

  /** An event moves one party, and nothing a party was called with ever changes. */
  lemma StepIsLocal(locked: bool, s: State, ev: Event, t: PartyId)
    requires Enabled(locked, s, ev) && t in s.parties
    ensures var r := Step(locked, s, ev);
      && t in r.parties && r.parties[t] == s.parties[t].(pc := r.parties[t].pc)
      && (Actor(ev) != Some(t) ==> r.parties[t] == s.parties[t])
  {
  }

  /** New parties come only from calls, at the beginning of their program. */
  lemma StepAdmits(locked: bool, s: State, ev: Event, t: PartyId)
    requires Enabled(locked, s, ev) && t !in s.parties && t in Step(locked, s, ev).parties
    ensures var p := Step(locked, s, ev).parties[t];
      (p.pc.Starting? || p.pc.InvalidateQueued?) && p.started == s.steps && p.logged == |s.log| && p.now == s.clock
  {
  }

  // ---------------------------------------------------------------------------
  // Mutual exclusion
  // ---------------------------------------------------------------------------

  /** The lock names exactly the party that is inside. */
  ghost predicate Exclusive(s: State) {
    && (s.lock.Some? ==> s.lock.value in s.parties && Holds(s.parties[s.lock.value].pc))
    && (forall t :: t in s.parties && Holds(s.parties[t].pc) ==> s.lock == Some(t))
  }

  lemma StepExclusive(locked: bool, s: State, ev: Event)
    requires Exclusive(s) && Enabled(locked, s, ev)
    ensures Exclusive(Step(locked, s, ev))
  {
    var r := Step(locked, s, ev);
    forall t | t in r.parties && Holds(r.parties[t].pc) ensures r.lock == Some(t) {
      if t in s.parties { StepIsLocal(locked, s, ev, t); }
    }
  }

  lemma {:induction false} RunExclusive(locked: bool, evs: seq<Event>)
    requires Possible(locked, Initial, evs)
    ensures Exclusive(Exec(locked, Initial, evs))
  {
    if evs != [] {
      RunExclusive(locked, evs[..|evs| - 1]);
      StepExclusive(locked, Exec(locked, Initial, evs[..|evs| - 1]), evs[|evs| - 1]);
    }
  }

  /** One client never has two HTTP requests in flight, nor one while an invalidation scans. */
  lemma OneRequestInFlight(locked: bool, evs: seq<Event>, a: PartyId, b: PartyId)
    requires Possible(locked, Initial, evs)
    requires var s := Exec(locked, Initial, evs);
      a in s.parties && b in s.parties && s.parties[a].pc.Requesting? && Holds(s.parties[b].pc)
    ensures a == b
  {
    RunExclusive(locked, evs);
  }
}
