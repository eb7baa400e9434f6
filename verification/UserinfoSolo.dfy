/**
 * A call that nothing interrupts: the interleaved machine does what the client class does.
 *
 * The steps of the call are followed in any relation `reach` between states that contains
 * the machine's steps and is transitive; being reached by possible events is one.
 */
module UserinfoSolo {
  import opened Wrappers
  import opened UserinfoStore
  import opened UserinfoClient
  import opened UserinfoProtocol

  ghost predicate ContainsSteps(locked: bool, reach: (State, State) -> bool) {
    && (forall s, ev :: Enabled(locked, s, ev) ==> reach(s, Step(locked, s, ev)))
    && (forall a, b, c :: reach(a, b) && reach(b, c) ==> reach(a, c))
  }

  /** The state in which the party `t` is `p`, and nothing else has changed but the count of events. */
  function Moved(s: State, n: nat, t: PartyId, p: Party): (r: State) {
    s.(steps := s.steps + n, parties := s.parties[t := p])
  }

  predicate Is(s: State, t: PartyId, p: Party) {
    t in s.parties && s.parties[t] == p
  }

  lemma Arrives(locked: bool, reach: (State, State) -> bool, s: State, t: PartyId, p: Party)
    requires ContainsSteps(locked, reach) && s.lock.None? && t !in s.parties
    requires p == Party(p.user, p.prefix, p.ttl, s.clock, s.steps, |s.log|, Starting)
    ensures reach(s, Moved(s, 1, t, p))
  {
    var ev := CallFetch(t, p.user, p.prefix, p.ttl);
    assert Enabled(locked, s, ev) && Step(locked, s, ev) == Moved(s, 1, t, p);
  }

  lemma Looks(locked: bool, reach: (State, State) -> bool, s: State, t: PartyId, p: Party)
    requires ContainsSteps(locked, reach) && s.lock.None? && Is(s, t, p) && p.pc.Starting?
    ensures var hit := Hit(s.cache, Key(p), p.ttl, p.now);
      reach(s, Moved(s, 1, t, p.(pc := if hit.Some? then Answered(Cached(hit.value), |s.log|) else Queued)))
  {
    var hit := Hit(s.cache, Key(p), p.ttl, p.now);
    var r := Moved(s, 1, t, p.(pc := if hit.Some? then Answered(Cached(hit.value), |s.log|) else Queued));
    assert Enabled(locked, s, Look(t)) && Step(locked, s, Look(t)) == r;
  }

  lemma Acquires(locked: bool, reach: (State, State) -> bool, s: State, t: PartyId, p: Party)
    requires ContainsSteps(locked, reach) && s.lock.None? && Is(s, t, p) && p.pc.Queued?
    ensures reach(s, Moved(s, 1, t, p.(pc := Holding)).(lock := Some(t)))
  {
    var r := Moved(s, 1, t, p.(pc := Holding)).(lock := Some(t));
    assert Enabled(locked, s, Acquire(t)) && Step(locked, s, Acquire(t)) == r;
  }

  lemma Misses(locked: bool, reach: (State, State) -> bool, s: State, t: PartyId, p: Party)
    requires ContainsSteps(locked, reach) && s.lock == Some(t) && Is(s, t, p) && p.pc.Holding?
    requires Hit(s.cache, Key(p), p.ttl, p.now).None?
    ensures reach(s, Moved(s, 1, t, p.(pc := Requesting(s.steps, s.clock))))
  {
    var r := Moved(s, 1, t, p.(pc := Requesting(s.steps, s.clock)));
    assert Enabled(locked, s, LookAgain(t)) && Step(locked, s, LookAgain(t)) == r;
  }

  lemma IsRefused(locked: bool, reach: (State, State) -> bool, s: State, t: PartyId, p: Party)
    requires ContainsSteps(locked, reach) && s.lock == Some(t) && Is(s, t, p) && p.pc.Requesting?
    ensures reach(s, Moved(s, 1, t, p.(pc := Answered(Fallback, |s.log|))).(lock := None))
  {
    var r := Moved(s, 1, t, p.(pc := Answered(Fallback, |s.log|))).(lock := None);
    assert Enabled(locked, s, Respond(t, None)) && Step(locked, s, Respond(t, None)) == r;
  }

  lemma IsAnswered(locked: bool, reach: (State, State) -> bool, s: State, t: PartyId, p: Party, r: Response)
    requires ContainsSteps(locked, reach) && s.lock == Some(t) && Is(s, t, p) && p.pc.Requesting?
    requires r == Response(r.body, p.user, p.prefix, p.pc.requested, p.pc.began, s.clock, p.ttl)
    ensures reach(s, Moved(s, 1, t, p.(pc := Writing(Entry(s.clock + p.ttl, r)))))
  {
    var ev := Respond(t, Some(r.body));
    assert Enabled(locked, s, ev) && Step(locked, s, ev) ==
      Moved(s, 1, t, p.(pc := Writing(Entry(s.clock + p.ttl, r))));
  }

  /** The state once `t` has written `e` and left. */
  function Wrote(s: State, n: nat, t: PartyId, p: Party, e: Entry): (r: State) {
    Moved(s, n, t, p.(pc := Answered(Own(e.payload), |s.log|))).(
      lock := None, cache := s.cache[Key(p) := e], log := s.log + [Stored(e.payload)])
  }

  lemma Writes(locked: bool, reach: (State, State) -> bool, s: State, t: PartyId, p: Party, e: Entry)
    requires ContainsSteps(locked, reach) && s.lock == Some(t) && Is(s, t, p) && p.pc == Writing(e)
    ensures reach(s, Wrote(s, 1, t, p, e))
  {
    assert Enabled(locked, s, Write(t)) && Step(locked, s, Write(t)) == Wrote(s, 1, t, p, e);
  }

  /** A party that has looked in vain gets the free lock and makes its request. */
  lemma GetsToRequest(locked: bool, reach: (State, State) -> bool, s: State, t: PartyId, p: Party)
    requires ContainsSteps(locked, reach) && s.lock.None? && Is(s, t, p) && p.pc == Queued
    requires Hit(s.cache, Key(p), p.ttl, p.now).None?
    ensures reach(s, Moved(s, 2, t, p.(pc := Requesting(s.steps + 1, s.clock))).(lock := Some(t)))
  {
    var m := Moved(s, 1, t, p.(pc := Holding)).(lock := Some(t));
    Acquires(locked, reach, s, t, p);
    Misses(locked, reach, m, t, p.(pc := Holding));
    var asking := p.(pc := Requesting(s.steps + 1, s.clock));
    assert Moved(m, 1, t, asking) == Moved(s, 2, t, asking).(lock := Some(t));
  }

  /** It gets its answer, writes it and leaves. */
  lemma GetsAnswer(locked: bool, reach: (State, State) -> bool, s: State, t: PartyId, p: Party, r: Response)
    requires ContainsSteps(locked, reach) && s.lock == Some(t) && Is(s, t, p) && p.pc.Requesting?
    requires r == Response(r.body, p.user, p.prefix, p.pc.requested, p.pc.began, s.clock, p.ttl)
    ensures reach(s, Wrote(s, 2, t, p, Entry(s.clock + p.ttl, r)))
  {
    var e := Entry(s.clock + p.ttl, r);
    var p' := p.(pc := Writing(e));
    var m := Moved(s, 1, t, p');
    IsAnswered(locked, reach, s, t, p, r);
    Writes(locked, reach, m, t, p', e);
    assert Wrote(m, 1, t, p', e) == Wrote(s, 2, t, p, e);
  }

  /** A call that arrives finds an entry, or the lock to wait for. */
  lemma ArrivesAndLooks(locked: bool, reach: (State, State) -> bool, s: State, t: PartyId, p: Party)
    requires ContainsSteps(locked, reach) && s.lock.None? && t !in s.parties
    requires p == Party(p.user, p.prefix, p.ttl, s.clock, s.steps, |s.log|, Starting)
    ensures var hit := Hit(s.cache, Key(p), p.ttl, p.now);
      reach(s, Moved(s, 2, t, p.(pc := if hit.Some? then Answered(Cached(hit.value), |s.log|) else Queued)))
  {
    var hit := Hit(s.cache, Key(p), p.ttl, p.now);
    var m := Moved(s, 1, t, p);
    var p' := p.(pc := if hit.Some? then Answered(Cached(hit.value), |s.log|) else Queued);
    Arrives(locked, reach, s, t, p);
    Looks(locked, reach, m, t, p);
    assert Moved(m, 1, t, p') == Moved(s, 2, t, p');
  }

  lemma MissFails(locked: bool, reach: (State, State) -> bool, s: State, t: PartyId, p: Party)
    requires ContainsSteps(locked, reach) && s.lock.None? && Is(s, t, p) && p.pc == Queued
    requires Hit(s.cache, Key(p), p.ttl, p.now).None?
    ensures reach(s, Moved(s, 3, t, p.(pc := Answered(Fallback, |s.log|))))
  {
    var p' := p.(pc := Requesting(s.steps + 1, s.clock));
    var m := Moved(s, 2, t, p').(lock := Some(t));
    GetsToRequest(locked, reach, s, t, p);
    IsRefused(locked, reach, m, t, p');
    var r := p.(pc := Answered(Fallback, |s.log|));
    assert Moved(m, 1, t, r).(lock := None) == Moved(s, 3, t, r);
  }

  lemma MissSucceeds(locked: bool, reach: (State, State) -> bool, s: State, t: PartyId, p: Party, r: Response)
    requires ContainsSteps(locked, reach) && s.lock.None? && Is(s, t, p) && p.pc == Queued
    requires Hit(s.cache, Key(p), p.ttl, p.now).None?
    requires r == Response(r.body, p.user, p.prefix, s.steps + 1, s.clock, s.clock, p.ttl)
    ensures reach(s, Wrote(s, 4, t, p, Entry(s.clock + p.ttl, r)))
  {
    var p' := p.(pc := Requesting(s.steps + 1, s.clock));
    var m := Moved(s, 2, t, p').(lock := Some(t));
    GetsToRequest(locked, reach, s, t, p);
    GetsAnswer(locked, reach, m, t, p', r);
    assert Wrote(m, 2, t, p', Entry(s.clock + p.ttl, r)) == Wrote(s, 4, t, p, Entry(s.clock + p.ttl, r));
  }

  /** What the request of a call yields that gets the lock at once: its place in the run, and when. */
  predicate ReplyTo(s: State, p: Party, reply: Option<Response>) {
    reply.Some? ==> reply.value == Response(reply.value.body, p.user, p.prefix, s.steps + 3, s.clock, s.clock, p.ttl)
  }

  /** The state a call by itself leads to. */
  function SoloEnd(s: State, t: PartyId, p: Party, reply: Option<Response>): (r: State) {
    var hit := Hit(s.cache, Key(p), p.ttl, p.now);
    if hit.Some? then Moved(s, 2, t, p.(pc := Answered(Cached(hit.value), |s.log|)))
    else if reply.None? then Moved(s, 5, t, p.(pc := Answered(Fallback, |s.log|)))
    else Wrote(s, 6, t, p, Entry(s.clock + p.ttl, reply.value))
  }

  lemma SoloRun(locked: bool, reach: (State, State) -> bool, s: State, t: PartyId, p: Party, reply: Option<Response>)
    requires ContainsSteps(locked, reach) && s.lock.None? && t !in s.parties && ReplyTo(s, p, reply)
    requires p == Party(p.user, p.prefix, p.ttl, s.clock, s.steps, |s.log|, Starting)
    ensures reach(s, SoloEnd(s, t, p, reply))
  {
    ArrivesAndLooks(locked, reach, s, t, p);
    if Hit(s.cache, Key(p), p.ttl, p.now).None? {
      var p' := p.(pc := Queued);
      var m := Moved(s, 2, t, p');
      if reply.None? {
        MissFails(locked, reach, m, t, p');
        var r := p.(pc := Answered(Fallback, |s.log|));
        assert Moved(m, 3, t, r) == Moved(s, 5, t, r);
      } else {
        MissSucceeds(locked, reach, m, t, p', reply.value);
        var e := Entry(s.clock + p.ttl, reply.value);
        assert Wrote(m, 4, t, p', e) == Wrote(s, 6, t, p, e);
      }
    }
  }

  // ---------------------------------------------------------------------------
  // Reached by events
  // ---------------------------------------------------------------------------

  ghost predicate Reaches(locked: bool, s: State, r: State) {
    exists evs :: Possible(locked, s, evs) && Exec(locked, s, evs) == r
  }

  lemma {:induction false} ExecConcat(locked: bool, s: State, a: seq<Event>, b: seq<Event>)
    requires Possible(locked, s, a) && Possible(locked, Exec(locked, s, a), b)
    ensures Possible(locked, s, a + b) && Exec(locked, s, a + b) == Exec(locked, Exec(locked, s, a), b)
    decreases |b|
  {
    if b == [] {
      assert a + b == a;
    } else {
      assert (a + b)[..|a + b| - 1] == a + b[..|b| - 1];
      ExecConcat(locked, s, a, b[..|b| - 1]);
    }
  }

  lemma ReachesContainsSteps(locked: bool)
    ensures ContainsSteps(locked, (a, b) => Reaches(locked, a, b))
  {
    forall s, ev | Enabled(locked, s, ev) ensures Reaches(locked, s, Step(locked, s, ev)) {
      var one := [ev];
      assert one[..|one| - 1] == [];
      assert Possible(locked, s, one);
      assert Exec(locked, s, one) == Step(locked, Exec(locked, s, []), ev);
    }
    forall a, b, c | Reaches(locked, a, b) && Reaches(locked, b, c) ensures Reaches(locked, a, c) {
      var x :| Possible(locked, a, x) && Exec(locked, a, x) == b;
      var y :| Possible(locked, b, y) && Exec(locked, b, y) == c;
      ExecConcat(locked, a, x, y);
    }
  }

  /**
   * With nobody else at work, a call's steps amount to `fetch` as the client class has it,
   * for both clients: same cache, same answer, the lock free again; and the answer is
   * recorded as the class records it.
   */
  lemma SoloFetchIsFetchEffect(locked: bool, s: State, t: PartyId, p: Party, reply: Option<Response>)
    requires s.lock.None? && t !in s.parties && ReplyTo(s, p, reply)
    requires p == Party(p.user, p.prefix, p.ttl, s.clock, s.steps, |s.log|, Starting)
    ensures var r := SoloEnd(s, t, p, reply);
      var e := FetchEffect(s.cache, Key(p), p.ttl, p.now, reply);
      && Reaches(locked, s, r) && r.lock.None? && r.cache == e.cache
      && t in r.parties && r.parties[t] == p.(pc := r.parties[t].pc)
      && r.parties[t].pc.Answered? && r.parties[t].pc.answer == e.answer
      && r.log == (if e.answer.Own? then s.log + [Stored(e.answer.payload)] else s.log)
  {
    ReachesContainsSteps(locked);
    SoloRun(locked, (a, b) => Reaches(locked, a, b), s, t, p, reply);
    SoloEndIsEffect(s, t, p, reply);
  }

  lemma SoloEndIsEffect(s: State, t: PartyId, p: Party, reply: Option<Response>)
    requires s.lock.None? && ReplyTo(s, p, reply)
    ensures var r := SoloEnd(s, t, p, reply);
      var e := FetchEffect(s.cache, Key(p), p.ttl, p.now, reply);
      && r.lock.None? && r.cache == e.cache
      && t in r.parties && r.parties[t] == p.(pc := r.parties[t].pc)
      && r.parties[t].pc.Answered? && r.parties[t].pc.answer == e.answer
      && r.log == (if e.answer.Own? then s.log + [Stored(e.answer.payload)] else s.log)
  {
  }
}
