/**
 * What a task's call waits for and what it does not, on a cache shared with threads.
 *
 * As for threads, a stamp in its window, or a fresh entry with the kid, decides a call at
 * once, whatever is in flight; a follower waits until its leader's flight has ended; and
 * from every reachable state every call can come to its end.
 */
module SharedProgress {
  import opened Wrappers
  import opened JwksStore
  import opened SharedCache
  import Threads = SyncFetch

  // ---------------------------------------------------------------------------
  // Decided at once
  // ---------------------------------------------------------------------------

  /** The kid's stamp is in its window for the call. */
  predicate InWindow(cfg: Config, s: State, task: Task) {
    var missed := MissedAt(s.threads.store, task.url, task.kid);
    missed.Some? && task.now - missed.value <= cfg.unknownKidTtl
  }

  predicate Decided(rejected: bool, pc: Pc) {
    if rejected then pc == Finished(NegativeCached) else pc != AtNegative && pc != Finished(NegativeCached)
  }

  lemma StepDecided(cfg: Config, s: State, ev: Event, t: TaskId, rejected: bool)
    requires Enabled(cfg, s, ev) && t in s.tasks && Decided(rejected, s.tasks[t].pc)
    ensures t in Step(cfg, s, ev).tasks && Decided(rejected, Step(cfg, s, ev).tasks[t].pc)
  {
    if ev.Move? { MoveIsLocal(cfg, s, ev.id); }
  }

  lemma {:induction false} RunDecided(cfg: Config, s: State, evs: seq<Event>, t: TaskId, rejected: bool)
    requires Possible(cfg, s, evs) && t in s.tasks && Decided(rejected, s.tasks[t].pc)
    ensures t in Exec(cfg, s, evs).tasks && Decided(rejected, Exec(cfg, s, evs).tasks[t].pc)
  {
    if evs != [] {
      RunDecided(cfg, s, evs[..|evs| - 1], t, rejected);
      StepDecided(cfg, Exec(cfg, s, evs[..|evs| - 1]), evs[|evs| - 1], t, rejected);
    }
  }

  /** Nothing changes but where task `t` is. */
  predicate OnlyPc(s: State, r: State, t: TaskId) {
    && t in s.tasks && t in r.tasks && r.tasks == s.tasks[t := s.tasks[t].(pc := r.tasks[t].pc)]
    && r.inflight == s.inflight && r.futures == s.futures && r.threads == s.threads
  }

  /**
   * The negative cache decides a task's call exactly, whatever is in flight: if the kid's
   * stamp is in its window when the task reads it, that step changes nothing but to finish
   * the call with a rejection; otherwise no continuation ever rejects it for the stamp.
   */
  lemma NegativeCacheDecides(cfg: Config, s: State, t: TaskId, more: seq<Event>)
    requires OneAtATime(s) && t in s.tasks && s.tasks[t].pc == AtNegative
    requires Possible(cfg, Step(cfg, s, Move(t)), more)
    ensures Enabled(cfg, s, Move(t))
    ensures var r := Exec(cfg, Step(cfg, s, Move(t)), more);
      && t in r.tasks
      && (r.tasks[t].pc == Finished(NegativeCached) <==> InWindow(cfg, s, s.tasks[t]))
      && (InWindow(cfg, s, s.tasks[t]) ==> OnlyPc(s, Step(cfg, s, Move(t)), t))
  {
    var task := s.tasks[t];
    assert InWindow(cfg, s, task) == Rejects(cfg, s.threads.store, task.url, task.kid, task.now);
    MoveIsLocal(cfg, s, t);
    RunDecided(cfg, Step(cfg, s, Move(t)), more, t, InWindow(cfg, s, task));
  }

  /** The entry is at most `cache_ttl` old for the call, and has its kid. */
  predicate FreshFor(cfg: Config, s: Store, task: Task) {
    && task.url in s.entries && task.now - s.entries[task.url].fetchedAt <= cfg.cacheTtl
    && task.kid in s.entries[task.url].keys.byKid
  }

  /**
   * A fresh entry decides a task's call exactly, whatever is in flight: a task that reads
   * the entry marks it as used; it finishes there, with the entry's key, if and only if the
   * entry is fresh and has the kid, and otherwise goes on to fetch.
   */
  lemma FreshEntryDecides(cfg: Config, s: State, t: TaskId)
    requires OneAtATime(s) && t in s.tasks && s.tasks[t].pc == AtEntry
    ensures Enabled(cfg, s, Move(t))
    ensures var task, store, r := s.tasks[t], s.threads.store, Step(cfg, s, Move(t));
      && r.threads == s.threads.(store := Touch(store, task.url)) && OnlyPc(WithStore(s, r.threads.store), r, t)
      && (if FreshFor(cfg, store, task)
          then r.tasks[t].pc == Finished(Found(store.entries[task.url].keys.byKid[task.kid]))
          else r.tasks[t].pc.AtJoin?)
  {
    MoveIsLocal(cfg, s, t);
  }

  // ---------------------------------------------------------------------------
  // A follower waits
  // ---------------------------------------------------------------------------

  /** `t` still follows as it did, or the future it awaits is resolved, or it has been cancelled. */
  predicate AwaitsOn(s: State, t: TaskId, following: Pc)
    requires following.Following?
  {
    t in s.tasks && (s.tasks[t].pc == following || s.tasks[t].pc.Cancelled? || Resolved(s, following.leader))
  }

  lemma StepAwaits(cfg: Config, s: State, ev: Event, t: TaskId, following: Pc)
    requires following.Following? && Flights(s) && AwaitsOn(s, t, following) && Enabled(cfg, s, ev)
    requires following.leader in s.futures
    ensures following.leader in Step(cfg, s, ev).futures && AwaitsOn(Step(cfg, s, ev), t, following)
  {
    if ev.Move? {
      MoveIsLocal(cfg, s, ev.id);
      assert Attached(s, ev.id, s.tasks[ev.id]);
    }
  }

  lemma {:induction false} RunAwaits(cfg: Config, s: State, evs: seq<Event>, t: TaskId, following: Pc)
    requires following.Following? && Flights(s) && AwaitsOn(s, t, following) && following.leader in s.futures
    requires cfg.Valid() && Good(cfg, s) && Possible(cfg, s, evs)
    ensures following.leader in Exec(cfg, s, evs).futures && AwaitsOn(Exec(cfg, s, evs), t, following)
  {
    if evs != [] {
      RunAwaits(cfg, s, evs[..|evs| - 1], t, following);
      RunGood(cfg, s, evs[..|evs| - 1]);
      StepAwaits(cfg, Exec(cfg, s, evs[..|evs| - 1]), evs[|evs| - 1], t, following);
    }
  }

  /** A follower does wait: until its leader's flight has ended it goes on waiting, or is cancelled. */
  lemma FollowerWaits(cfg: Config, evs: seq<Event>, t: TaskId, more: seq<Event>)
    requires cfg.Valid() && Possible(cfg, Initial, evs) && Possible(cfg, Exec(cfg, Initial, evs), more)
    requires t in Exec(cfg, Initial, evs).tasks && Exec(cfg, Initial, evs).tasks[t].pc.Following?
    ensures var s := Exec(cfg, Initial, evs);
      var pc, r := s.tasks[t].pc, Exec(cfg, s, more);
      t in r.tasks && (r.tasks[t].pc == pc || r.tasks[t].pc.Cancelled? || Resolved(r, pc.leader))
  {
    RunGood(cfg, Initial, evs);
    var s := Exec(cfg, Initial, evs);
    assert Attached(s, t, s.tasks[t]);
    RunAwaits(cfg, s, more, t, s.tasks[t].pc);
  }

  // ---------------------------------------------------------------------------
  // Every call can come to its end
  // ---------------------------------------------------------------------------

  predicate IsOver(s: State, t: TaskId) {
    t in s.tasks && (s.tasks[t].pc.Finished? || s.tasks[t].pc.Cancelled?)
  }

  predicate WithoutThreads(evs: seq<Event>) {
    forall ev :: ev in evs ==> !ev.Thread?
  }

  /** Some continuation, without a step of a thread, ends the call. */
  ghost predicate CanFinish(cfg: Config, s: State, t: TaskId) {
    exists more :: Possible(cfg, s, more) && WithoutThreads(more) && IsOver(Exec(cfg, s, more), t)
  }

  lemma StepThenCan(cfg: Config, s: State, ev: Event, t: TaskId)
    requires Enabled(cfg, s, ev) && !ev.Thread? && CanFinish(cfg, Step(cfg, s, ev), t)
    ensures CanFinish(cfg, s, t)
  {
    var r := Step(cfg, s, ev);
    var more :| Possible(cfg, r, more) && WithoutThreads(more) && IsOver(Exec(cfg, r, more), t);
    ExecCons(cfg, s, ev, more);
    assert WithoutThreads([ev] + more);
  }

  lemma AlreadyOver(cfg: Config, s: State, t: TaskId)
    requires IsOver(s, t)
    ensures CanFinish(cfg, s, t)
  {
    assert Possible(cfg, s, []) && Exec(cfg, s, []) == s;
  }

  /** The task in the middle of a stretch, if there is one, gets to the end of it; then `t` has its way. */
  lemma StretchEnds(cfg: Config, s: State, t: TaskId)
    requires cfg.Valid() && Good(cfg, s) && t in s.tasks
    ensures CanFinish(cfg, s, t)
    decreases Awaits(s, t), if s.busy.Some? && s.busy.value in s.tasks then Left(s.tasks[s.busy.value].pc) else 0, 1
  {
    if s.busy.None? {
      AtAwait(cfg, s, t);
    } else {
      var z := s.busy.value;
      var r := Step(cfg, s, Move(z));
      MoveIsLocal(cfg, s, z);
      StretchesEnd(cfg, s, z);
      StepGood(cfg, s, Move(z));
      AwaitsLess(cfg, s, z, t);
      StretchEnds(cfg, r, t);
      StepThenCan(cfg, s, Move(z), t);
    }
  }

  /** How many awaits the call may yet have to come out of: its own, and its leader's. */
  function Awaits(s: State, t: TaskId): (n: nat) {
    if t !in s.tasks then 0
    else
      match s.tasks[t].pc
      case AtNegative => 3
      case AtEntry => 3
      case AtJoin(_) => 3
      case Following(_, l) => if l in s.tasks && s.tasks[l].pc.Leading? then 2 else 1
      case Leading(_) => 1
      case _ => 0
  }

  lemma AwaitsLess(cfg: Config, s: State, z: TaskId, t: TaskId)
    requires Good(cfg, s) && Enabled(cfg, s, Move(z)) && t in s.tasks
    ensures Awaits(MoveTask(cfg, s, z), t) <= Awaits(s, t)
  {
    MoveIsLocal(cfg, s, z);
    if s.tasks[t].pc.Following? {
      assert Attached(s, t, s.tasks[t]);
      assert Attached(s, s.tasks[t].pc.leader, s.tasks[s.tasks[t].pc.leader]);
    }
  }

  /** Between stretches: `t`'s fetch fails, or its leader's does, or it resumes. */
  lemma AtAwait(cfg: Config, s: State, t: TaskId)
    requires cfg.Valid() && Good(cfg, s) && t in s.tasks && s.busy.None?
    ensures CanFinish(cfg, s, t)
    decreases Awaits(s, t), 0, 0
  {
    var pc := s.tasks[t].pc;
    assert Attached(s, t, s.tasks[t]);
    if IsOver(s, t) {
      AlreadyOver(cfg, s, t);
    } else {
      var ev := if pc.Leading? then HttpEnd(t, None)
                else if s.tasks[pc.leader].pc.Leading? then HttpEnd(pc.leader, None) else Resume(t);
      assert pc.Following? ==> Attached(s, pc.leader, s.tasks[pc.leader]);
      assert Enabled(cfg, s, ev);
      StepGood(cfg, s, ev);
      assert Awaits(Step(cfg, s, ev), t) < Awaits(s, t);
      StretchEnds(cfg, Step(cfg, s, ev), t);
      StepThenCan(cfg, s, ev, t);
    }
  }

  /** No task is stuck: from every reachable state every task's call can come to its end, whatever threads do or not. */
  lemma EveryTaskCanFinish(cfg: Config, evs: seq<Event>, t: TaskId)
    requires cfg.Valid() && Possible(cfg, Initial, evs) && t in Exec(cfg, Initial, evs).tasks
    ensures CanFinish(cfg, Exec(cfg, Initial, evs), t)
  {
    RunGood(cfg, Initial, evs);
    StretchEnds(cfg, Exec(cfg, Initial, evs), t);
  }
}
