/** The promises of a topic, for every run of every interleaving of its calls. */
module TopicRuns {
  import opened Ring
  import opened Wheel
  import DL = DeadLetters
  import opened Sums
  import opened Topic
  import opened Conservation
  import opened Accounting
  import opened Delivery
  import opened Leases

  /** The states a topic goes through while its calls take these steps. */
  ghost predicate IsRun(trace: seq<State>, steps: seq<Step>) {
    && |trace| == |steps| + 1
    && (exists capacity: nat, slots: nat, dlqMax: nat, now: int ::
          capacity >= MIN_CAPACITY && slots > 0 && dlqMax > 0 &&
          trace[0] == Start(capacity, slots, dlqMax, now))
    && (forall i :: 0 <= i < |steps| ==> IsStep(trace[i], steps[i], trace[i + 1]))
  }

  ghost predicate IsStep(s: State, step: Step, s': State) {
    Sound(s) && Enabled(s, step) && s' == Next(s, step)
  }

  /** Everything that holds after every step. */
  ghost predicate Laws(s: State) {
    Sound(s) && Conserved(s, []) && Books(s, 0, 0) && Budget(s) && Orderly(s)
  }

  // ---- soundness: a run never gets to a state in which a step would make no sense ----

  ghost predicate Fit(s: State) {
    && s.ring.Valid() && s.wheel.Valid()
    && s.dlqMax > 0 && |s.dlq| <= s.dlqMax
    && (forall c :: c in s.calls && s.calls[c].CheckingOut? ==> s.calls[c].group in s.groups)
  }

  lemma ConservedIsSound(s: State)
    requires Fit(s) && Conserved(s, [])
    ensures Sound(s)
  {
    hide Conserved, Count, InCalls, InLetters;
    forall c, i | c in s.calls && s.calls[c].Routing? && 0 <= i < |s.calls[c].ids|
      ensures s.calls[c].ids[i] in s.store
    {
      HeldHasNoFate(s, c, s.calls[c].ids[i]);
    }
    forall i | 0 <= i < |s.dlq|
      ensures s.dlq[i].0 in s.store
    {
      var id := s.dlq[i].0;
      assert DL.Has(s.dlq, id) by {
        assert DL.Find(s.dlq, id) <= i;
      }
      LettersHas(s.dlq, id);
      OnePlace(s, id);
    }
  }

  lemma EnqueueFits(s: State, id: Id, front: bool)
    requires Fit(s)
    ensures Fit(Enqueue(s, id, front))
  {
    hide Deque.Push, Deque.PushFront, Deque.Valid, Victims, Wheel.Valid, Lose;
    PushesAreValid(s.ring, id);
    var s' := s.(ring := if front then s.ring.PushFront(id) else s.ring.Push(id));
    var gone := Victims(s.ring, front);
    if s.ring.closed {
      LosingFits(s, id, RingClosed);
    } else if gone != [] {
      LosingFits(s', gone[0], Saturated);
    }
  }

  lemma LosingFits(s: State, id: Id, cause: Cause)
    requires Fit(s)
    ensures Fit(Lose(s, id, cause))
  {
    hide Deque.Valid, Wheel.Valid;
  }

  lemma PushesAreValid(d: Deque<Id>, id: Id)
    requires d.Valid()
    ensures d.Push(id).Valid() && d.PushFront(id).Valid()
  {
  }

  lemma ScheduleFits(s: State, id: Id, delay: int)
    requires Fit(s)
    ensures Fit(Schedule(s, id, delay))
  {
    hide Wheel.Valid, Deque.Valid, Enqueue;
    if delay <= 0 {
      EnqueueFits(s, id, false);
    }
  }

  lemma BuryFits(s: State, id: Id, attempts: int)
    requires Fit(s)
    ensures Fit(Bury(s, id, attempts))
  {
    hide Wheel.Valid, Deque.Valid;
  }

  lemma {:induction false} PurgeFits(s: State)
    requires Fit(s)
    ensures Fit(PurgeAll(s)) && PurgeAll(s).dlq == []
    decreases |s.dlq|
  {
    hide Wheel.Valid, Deque.Valid;
    if s.dlq != [] {
      PurgeFits(LoseOldestLetter(s, Purged));
    }
  }

  lemma RouteFits(s: State, c: nat)
    requires Fit(s) && c in s.calls && s.calls[c].Routing? && s.calls[c].ids != []
    requires s.calls[c].ids[0] in s.store
    ensures Fit(RouteNext(s, c))
  {
    hide Wheel.Valid, Deque.Valid, Schedule, Bury;
    var call := s.calls[c];
    var id := call.ids[0];
    var info := Failed(s.store[id]);
    var route := RouteAfter(s.store[id], call.byNack);
    var s' := s.(store := s.store[id := info],
                 calls := s.calls[c := Routing(call.ids[1..], call.byNack, route.ToDeadLetters?)]);
    assert Fit(s');
    match route
    case ToDeadLetters => BuryFits(s', id, info.retry);
    case ToWheel(delay) => ScheduleFits(Log(s', Retried(id)), id, delay);
  }

  lemma {:induction false} TakeAllFits(s: State, c: nat, g: string, ids: seq<Id>)
    requires Fit(s) && CanTake(s, c, g, ids)
    ensures Fit(TakeAllOverdue(s, c, g, ids))
    decreases |ids|
  {
    hide Wheel.Valid, Deque.Valid;
    if ids != [] {
      assert ids[0] in ids;
      assert forall i :: 0 <= i < |ids[1..]| ==> ids[1..][i] == ids[i + 1];
      TakeAllFits(TakeOverdue(s, c, g, ids[0]), c, g, ids[1..]);
    }
  }

  lemma MovingStepsFit(s: State, step: Step)
    requires Sound(s) && Enabled(s, step)
    requires step.PushPublished? || step.AddDelayed? || step.Expire? || step.PushReplayed? || step.Route? ||
             step.Purge? || step.Sweep?
    ensures Fit(Next(s, step))
  {
    hide Enqueue, Schedule, RouteNext, PurgeAll, TakeAllOverdue, Wheel.Valid, Deque.Valid;
    match step
    case PushPublished(c) =>
      if !s.ring.closed {
        EnqueueFits(Log(s.(calls := s.calls[c := Published]), Entered(s.calls[c].id)), s.calls[c].id, s.calls[c].front);
      }
    case AddDelayed(c) => ScheduleFits(s.(calls := s.calls - {c}), s.calls[c].id, s.calls[c].delay);
    case Expire(c) =>
      if s.calls[c].ids != [] {
        EnqueueFits(s.(calls := s.calls[c := Expiring(s.calls[c].ids[1..])]), s.calls[c].ids[0], false);
      }
    case PushReplayed(c) => EnqueueFits(s.(calls := s.calls - {c}), s.calls[c].id, false);
    case Route(c) => RouteFits(s, c);
    case Purge => PurgeFits(s);
    case Sweep(c, g, ids) => TakeAllFits(s.(calls := s.calls[c := Routing([], false, false)]), c, g, ids);
  }

  lemma StepFits(s: State, step: Step)
    requires Sound(s) && Enabled(s, step)
    ensures Fit(Next(s, step))
  {
    hide DoPushPublished, DoAddDelayed, DoExpire, DoPushReplayed, RouteNext, PurgeAll, DoSweep;
    if step.PushPublished? || step.AddDelayed? || step.Expire? || step.PushReplayed? || step.Route? ||
       step.Purge? || step.Sweep?
    {
      MovingStepsFit(s, step);
    }
  }

  // ---- every run ----

  lemma StepKeepsLaws(s: State, step: Step)
    requires Laws(s) && Enabled(s, step)
    ensures Laws(Next(s, step))
  {
    hide Sound, Conserved, Books, Budget, Orderly, Enabled, Next, Fit;
    StepConserves(s, step);
    StepBalances(s, step);
    StepKeepsBudget(s, step);
    StepIsOrderly(s, step);
    StepFits(s, step);
    ConservedIsSound(Next(s, step));
  }

  lemma {:induction false} NothingInBuckets(n: nat, q: Query)
    ensures InBuckets(seq(n, _ => []), q) == 0
  {
    if n > 0 {
      var bs: seq<seq<Timer<Id>>> := seq(n, _ => []);
      NothingInBuckets(n - 1, q);
      assert bs[..n - 1] == seq(n - 1, _ => []);
    }
  }

  lemma NothingInCalls(m: Measure)
    ensures InCalls(map[], m) == 0
  {
    assert Weights(map[], m) == map[];
  }

  lemma NothingInPels(q: Query)
    ensures InPels(map[], q) == 0
  {
    assert PelWeights(map[], q) == map[];
  }

  lemma StartIsConserved(capacity: nat, slots: nat, dlqMax: nat, now: int)
    ensures Conserved(Start(capacity, slots, dlqMax, now), [])
  {
    hide InBuckets, InCalls, InPels;
    var s := Start(capacity, slots, dlqMax, now);
    forall q: Query
      ensures Copies(s, q) + Count([], q) == Submitted(s.store, q)
    {
      NothingInBuckets(slots, q);
      NothingInCalls(Held(q));
      NothingInPels(q);
    }
  }

  lemma StartBalances(capacity: nat, slots: nat, dlqMax: nat, now: int)
    ensures Books(Start(capacity, slots, dlqMax, now), 0, 0)
  {
    hide InBuckets, InCalls, InPels;
    NothingInBuckets(slots, All);
    NothingInPels(All);
    forall m: Measure
      ensures InCalls(map[], m) == 0
    {
      NothingInCalls(m);
    }
  }

  lemma StartIsInBudget(capacity: nat, slots: nat, dlqMax: nat, now: int)
    ensures Budget(Start(capacity, slots, dlqMax, now))
  {
    hide InBuckets, InCalls, InPels;
    forall id: Id
      ensures Balanced(LedgerOf(Start(capacity, slots, dlqMax, now), id))
    {
      NothingInPels(Only(id));
      NothingInCalls(OnLease(id));
    }
  }

  lemma StartKeepsLaws(capacity: nat, slots: nat, dlqMax: nat, now: int)
    requires capacity >= MIN_CAPACITY && slots > 0 && dlqMax > 0
    ensures Laws(Start(capacity, slots, dlqMax, now))
  {
    hide Conserved, Books, Budget;
    StartIsConserved(capacity, slots, dlqMax, now);
    StartBalances(capacity, slots, dlqMax, now);
    StartIsInBudget(capacity, slots, dlqMax, now);
  }

  /** Whatever the calls of a topic do, and however their steps interleave, all laws hold in every
      state they go through. */
  lemma {:induction false} EveryRunKeepsTheLaws(trace: seq<State>, steps: seq<Step>, i: nat)
    requires IsRun(trace, steps) && i < |trace|
    ensures Laws(trace[i])
    decreases i
  {
    hide Laws, Start, IsStep;
    if i == 0 {
      var capacity: nat, slots: nat, dlqMax: nat, now: int :|
        capacity >= MIN_CAPACITY && slots > 0 && dlqMax > 0 && trace[0] == Start(capacity, slots, dlqMax, now);
      StartKeepsLaws(capacity, slots, dlqMax, now);
    } else {
      EveryRunKeepsTheLaws(trace, steps, i - 1);
      StepOfRun(trace[i - 1], steps[i - 1], trace[i]);
    }
  }

  lemma StepOfRun(s: State, step: Step, s': State)
    requires Laws(s) && IsStep(s, step, s')
    ensures Laws(s')
  {
    StepKeepsLaws(s, step);
  }

  // ---- a run that goes on ----

  /** The states and the steps of a run so far. */
  datatype Run = Run(trace: seq<State>, steps: seq<Step>)

  ghost predicate Ongoing(r: Run) {
    |r.trace| == |r.steps| + 1 && IsRun(r.trace, r.steps) && Laws(Last(r)) && Sound(Last(r))
  }

  function Last(r: Run): State
    requires |r.trace| == |r.steps| + 1
  {
    r.trace[|r.steps|]
  }

  ghost function Extended(r: Run, step: Step): Run
    requires |r.trace| == |r.steps| + 1 && Sound(Last(r)) && Enabled(Last(r), step)
  {
    Run(r.trace + [Next(Last(r), step)], r.steps + [step])
  }

  lemma StepGoesOn(r: Run, step: Step)
    requires Ongoing(r) && Enabled(Last(r), step)
    ensures Ongoing(Extended(r, step)) && Last(Extended(r, step)) == Next(Last(r), step)
  {
    hide Enabled, Next, Start, Laws, Sound;
    var s := Last(r);
    StepKeepsLaws(s, step);
    LawsAreSound(Next(s, step));
    var trace', steps' := r.trace + [Next(s, step)], r.steps + [step];
    forall i | 0 <= i < |steps'|
      ensures IsStep(trace'[i], steps'[i], trace'[i + 1])
    {
      assert i < |r.steps| ==> IsStep(r.trace[i], r.steps[i], r.trace[i + 1]);
    }
    assert trace'[0] == r.trace[0];
  }

  lemma LawsAreSound(s: State)
    requires Laws(s)
    ensures Sound(s)
  {
  }

  lemma StartGoesOn(capacity: nat, slots: nat, dlqMax: nat, now: int)
    requires capacity >= MIN_CAPACITY && slots > 0 && dlqMax > 0
    ensures Ongoing(Run([Start(capacity, slots, dlqMax, now)], []))
  {
    hide Laws, Sound, Start;
    StartKeepsLaws(capacity, slots, dlqMax, now);
    LawsAreSound(Start(capacity, slots, dlqMax, now));
  }
}
