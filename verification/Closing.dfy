/** What closing a topic does for the rest of a run. */
module Closing {
  import opened Wheel
  import W = WheelTime
  import opened Sums
  import DL = DeadLetters
  import opened Machine = Topic
  import opened TopicRuns
  import opened Retries

  // ---- the ring ----

  /** What is left of a list after some were taken from its front. */
  ghost predicate Suffix<T>(s: seq<T>, t: seq<T>) {
    |t| <= |s| && t == s[|s| - |t|..]
  }

  lemma SuffixOfSuffix<T>(s: seq<T>, t: seq<T>, u: seq<T>)
    requires Suffix(s, t) && Suffix(t, u)
    ensures Suffix(s, u)
  {
  }

  lemma SuffixOfItself<T>(s: seq<T>)
    ensures Suffix(s, s) && (s != [] ==> Suffix(s, s[1..]))
  {
  }

  lemma EnqueueToClosed(s: State, id: Id, front: bool)
    requires s.ring.closed
    ensures Enqueue(s, id, front).ring == s.ring
  {
  }

  lemma {:induction false} PurgeKeepsRing(s: State)
    ensures PurgeAll(s).ring == s.ring
    decreases |s.dlq|
  {
    if s.dlq != [] {
      PurgeKeepsRing(LoseOldestLetter(s, Purged));
    }
  }

  lemma {:induction false} TakeAllKeepsRing(s: State, c: nat, g: string, ids: seq<Id>)
    requires CanTake(s, c, g, ids)
    ensures TakeAllOverdue(s, c, g, ids).ring == s.ring
    decreases |ids|
  {
    if ids != [] {
      assert ids[0] in ids;
      assert forall i :: 0 <= i < |ids[1..]| ==> ids[1..][i] == ids[i + 1];
      TakeAllKeepsRing(TakeOverdue(s, c, g, ids[0]), c, g, ids[1..]);
    }
  }

  lemma ScheduleToClosed(s: State, id: Id, delay: int)
    requires s.ring.closed && s.wheel.Valid()
    ensures Schedule(s, id, delay).ring == s.ring
  {
    hide Enqueue, Wheel.Add, Ticks;
    if delay <= 0 {
      EnqueueToClosed(s, id, false);
    }
  }

  lemma RouteToClosed(s: State, c: nat)
    requires s.ring.closed && Sound(s) && Enabled(s, Route(c))
    ensures RouteNext(s, c).ring == s.ring
  {
    assert s.calls[c].ids[0] in s.store;
    hide Schedule, DL.Put, RouteAfter, Sound;
    var call := s.calls[c];
    var id := call.ids[0];
    var route := RouteAfter(s.store[id], call.byNack);
    var s' := s.(store := s.store[id := Failed(s.store[id])],
                 calls := s.calls[c := Routing(call.ids[1..], call.byNack, route.ToDeadLetters?)]);
    if route.ToWheel? {
      ScheduleToClosed(Log(s', Retried(id)), id, route.delay);
    }
  }

  lemma MovingStepsAtClosed(s: State, step: Step)
    requires s.ring.closed && Sound(s) && Enabled(s, step)
    requires step.PushPublished? || step.AddDelayed? || step.Expire? || step.PushReplayed? || step.Route? ||
             step.Purge? || step.Sweep?
    ensures Next(s, step).ring == s.ring
  {
    hide Enqueue, Schedule, RouteNext, PurgeAll, TakeAllOverdue;
    match step
    case PushPublished(c) =>
    case AddDelayed(c) => ScheduleToClosed(s.(calls := s.calls - {c}), s.calls[c].id, s.calls[c].delay);
    case Expire(c) =>
      if s.calls[c].ids != [] {
        EnqueueToClosed(s.(calls := s.calls[c := Expiring(s.calls[c].ids[1..])]), s.calls[c].ids[0], false);
      }
    case PushReplayed(c) => EnqueueToClosed(s.(calls := s.calls - {c}), s.calls[c].id, false);
    case Route(c) => RouteToClosed(s, c);
    case Purge => PurgeKeepsRing(s);
    case Sweep(c, g, ids) => TakeAllKeepsRing(s.(calls := s.calls[c := Routing([], false, false)]), c, g, ids);
  }

  lemma StepAtClosed(s: State, step: Step)
    requires s.ring.closed && Sound(s) && Enabled(s, step)
    ensures Next(s, step).ring.closed && Suffix(s.ring.items, Next(s, step).ring.items)
  {
    hide DoPushPublished, DoAddDelayed, DoExpire, DoPushReplayed, RouteNext, PurgeAll, DoSweep, Suffix;
    SuffixOfItself(s.ring.items);
    if step.PushPublished? || step.AddDelayed? || step.Expire? || step.PushReplayed? || step.Route? ||
       step.Purge? || step.Sweep?
    {
      MovingStepsAtClosed(s, step);
    }
  }

  /** In every run, once the ring of a topic is closed it stays so, nothing enters it any more, and what
      was in it is taken in order. */
  lemma {:induction false} ClosedRingDrains(trace: seq<State>, steps: seq<Step>, i: nat, j: nat, c: nat)
    requires IsRun(trace, steps) && i < j < |trace| && i < |steps| && steps[i] == CloseRing(c)
    ensures trace[j].ring.closed && Suffix(trace[i].ring.items, trace[j].ring.items)
    decreases j
  {
    hide Suffix;
    if j == i + 1 {
      StepAt(trace, steps, i);
      SuffixOfItself(trace[i].ring.items);
    } else {
      hide IsRun, Next, Enabled, Sound;
      RunLength(trace, steps);
      ClosedRingDrains(trace, steps, i, j - 1, c);
      StepAt(trace, steps, j - 1);
      StepAtClosed(trace[j - 1], steps[j - 1]);
      SuffixOfSuffix(trace[i].ring.items, trace[j - 1].ring.items, trace[j].ring.items);
    }
  }

  // ---- the topic ----

  lemma EnqueueKeepsFlag(s: State, id: Id, front: bool)
    ensures Enqueue(s, id, front).closed == s.closed
  {
  }

  lemma {:induction false} PurgeKeepsFlag(s: State)
    ensures PurgeAll(s).closed == s.closed
    decreases |s.dlq|
  {
    if s.dlq != [] {
      PurgeKeepsFlag(LoseOldestLetter(s, Purged));
    }
  }

  lemma {:induction false} TakeAllKeepsFlag(s: State, c: nat, g: string, ids: seq<Id>)
    requires CanTake(s, c, g, ids)
    ensures TakeAllOverdue(s, c, g, ids).closed == s.closed
    decreases |ids|
  {
    if ids != [] {
      assert ids[0] in ids;
      assert forall i :: 0 <= i < |ids[1..]| ==> ids[1..][i] == ids[i + 1];
      TakeAllKeepsFlag(TakeOverdue(s, c, g, ids[0]), c, g, ids[1..]);
    }
  }

  lemma StepKeepsFlag(s: State, step: Step)
    requires s.closed && Sound(s) && Enabled(s, step)
    ensures Next(s, step).closed
  {
    hide DoPushPublished, DoAddDelayed, DoExpire, DoPushReplayed, RouteNext, PurgeAll, DoSweep;
    if step.PushPublished? || step.AddDelayed? || step.Expire? || step.PushReplayed? || step.Route? ||
       step.Purge? || step.Sweep?
    {
      MovingStepsKeepFlag(s, step);
    }
  }

  lemma MovingStepsKeepFlag(s: State, step: Step)
    requires Sound(s) && Enabled(s, step)
    requires step.PushPublished? || step.AddDelayed? || step.Expire? || step.PushReplayed? || step.Route? ||
             step.Purge? || step.Sweep?
    ensures Next(s, step).closed == s.closed
  {
    hide Enqueue, PurgeAll, TakeAllOverdue, Wheel.Add, DL.Put, RouteAfter, Ticks, Sound;
    forall s', id, front
      ensures Enqueue(s', id, front).closed == s'.closed
    {
      EnqueueKeepsFlag(s', id, front);
    }
    if step.Purge? {
      PurgeKeepsFlag(s);
    } else if step.Sweep? {
      TakeAllKeepsFlag(s.(calls := s.calls[step.call := Routing([], false, false)]), step.call, step.group, step.ids);
    }
  }

  lemma {:induction false} FlagStays(trace: seq<State>, steps: seq<Step>, i: nat, j: nat)
    requires IsRun(trace, steps) && i <= j < |trace| && trace[i].closed
    ensures trace[j].closed
    decreases j
  {
    hide IsRun, Next, Enabled, Sound;
    RunLength(trace, steps);
    if i < j {
      FlagStays(trace, steps, i, j - 1);
      StepAt(trace, steps, j - 1);
      StepKeepsFlag(trace[j - 1], steps[j - 1]);
    }
  }

  /** In every run, from the moment a topic begins to close, every call of Publish or PublishFront that
      comes later is refused at once and leaves everything but the fate of its message as it was. */
  lemma ClosedTopicRefuses(trace: seq<State>, steps: seq<Step>, i: nat, j: nat, c: nat)
    requires IsRun(trace, steps) && i < j < |steps| && steps[i] == BeginClose(c) && steps[j].BeginPublish?
    ensures var s, step := trace[j], steps[j];
            trace[j + 1] == s.(fate := s.fate[step.id := Refused],
                               store := s.store[step.id := Info(0, step.maxRetries)])
  {
    RunLength(trace, steps);
    StepAt(trace, steps, i);
    FlagStays(trace, steps, i + 1, j);
    StepAt(trace, steps, j);
  }

  // ---- the wheel ----

  lemma StepAtStopped(s: State, step: Step, id: Id, n: nat)
    requires s.wheel.closed && s.wheel.Valid() && Sound(s) && Enabled(s, step)
    ensures var w := Next(s, step).wheel;
            && w.closed && w.Valid()
            && W.Waiting(w, id, n) == W.Waiting(s.wheel, id, n + if step.Advance? then 1 else 0)
  {
    if step.Advance? {
      hide W.Waiting;
      W.AdvanceTicks(s.wheel, id, n);
    } else {
      hide Next, Enabled, Sound, Target, Rounds;
      StepGains(s, step);
    }
  }

  lemma StoppedNow(s: State, c: nat)
    requires Sound(s) && Enabled(s, StopWheel(c))
    ensures var w := Next(s, StopWheel(c)).wheel;
            s.wheel.Valid() && w.closed && w.buckets == s.wheel.buckets && w.current == s.wheel.current
  {
  }

  /** In every run, once the wheel is stopped no timer is set any more, and those that are set run down
      with every advance as before. */
  lemma {:induction false} StoppedWheelRunsDown(trace: seq<State>, steps: seq<Step>, i: nat, j: nat, c: nat,
                                                id: Id, n: nat)
    requires IsRun(trace, steps) && i < j < |trace| && i < |steps| && steps[i] == StopWheel(c)
    ensures trace[i].wheel.Valid() && trace[j].wheel.closed && trace[j].wheel.Valid()
    ensures W.Waiting(trace[j].wheel, id, n) == W.Waiting(trace[i].wheel, id, n + Advances(steps[i + 1..j]))
    decreases j
  {
    hide IsRun, Next, Enabled, Sound;
    RunLength(trace, steps);
    StepAt(trace, steps, i);
    StoppedNow(trace[i], c);
    if j == i + 1 {
      assert steps[i + 1..j] == [];
    } else {
      hide W.Waiting;
      StepAt(trace, steps, j - 1);
      var more := if steps[j - 1].Advance? then 1 else 0;
      assert steps[i + 1..j][..j - 2 - i] == steps[i + 1..j - 1];
      StoppedWheelRunsDown(trace, steps, i, j - 1, c, id, n + more);
      StepAtStopped(trace[j - 1], steps[j - 1], id, n);
    }
  }
}
