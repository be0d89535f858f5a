/** What the wheel, the groups and the ring promise together: when a failed message comes back. */
module Retries {
  import opened Ring
  import opened Wheel
  import W = WheelTime
  import opened Backoff
  import opened Sums
  import Bits
  import DL = DeadLetters
  import LO = LetterOrder
  import G = Group
  import opened Machine = Topic
  import opened Conservation
  import D = Delivery
  import opened TopicRuns
  import T = TopicTheorems

  // ---- where a failed message goes ----

  /** A rejected message with retries left is sent round the wheel without any delay exactly when
      the computed delay has overflowed. */
  lemma NackDelayIsPositiveIffSafe(retry: nat, maxRetries: int)
    requires retry >= 1
    ensures G.AfterNack(retry, maxRetries).ToWheel? <==> retry < maxRetries
    ensures retry < maxRetries ==> (G.AfterNack(retry, maxRetries).delay > 0 <==> Safe(retry))
  {
    DelayIsAsIntended(retry);
  }

  /** A rejected message with retries left waits as long as is documented, 100 ms doubled per retry and
      at most ten seconds, exactly when the retry count is a safe one. */
  lemma NackDelayIsIntendedIffSafe(retry: nat, maxRetries: int)
    requires 1 <= retry < maxRetries
    ensures G.AfterNack(retry, maxRetries) == G.ToWheel(Intended(retry)) <==> Safe(retry)
  {
    DelayIsAsIntended(retry);
  }

  /** With at most 38 retries allowed, every retry is delayed. */
  lemma EveryRetryIsDelayed(retry: nat, maxRetries: int)
    requires 1 <= retry < maxRetries <= 38
    ensures G.AfterNack(retry, maxRetries).ToWheel? && G.AfterNack(retry, maxRetries).delay > 0
  {
    NackDelayIsPositiveIffSafe(retry, maxRetries);
  }

  /** Rejected, with retries left, but with a delay that has overflowed. */
  predicate Straight(info: Info, byNack: bool) {
    byNack && info.retry + 1 < info.maxRetries && !Safe(info.retry + 1)
  }

  lemma StraightIsUndelayed(info: Info, byNack: bool)
    ensures var route := RouteAfter(info, byNack);
            Straight(info, byNack) <==> route.ToWheel? && route.delay <= 0
  {
    NackDelayIsPositiveIffSafe(info.retry + 1, info.maxRetries);
  }

  lemma PushedIsThere(d: Deque<Id>, id: Id)
    requires !d.closed
    ensures id in d.Push(id).items
  {
    assert d.Push(id).items[|d.Push(id).items| - 1] == id;
  }

  /** The ring after a message was routed that was not in it. */
  lemma RingAfterRoute(s: State, c: nat)
    requires s.wheel.Valid() && c in s.calls && s.calls[c].Routing? && s.calls[c].ids != []
    requires s.calls[c].ids[0] in s.store && s.calls[c].ids[0] !in s.ring.items
    ensures var id := s.calls[c].ids[0];
            id in RouteNext(s, c).ring.items <==> Straight(s.store[id], s.calls[c].byNack) && !s.ring.closed
  {
    hide Deque.Push, DL.Put, RouteAfter, Straight, Victims;
    var id := s.calls[c].ids[0];
    StraightIsUndelayed(s.store[id], s.calls[c].byNack);
    if !s.ring.closed {
      PushedIsThere(s.ring, id);
    }
  }

  /** In every run, routing a failed message puts it straight into the ring exactly when it was
      rejected, has retries left, and the delay for this one has overflowed; the ring must be open. */
  lemma RoutedStraightIffOverflown(trace: seq<State>, steps: seq<Step>, i: nat, c: nat)
    requires IsRun(trace, steps) && i < |steps| && steps[i] == Route(c)
    ensures var s := trace[i];
            && c in s.calls && s.calls[c].Routing? && s.calls[c].ids != [] && s.calls[c].ids[0] in s.store
            && var id := s.calls[c].ids[0];
               id in trace[i + 1].ring.items <==> Straight(s.store[id], s.calls[c].byNack) && !s.ring.closed
  {
    var s := trace[i];
    assert IsStep(s, steps[i], trace[i + 1]);
    hide IsRun, RouteNext, Straight, T.At, T.Scheduled;
    var id := s.calls[c].ids[0];
    assert s.calls[c].ids[0] in s.store;
    T.EveryMessageInOnePlace(trace, steps, i, id);
    assert T.At(s, id, T.InHands(c)) && (id in s.ring.items ==> T.At(s, id, T.InRing)) by {
      HeldIsInHands(s, c, id);
    }
    RingAfterRoute(s, c);
  }

  lemma HeldIsInHands(s: State, c: nat, id: Id)
    requires c in s.calls && s.calls[c].Routing? && id in s.calls[c].ids
    ensures T.At(s, id, T.InHands(c)) && (id in s.ring.items ==> T.At(s, id, T.InRing))
  {
  }

  /** With at most 38 retries allowed, a failed message never goes straight to the ring. */
  lemma FewRetriesAreNeverStraight(trace: seq<State>, steps: seq<Step>, i: nat, c: nat)
    requires IsRun(trace, steps) && i < |steps| && steps[i] == Route(c)
    ensures var s := trace[i];
            && c in s.calls && s.calls[c].Routing? && s.calls[c].ids != [] && s.calls[c].ids[0] in s.store
            && var id := s.calls[c].ids[0];
               s.store[id].maxRetries <= 38 ==> id !in trace[i + 1].ring.items
  {
    var s := trace[i];
    RoutedStraightIffOverflown(trace, steps, i, c);
    var id := s.calls[c].ids[0];
    assert s.store[id].maxRetries <= 38 ==> !Straight(s.store[id], s.calls[c].byNack);
  }

  // ---- when it comes back ----

  lemma {:induction false} TimersOfBucket(b: seq<Timer<Id>>, id: Id, r: nat, r': nat)
    requires r != r'
    ensures multiset(b)[Timer(id, r)] + multiset(b)[Timer(id, r')] <= InBucket(b, Only(id))
  {
    if b != [] {
      var n := |b| - 1;
      TimersOfBucket(b[..n], id, r, r');
      assert b == b[..n] + [b[n]];
    }
  }

  lemma {:induction false} BucketAtMostAll(bs: seq<seq<Timer<Id>>>, i: nat, q: Query)
    requires i < |bs|
    ensures InBucket(bs[i], q) <= InBuckets(bs, q)
    decreases |bs|
  {
    hide InBucket;
    if i < |bs| - 1 {
      BucketAtMostAll(bs[..|bs| - 1], i, q);
    }
  }

  lemma {:induction false} TwoBucketsAtMostAll(bs: seq<seq<Timer<Id>>>, i: nat, j: nat, q: Query)
    requires i < j < |bs|
    ensures InBucket(bs[i], q) + InBucket(bs[j], q) <= InBuckets(bs, q)
    decreases |bs|
  {
    hide InBucket;
    var n := |bs| - 1;
    if j < n {
      TwoBucketsAtMostAll(bs[..n], i, j, q);
    } else {
      BucketAtMostAll(bs[..n], i, q);
    }
  }

  /** Timers of one message at different distances are different timers. */
  lemma TimersAtMostAll(w: Wheel<Id>, id: Id, n: nat, n': nat)
    requires w.Valid() && n != n'
    ensures W.Waiting(w, id, n) + W.Waiting(w, id, n') <= InBuckets(w.buckets, Only(id))
  {
    var slots := |w.buckets|;
    var i, j := Target(w.current, n, slots), Target(w.current, n', slots);
    var r, r' := Rounds(n, slots), Rounds(n', slots);
    hide Target, Rounds, InBucket, InBuckets;
    if i == j {
      if r == r' {
        W.PlaceIsInjective(w.current, n, n', slots);
      } else {
        TimersOfBucket(w.buckets[i], id, r, r');
        BucketAtMostAll(w.buckets, i, Only(id));
      }
    } else {
      TimersOfBucket(w.buckets[i], id, r, r + 1);
      TimersOfBucket(w.buckets[j], id, r', r' + 1);
      TwoBucketsAtMostAll(w.buckets, if i < j then i else j, if i < j then j else i, Only(id));
    }
  }

  /** The message has one timer, which has n ticks left. */
  ghost predicate Waits(s: State, id: Id, n: nat) {
    s.wheel.Valid() && W.Waiting(s.wheel, id, n) == 1
  }

  lemma OneTimerEach(s: State, id: Id)
    requires Conserved(s, [])
    ensures InBuckets(s.wheel.buckets, Only(id)) <= 1
  {
    hide InBuckets, Conserved, Count, InPels, InLetters, InCalls;
    D.OnePlace(s, id);
  }

  /** What a step that is not an advance does to the wheel: nothing, stop it, or add a timer. */
  ghost predicate GainsTimers(w: Wheel<Id>, w': Wheel<Id>) {
    || (w'.buckets == w.buckets && w'.current == w.current && (w.closed ==> w'.closed))
    || (w.Valid() && exists id, ticks :: w' == w.Add(id, ticks))
  }

  lemma ScheduleGains(s: State, id: Id, delay: int)
    requires s.wheel.Valid()
    ensures GainsTimers(s.wheel, Schedule(s, id, delay).wheel)
  {
    hide Wheel.Add, Enqueue, Ticks;
    if delay <= 0 {
      EnqueueKeepsWheel(s, id, false);
    } else if !s.wheel.closed {
      assert Schedule(s, id, delay).wheel == s.wheel.Add(id, Ticks(delay, TICK));
    }
  }

  lemma EnqueueKeepsWheel(s: State, id: Id, front: bool)
    ensures Enqueue(s, id, front).wheel == s.wheel
  {
    hide Deque.Push, Deque.PushFront, Victims, Lose;
    LoseKeepsWheel(s, id, RingClosed);
    var gone := Victims(s.ring, front);
    if gone != [] {
      LoseKeepsWheel(s.(ring := if front then s.ring.PushFront(id) else s.ring.Push(id)), gone[0], Saturated);
    }
  }

  lemma LoseKeepsWheel(s: State, id: Id, cause: Cause)
    ensures Lose(s, id, cause).wheel == s.wheel
  {
  }

  lemma {:induction false} PurgeKeepsWheel(s: State)
    ensures PurgeAll(s).wheel == s.wheel
    decreases |s.dlq|
  {
    if s.dlq != [] {
      PurgeKeepsWheel(LoseOldestLetter(s, Purged));
    }
  }

  lemma {:induction false} TakeAllKeepsWheel(s: State, c: nat, g: string, ids: seq<Id>)
    requires CanTake(s, c, g, ids)
    ensures TakeAllOverdue(s, c, g, ids).wheel == s.wheel
    decreases |ids|
  {
    if ids != [] {
      assert ids[0] in ids;
      assert forall i :: 0 <= i < |ids[1..]| ==> ids[1..][i] == ids[i + 1];
      TakeAllKeepsWheel(TakeOverdue(s, c, g, ids[0]), c, g, ids[1..]);
    }
  }

  /** Every step but an advance leaves the timers that are set alone. */
  lemma StepGains(s: State, step: Step)
    requires Sound(s) && Enabled(s, step) && !step.Advance?
    ensures GainsTimers(s.wheel, Next(s, step).wheel)
  {
    hide Enqueue, Schedule, PurgeAll, TakeAllOverdue, Wheel.Add, Wheel.Advance, DL.Put, RouteAfter;
    if step.AddDelayed? {
      var call := s.calls[step.call];
      ScheduleGains(s.(calls := s.calls - {step.call}), call.id, call.delay);
    } else if step.Route? {
      RouteGains(s, step.call);
    } else {
      OtherStepsKeepWheel(s, step);
    }
  }

  lemma RouteGains(s: State, c: nat)
    requires Sound(s) && Enabled(s, Route(c))
    ensures GainsTimers(s.wheel, RouteNext(s, c).wheel)
  {
    assert s.calls[c].ids[0] in s.store;
    hide Schedule, Wheel.Add, DL.Put, RouteAfter, Sound;
    var call := s.calls[c];
    var id := call.ids[0];
    var route := RouteAfter(s.store[id], call.byNack);
    var s' := s.(store := s.store[id := Failed(s.store[id])],
                 calls := s.calls[c := Routing(call.ids[1..], call.byNack, route.ToDeadLetters?)]);
    if route.ToWheel? {
      ScheduleGains(Log(s', Retried(id)), id, route.delay);
    }
  }

  lemma OtherStepsKeepWheel(s: State, step: Step)
    requires Sound(s) && Enabled(s, step) && !step.Advance? && !step.AddDelayed? && !step.Route?
    ensures Next(s, step).wheel.buckets == s.wheel.buckets && Next(s, step).wheel.current == s.wheel.current
    ensures s.wheel.closed ==> Next(s, step).wheel.closed
  {
    hide DoPushPublished, DoExpire, DoPushReplayed, PurgeAll, DoSweep;
    if step.PushPublished? || step.Expire? || step.PushReplayed? || step.Purge? || step.Sweep? {
      MovingStepsKeepWheel(s, step);
    }
  }

  lemma MovingStepsKeepWheel(s: State, step: Step)
    requires Sound(s) && Enabled(s, step)
    requires step.PushPublished? || step.Expire? || step.PushReplayed? || step.Purge? || step.Sweep?
    ensures Next(s, step).wheel == s.wheel
  {
    hide Sound, Enqueue, PurgeAll, TakeAllOverdue;
    match step
    case PushPublished(c) =>
      var call := s.calls[c];
      EnqueueKeepsWheel(Log(s.(calls := s.calls[c := Published]), Entered(call.id)), call.id, call.front);
    case Expire(c) =>
      if s.calls[c].ids != [] {
        EnqueueKeepsWheel(s.(calls := s.calls[c := Expiring(s.calls[c].ids[1..])]), s.calls[c].ids[0], false);
      }
    case PushReplayed(c) => EnqueueKeepsWheel(s.(calls := s.calls - {c}), s.calls[c].id, false);
    case Purge => PurgeKeepsWheel(s);
    case Sweep(c, g, ids) => TakeAllKeepsWheel(s.(calls := s.calls[c := Routing([], false, false)]), c, g, ids);
  }

  lemma GainKeepsTimer(w: Wheel<Id>, w': Wheel<Id>, id: Id, n: nat)
    requires w.Valid() && GainsTimers(w, w')
    ensures w'.Valid() && W.Waiting(w', id, n) >= W.Waiting(w, id, n)
  {
    hide Target, Rounds;
    if !(w'.buckets == w.buckets && w'.current == w.current && (w.closed ==> w'.closed)) {
      var other, ticks :| w' == w.Add(other, ticks);
      W.AddWaits(w, other, ticks, id, n);
    }
  }

  /** One step: an advance takes a tick off, or fires the message if there is none left; every other
      step leaves its timer as it is. */
  lemma StepKeepsTimer(s: State, step: Step, id: Id, n: nat)
    requires Laws(s) && Sound(s) && Enabled(s, step) && Waits(s, id, n)
    ensures !step.Advance? ==> Waits(Next(s, step), id, n)
    ensures step.Advance? && n > 0 ==> Waits(Next(s, step), id, n - 1)
    ensures step.Advance? ==>
              && step.call in Next(s, step).calls && Next(s, step).calls[step.call].Expiring?
              && (id in Next(s, step).calls[step.call].ids <==> n == 0)
  {
    if step.Advance? {
      AdvanceKeepsTimer(s, id, n);
    } else {
      hide Laws, Sound, Next, Enabled, W.Waiting, GainsTimers, InBuckets, Conserved;
      StepGains(s, step);
      GainKeepsTimer(s.wheel, Next(s, step).wheel, id, n);
      StepKeepsLaws(s, step);
      AtMostOneTimer(Next(s, step), id, n);
    }
  }

  lemma AtMostOneTimer(s: State, id: Id, n: nat)
    requires Laws(s) && s.wheel.Valid()
    ensures W.Waiting(s.wheel, id, n) <= 1
    ensures forall n' :: n' != n && W.Waiting(s.wheel, id, n) == 1 ==> W.Waiting(s.wheel, id, n') == 0
  {
    hide W.Waiting, InBuckets, Sound, Conserved;
    OneTimerEach(s, id);
    forall n': nat | n' != n
      ensures W.Waiting(s.wheel, id, n) + W.Waiting(s.wheel, id, n') <= 1
    {
      TimersAtMostAll(s.wheel, id, n, n');
    }
    TimersAtMostAll(s.wheel, id, n, n + 1);
  }

  lemma AdvanceKeepsTimer(s: State, id: Id, n: nat)
    requires Laws(s) && Waits(s, id, n)
    ensures n > 0 ==> s.wheel.Advance().Valid() && W.Waiting(s.wheel.Advance(), id, n - 1) == 1
    ensures id in s.wheel.Due() <==> n == 0
  {
    hide W.Waiting, Laws, Wheel.Due, Wheel.Advance;
    AtMostOneTimer(s, id, n);
    W.DueIsZeroTicks(s.wheel, id);
    if n > 0 {
      W.AdvanceTicks(s.wheel, id, n - 1);
    }
  }

  // ---- over a whole run ----

  /** The ticks of the wheel among these steps. */
  function Advances(steps: seq<Step>): nat {
    if steps == [] then 0 else Advances(steps[..|steps| - 1]) + if steps[|steps| - 1].Advance? then 1 else 0
  }

  lemma RunLength(trace: seq<State>, steps: seq<Step>)
    requires IsRun(trace, steps)
    ensures |trace| == |steps| + 1
  {
  }

  lemma StepAt(trace: seq<State>, steps: seq<Step>, i: nat)
    requires IsRun(trace, steps) && i < |steps|
    ensures |trace| == |steps| + 1 && Sound(trace[i]) && Enabled(trace[i], steps[i])
    ensures trace[i + 1] == Next(trace[i], steps[i])
  {
    hide Sound, Enabled, Next;
    assert IsStep(trace[i], steps[i], trace[i + 1]);
  }

  /** As long as the wheel has not ticked more often than a timer says, the timer is there, with the
      ticks that are left. */
  lemma {:induction false} TimerRunsDown(trace: seq<State>, steps: seq<Step>, i: nat, j: nat, id: Id, n: nat)
    requires IsRun(trace, steps) && i <= j < |trace| && Waits(trace[i], id, n) && Advances(steps[i..j]) <= n
    ensures Waits(trace[j], id, n - Advances(steps[i..j]))
    decreases j
  {
    hide Waits, IsRun, Enabled, Next, Laws, Sound;
    RunLength(trace, steps);
    if i < j {
      StepAt(trace, steps, j - 1);
      assert steps[i..j][..j - 1 - i] == steps[i..j - 1];
      TimerRunsDown(trace, steps, i, j - 1, id, n);
      EveryRunKeepsTheLaws(trace, steps, j - 1);
      StepKeepsTimer(trace[j - 1], steps[j - 1], id, n - Advances(steps[i..j - 1]));
    }
  }

  lemma NotScheduledDoesNotWait(w: Wheel<Id>, id: Id, n: nat)
    requires w.Valid() && !T.Scheduled(w.buckets, id)
    ensures W.Waiting(w, id, n) == 0
  {
    var b := w.buckets[Target(w.current, n, |w.buckets|)];
    var t := Timer(id, Rounds(n, |w.buckets|));
    assert t in multiset(b) <==> t in b;
  }

  /** The message that is routed next, and where to. */
  ghost predicate RoutedTo(s: State, c: nat, id: Id, delay: int) {
    && c in s.calls && s.calls[c].Routing? && s.calls[c].ids != [] && s.calls[c].ids[0] == id && id in s.store
    && RouteAfter(s.store[id], s.calls[c].byNack) == G.ToWheel(delay)
  }

  lemma RoutedWaits(trace: seq<State>, steps: seq<Step>, i: nat, c: nat, id: Id, delay: int)
    requires IsRun(trace, steps) && i < |steps| && steps[i] == Route(c)
    requires RoutedTo(trace[i], c, id, delay) && delay > 0 && !trace[i].wheel.closed
    ensures Waits(trace[i + 1], id, Ticks(delay, TICK))
  {
    var s := trace[i];
    assert IsStep(s, steps[i], trace[i + 1]);
    hide IsRun, RouteAfter, Ticks, Target, Rounds, T.At;
    T.EveryMessageInOnePlace(trace, steps, i, id);
    HeldIsNotScheduled(s, c, id);
    NotScheduledDoesNotWait(s.wheel, id, Ticks(delay, TICK));
    W.AddWaits(s.wheel, id, Ticks(delay, TICK), id, Ticks(delay, TICK));
    assert trace[i + 1].wheel == s.wheel.Add(id, Ticks(delay, TICK));
  }

  lemma HeldIsNotScheduled(s: State, c: nat, id: Id)
    requires c in s.calls && s.calls[c].Routing? && id in s.calls[c].ids
    requires forall p, p' :: T.At(s, id, p) && T.At(s, id, p') ==> p == p'
    ensures !T.Scheduled(s.wheel.buckets, id)
  {
    assert T.At(s, id, T.InHands(c));
    assert T.Scheduled(s.wheel.buckets, id) ==> T.At(s, id, T.InWheel);
  }

  /** In every run, a failed message that is sent round the wheel is dispatched by exactly the advance
      number max(1, delay / tick) + 1 after it was sent, whatever else happens in between. */
  lemma RetriedOnTime(trace: seq<State>, steps: seq<Step>, i: nat, j: nat, c: nat, id: Id, delay: int)
    requires IsRun(trace, steps) && i < j < |steps| && steps[i] == Route(c) && steps[j].Advance?
    requires RoutedTo(trace[i], c, id, delay) && delay > 0 && !trace[i].wheel.closed
    requires Advances(steps[i + 1..j]) <= Ticks(delay, TICK)
    ensures steps[j].call in trace[j + 1].calls && trace[j + 1].calls[steps[j].call].Expiring?
    ensures id in trace[j + 1].calls[steps[j].call].ids <==> Advances(steps[i + 1..j]) == Ticks(delay, TICK)
  {
    hide IsRun, Enabled, Next, Laws, Sound, Waits, RoutedTo, Ticks;
    RunLength(trace, steps);
    StepAt(trace, steps, j);
    RoutedWaits(trace, steps, i, c, id, delay);
    TimerRunsDown(trace, steps, i + 1, j, id, Ticks(delay, TICK));
    EveryRunKeepsTheLaws(trace, steps, j);
    StepKeepsTimer(trace[j], steps[j], id, Ticks(delay, TICK) - Advances(steps[i + 1..j]));
  }

  // ---- the same with the delays written out ----

  /** 100 ms doubled per failure so far, at most ten seconds, in nanoseconds. */
  function Pause(failures: nat): (d: int)
    ensures 0 < d <= 10_000_000_000
  {
    var d := 100_000_000 * Bits.Pow2(failures);
    if d > 10_000_000_000 then 10_000_000_000 else d
  }

  /** The call is about to deal with this message. */
  predicate IsNext(s: State, c: nat, id: Id, byNack: bool) {
    && c in s.calls && s.calls[c].Routing? && s.calls[c].byNack == byNack
    && s.calls[c].ids != [] && s.calls[c].ids[0] == id && id in s.store
  }

  /** The advance hands the message to the expiry callback. */
  predicate Dispatches(s: State, step: Step, id: Id) {
    step.Advance? && step.call in s.calls && s.calls[step.call].Expiring? && id in s.calls[step.call].ids
  }

  lemma WholeTicks(d: int)
    requires d >= 50_000_000
    ensures Ticks(d, TICK) == d / 50_000_000 >= 1
  {
    W.PositiveQuotient(d, TICK);
  }

  lemma PauseIsLong(failures: nat)
    ensures Pause(failures) >= 100_000_000
  {
    assert Bits.Pow2(failures) >= 1;
  }

  /** In every run, a rejected message with n failures before and retries left, n + 1 being a safe retry
      count, is dispatched by exactly the advance number p / 50 ms + 1 after it was routed, where p is
      min(10 s, 100 ms * 2^n). */
  lemma RejectedComesBackOnTime(trace: seq<State>, steps: seq<Step>, i: nat, j: nat, c: nat, id: Id)
    requires IsRun(trace, steps) && i < j < |steps| && steps[i] == Route(c) && steps[j].Advance?
    requires IsNext(trace[i], c, id, true) && !trace[i].wheel.closed
    requires Safe(trace[i].store[id].retry + 1) && trace[i].store[id].retry + 1 < trace[i].store[id].maxRetries
    requires Advances(steps[i + 1..j]) <= Pause(trace[i].store[id].retry) / 50_000_000
    ensures Dispatches(trace[j + 1], steps[j], id) <==>
            Advances(steps[i + 1..j]) == Pause(trace[i].store[id].retry) / 50_000_000
  {
    var info := trace[i].store[id];
    var d := Pause(info.retry);
    NackDelayIsIntendedIffSafe(info.retry + 1, info.maxRetries);
    PauseIsLong(info.retry);
    assert Intended(info.retry + 1) == d;
    assert RoutedTo(trace[i], c, id, d);
    hide IsRun, Pause, Advances;
    WholeTicks(d);
    RetriedOnTime(trace, steps, i, j, c, id, d);
  }

  /** In every run, a message that timed out and has retries left is dispatched by exactly the eleventh
      advance after it was routed: 500 ms are ten ticks. */
  lemma TimedOutComesBackOnTime(trace: seq<State>, steps: seq<Step>, i: nat, j: nat, c: nat, id: Id)
    requires IsRun(trace, steps) && i < j < |steps| && steps[i] == Route(c) && steps[j].Advance?
    requires IsNext(trace[i], c, id, false) && !trace[i].wheel.closed
    requires trace[i].store[id].retry + 1 < trace[i].store[id].maxRetries
    requires Advances(steps[i + 1..j]) <= 10
    ensures Dispatches(trace[j + 1], steps[j], id) <==> Advances(steps[i + 1..j]) == 10
  {
    assert RoutedTo(trace[i], c, id, 500_000_000);
    hide IsRun, Advances;
    WholeTicks(500_000_000);
    RetriedOnTime(trace, steps, i, j, c, id, 500_000_000);
  }

  /** In every run, a message that fails for the last time is the last dead letter once it was routed,
      with the number of its failures. */
  lemma LastFailureIsDeadLetter(trace: seq<State>, steps: seq<Step>, i: nat, c: nat, id: Id, byNack: bool)
    requires IsRun(trace, steps) && i < |steps| && steps[i] == Route(c)
    requires IsNext(trace[i], c, id, byNack)
    requires trace[i].store[id].retry + 1 >= trace[i].store[id].maxRetries
    ensures var q := trace[i + 1].dlq;
            q != [] && q[|q| - 1] == (id, trace[i].store[id].retry + 1)
  {
    var s := trace[i];
    StepAt(trace, steps, i);
    hide IsRun, T.At, DL.Has, DL.Put;
    T.EveryMessageInOnePlace(trace, steps, i, id);
    NotALetter(s, c, id);
    LO.NewLetterIsLast(s.dlq, s.dlqMax, id, s.store[id].retry + 1);
    assert trace[i + 1].dlq == DL.Put(s.dlq, s.dlqMax, id, s.store[id].retry + 1);
  }

  lemma NotALetter(s: State, c: nat, id: Id)
    requires c in s.calls && s.calls[c].Routing? && id in s.calls[c].ids
    requires forall p, p' :: T.At(s, id, p) && T.At(s, id, p') ==> p == p'
    ensures !DL.Has(s.dlq, id)
  {
    hide DL.Has, T.Scheduled;
    assert T.At(s, id, T.InHands(c));
    assert DL.Has(s.dlq, id) ==> T.At(s, id, T.DeadLetter);
  }
}
