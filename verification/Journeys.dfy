/** What becomes of a call's own message between the steps of that call, whatever other calls do: where
    it lands in the ring, and when a delayed one is dispatched. */
module Journeys {
  import opened Ring
  import opened Wheel
  import W = WheelTime
  import opened Sums
  import G = Group
  import opened Machine = Topic
  import opened TopicMemory
  import opened TopicRuns
  import T = TopicTheorems
  import opened Retries

  // ---- a call is changed by its own steps only ----

  /** The step is one of this call. */
  predicate StepOf(step: Step, c: nat) {
    match step
    case CreateGroup(_) => false
    case Purge => false
    case Clock(_) => false
    case _ => step.call == c
  }

  lemma MovingStepsKeepOthers(s: State, step: Step, c: nat)
    requires Sound(s) && Enabled(s, step) && c in s.calls && !StepOf(step, c)
    requires step.PushPublished? || step.AddDelayed? || step.Expire? || step.PushReplayed? || step.Route? ||
             step.Purge? || step.Sweep?
    ensures c in Next(s, step).calls && Next(s, step).calls[c] == s.calls[c]
  {
    match step
    case PushPublished(d) => PushPublishedDoes(s, d, s.calls[d].id, s.calls[d].front);
    case AddDelayed(d) => AddDelayedDoes(s, d, s.calls[d].id, s.calls[d].delay);
    case Expire(d) => ExpireDoes(s, d, s.calls[d].ids);
    case PushReplayed(d) => PushReplayedDoes(s, d, s.calls[d].id);
    case Route(d) => RouteDoes(s, d, s.calls[d].ids, s.calls[d].byNack);
    case Purge => PurgeDoes(s);
    case Sweep(d, g, ids) => SweepDoes(s, d, g, ids);
    hide Next, Enabled, Sound;
  }

  lemma StepKeepsOthers(s: State, step: Step, c: nat)
    requires Sound(s) && Enabled(s, step) && c in s.calls && !StepOf(step, c)
    ensures c in Next(s, step).calls && Next(s, step).calls[c] == s.calls[c]
  {
    hide DoPushPublished, DoAddDelayed, DoExpire, DoPushReplayed, RouteNext, PurgeAll, DoSweep;
    if step.PushPublished? || step.AddDelayed? || step.Expire? || step.PushReplayed? || step.Route? ||
       step.Purge? || step.Sweep?
    {
      MovingStepsKeepOthers(s, step, c);
    }
  }

  /** No step between these two is one of the call. */
  predicate Undisturbed(steps: seq<Step>, i: nat, j: nat, c: nat)
    requires j <= |steps|
  {
    forall k :: i <= k < j ==> !StepOf(steps[k], c)
  }

  lemma {:induction false} CallWaits(trace: seq<State>, steps: seq<Step>, i: nat, j: nat, c: nat)
    requires IsRun(trace, steps) && i <= j <= |steps| && j < |trace| && Undisturbed(steps, i, j, c)
    requires c in trace[i].calls
    ensures c in trace[j].calls && trace[j].calls[c] == trace[i].calls[c]
    decreases j
  {
    hide IsRun, Next, Enabled, Sound, StepOf;
    RunLength(trace, steps);
    if i < j {
      CallWaits(trace, steps, i, j - 1, c);
      StepAt(trace, steps, j - 1);
      StepKeepsOthers(trace[j - 1], steps[j - 1], c);
    }
  }

  // ---- where a message lands in the ring ----

  /** The message is the first, or the last; the others are in order, and one of them is gone only from a
      full ring of 16,777,216: the last one, or the first. */
  predicate Placed(d: Deque<Id>, items: seq<Id>, id: Id, front: bool) {
    var full := |d.items| >= d.capacity >= 16_777_216;
    && items != []
    && (front ==> items[0] == id && items[1..] == if full then d.items[..|d.items| - 1] else d.items)
    && (!front ==> items[|items| - 1] == id && items[..|items| - 1] == if full then d.items[1..] else d.items)
  }

  lemma PushIsPlaced(s: State, m: Memory, id: Id, front: bool)
    requires m == Pushed(MemoryOf(s), id, front) && !s.ring.closed && s.ring.Valid()
    ensures Placed(s.ring, m.ring.items, id, front)
  {
  }

  /** In every run, the message of a Publish or PublishFront that found topic and ring open is placed at
      the end, or at the front. */
  lemma PublishedIsPlaced(trace: seq<State>, steps: seq<Step>, i: nat, j: nat, c: nat, id: Id, limit: int, front: bool)
    requires IsRun(trace, steps) && i < j < |steps|
    requires steps[i] == BeginPublish(c, id, limit, front) && steps[j] == PushPublished(c)
    requires Undisturbed(steps, i + 1, j, c) && !trace[i].closed && !trace[j].ring.closed
    ensures Placed(trace[j].ring, trace[j + 1].ring.items, id, front)
  {
    hide IsRun, Next, Enabled, Sound, Placed;
    RunLength(trace, steps);
    StepAt(trace, steps, i);
    OpensCall(trace[i], steps[i]);
    CallWaits(trace, steps, i + 1, j, c);
    StepAt(trace, steps, j);
    PushPublishedDoes(trace[j], c, id, front);
    RingIsValid(trace[j]);
    PushIsPlaced(trace[j], MemoryOf(trace[j + 1]), id, front);
  }

  lemma RingIsValid(s: State)
    requires Sound(s)
    ensures s.ring.Valid() && s.wheel.Valid()
  {
  }

  lemma OpensCall(s: State, step: Step)
    requires Sound(s) && Enabled(s, step)
    ensures step.BeginPublish? && !s.closed ==>
              step.call in Next(s, step).calls && Next(s, step).calls[step.call] == Publishing(step.id, step.front)
    ensures step.BeginDelayed? ==>
              step.call in Next(s, step).calls && Next(s, step).calls[step.call] == Delaying(step.id, step.delay)
    ensures step.Replay? ==>
              step.call in Next(s, step).calls && Next(s, step).calls[step.call] == Replaying(step.id)
  {
  }

  /** In every run, a message that the wheel lets go is placed at the end of the ring. */
  lemma ExpiredIsPlaced(trace: seq<State>, steps: seq<Step>, i: nat, c: nat)
    requires IsRun(trace, steps) && i < |steps| && steps[i] == Expire(c)
    requires c in trace[i].calls && trace[i].calls[c].Expiring? && trace[i].calls[c].ids != [] && !trace[i].ring.closed
    ensures Placed(trace[i].ring, trace[i + 1].ring.items, trace[i].calls[c].ids[0], false)
  {
    hide IsRun, Next, Enabled, Sound, Placed;
    RunLength(trace, steps);
    StepAt(trace, steps, i);
    ExpireDoes(trace[i], c, trace[i].calls[c].ids);
    RingIsValid(trace[i]);
    PushIsPlaced(trace[i], MemoryOf(trace[i + 1]), trace[i].calls[c].ids[0], false);
  }

  /** In every run, a replayed dead letter is placed at the end of the ring. */
  lemma ReplayedIsPlaced(trace: seq<State>, steps: seq<Step>, i: nat, j: nat, c: nat, id: Id)
    requires IsRun(trace, steps) && i < j < |steps| && steps[i] == Replay(c, id) && steps[j] == PushReplayed(c)
    requires Undisturbed(steps, i + 1, j, c) && !trace[j].ring.closed
    ensures Placed(trace[j].ring, trace[j + 1].ring.items, id, false)
  {
    hide IsRun, Next, Enabled, Sound, Placed;
    RunLength(trace, steps);
    StepAt(trace, steps, i);
    OpensCall(trace[i], steps[i]);
    CallWaits(trace, steps, i + 1, j, c);
    StepAt(trace, steps, j);
    PushReplayedDoes(trace[j], c, id);
    RingIsValid(trace[j]);
    PushIsPlaced(trace[j], MemoryOf(trace[j + 1]), id, false);
  }

  // ---- when a delayed message is dispatched ----

  lemma DelayedWaits(trace: seq<State>, steps: seq<Step>, i: nat, c: nat, id: Id, delay: int)
    requires IsRun(trace, steps) && i < |steps| && steps[i] == AddDelayed(c)
    requires c in trace[i].calls && trace[i].calls[c] == Delaying(id, delay) && delay > 0 && !trace[i].wheel.closed
    ensures Waits(trace[i + 1], id, Ticks(delay, TICK))
  {
    hide IsRun, Next, Enabled, Sound, Ticks, Target, Rounds, T.At;
    RunLength(trace, steps);
    var s := trace[i];
    StepAt(trace, steps, i);
    RingIsValid(s);
    AddDelayedDoes(s, c, id, delay);
    T.EveryMessageInOnePlace(trace, steps, i, id);
    DelayedIsNotScheduled(s, c, id);
    NotScheduledDoesNotWait(s.wheel, id, Ticks(delay, TICK));
    W.AddWaits(s.wheel, id, Ticks(delay, TICK), id, Ticks(delay, TICK));
    assert MemoryOf(trace[i + 1]).wheel == s.wheel.Add(id, Ticks(delay, TICK));
  }

  lemma DelayedIsNotScheduled(s: State, c: nat, id: Id)
    requires c in s.calls && s.calls[c].Delaying? && s.calls[c].id == id
    requires forall p, p' :: T.At(s, id, p) && T.At(s, id, p') ==> p == p'
    ensures !T.Scheduled(s.wheel.buckets, id)
  {
    assert T.At(s, id, T.InHands(c));
    assert T.Scheduled(s.wheel.buckets, id) ==> T.At(s, id, T.InWheel);
  }

  /** In every run, a message published with a positive delay is dispatched by exactly the advance number
      max(1, delay / 50 ms) + 1 after its timer was set, whatever else happens in between. */
  lemma DelayedComesOnTime(trace: seq<State>, steps: seq<Step>, h: nat, i: nat, j: nat,
                           c: nat, id: Id, limit: int, delay: int)
    requires IsRun(trace, steps) && h < i < j < |steps|
    requires steps[h] == BeginDelayed(c, id, limit, delay) && steps[i] == AddDelayed(c) && steps[j].Advance?
    requires Undisturbed(steps, h + 1, i, c) && delay > 0 && !trace[i].wheel.closed
    requires Advances(steps[i + 1..j]) <= if delay < 50_000_000 then 1 else delay / 50_000_000
    ensures Dispatches(trace[j + 1], steps[j], id) <==>
            Advances(steps[i + 1..j]) == if delay < 50_000_000 then 1 else delay / 50_000_000
  {
    hide IsRun, Next, Enabled, Sound, Laws, Waits, Ticks, Advances;
    RunLength(trace, steps);
    StepAt(trace, steps, h);
    OpensCall(trace[h], steps[h]);
    CallWaits(trace, steps, h + 1, i, c);
    DelayedWaits(trace, steps, i, c, id, delay);
    W.TicksAre(delay, TICK);
    TimerRunsDown(trace, steps, i + 1, j, id, Ticks(delay, TICK));
    EveryRunKeepsTheLaws(trace, steps, j);
    StepAt(trace, steps, j);
    StepKeepsTimer(trace[j], steps[j], id, Ticks(delay, TICK) - Advances(steps[i + 1..j]));
  }

  // ---- a checkout ----

  lemma OpensCheckout(s: State, step: Step)
    requires Sound(s) && Enabled(s, step) && step.PopForGroup?
    ensures var s' := Next(s, step);
            && step.call in s'.calls && s'.ring.items == s.ring.items[1..]
            && s'.calls[step.call] == CheckingOut(s.ring.items[0], step.group, step.consumer)
  {
  }

  lemma GroupIsThere(s: State, c: nat)
    requires Sound(s) && c in s.calls && s.calls[c].CheckingOut?
    ensures s.calls[c].group in s.groups
  {
  }

  /** In every run, a group read hands out the first message, and for thirty seconds from the moment the
      group writes it down; the checkouts of all others stay as they are. */
  lemma CheckedOutForThirtySeconds(trace: seq<State>, steps: seq<Step>, i: nat, j: nat,
                                   c: nat, g: string, consumer: string)
    requires IsRun(trace, steps) && i < j < |steps|
    requires steps[i] == PopForGroup(c, g, consumer) && steps[j] == Checkout(c) && Undisturbed(steps, i + 1, j, c)
    ensures trace[i].ring.items != [] && g in trace[j].groups
    ensures var id, now := trace[i].ring.items[0], trace[j].now;
            && trace[i + 1].ring.items == trace[i].ring.items[1..]
            && trace[j + 1].groups ==
               trace[j].groups[g := trace[j].groups[g][id := G.Lease(consumer, now, now + 30_000_000_000)]]
  {
    hide IsRun, Next, Sound;
    RunLength(trace, steps);
    StepAt(trace, steps, i);
    OpensCheckout(trace[i], steps[i]);
    CallWaits(trace, steps, i + 1, j, c);
    StepAt(trace, steps, j);
    GroupIsThere(trace[j], c);
    CheckoutDoes(trace[j], c, trace[i].ring.items[0], g, consumer);
    assert MemoryOf(trace[j + 1]).groups == trace[j + 1].groups;
  }
}
