/** The counters of a topic agree with what happened, and what came in agrees with what went out,
    at every step of every interleaving. */
module Accounting {
  import opened Ring
  import opened Wheel
  import DL = DeadLetters
  import G = Group
  import opened Sums
  import opened Topic
  import opened Conservation

  /** How many events of each kind there were. */
  datatype Counts = Counts(
    entries: nat, takes: nat, leases: nat, acks: nat, nacks: nat, timeouts: nat, retries: nat,
    deaths: nat, replays: nat,
    flightLosses: nat,   // lost on the way to the ring or the wheel, or out of the ring
    letterLosses: nat)   // lost from the dead letter queue

  function Bump(n: Counts, e: Event): Counts {
    match e
    case Entered(_) => n.(entries := n.entries + 1)
    case Taken(_) => n.(takes := n.takes + 1)
    case Leased(_, _, _) => n.(leases := n.leases + 1)
    case Acked(_, _) => n.(acks := n.acks + 1)
    case Nacked(_, _) => n.(nacks := n.nacks + 1)
    case TimedOut(_, _, _, _) => n.(timeouts := n.timeouts + 1)
    case Retried(_) => n.(retries := n.retries + 1)
    case Died(_) => n.(deaths := n.deaths + 1)
    case Replayed(_) => n.(replays := n.replays + 1)
    case Vanished(_, cause) =>
      if LetterCause(cause) then n.(letterLosses := n.letterLosses + 1) else n.(flightLosses := n.flightLosses + 1)
  }

  predicate LetterCause(cause: Cause) {
    cause.Evicted? || cause.Purged?
  }

  function Tally(h: seq<Event>): Counts {
    if h == [] then Counts(0, 0, 0, 0, 0, 0, 0, 0, 0, 0, 0)
    else Bump(Tally(h[..|h| - 1]), h[|h| - 1])
  }

  lemma TallyLog(h: seq<Event>, e: Event)
    ensures Tally(h + [e]) == Bump(Tally(h), e)
  {
    assert (h + [e])[..|h|] == h;
  }

  lemma OwedUpdate(calls: map<nat, Call>, c: nat, call: Call)
    ensures forall m: Measure :: InCalls(calls[c := call], m) ==
              InCalls(calls, m) - (if c in calls then Weigh(calls[c], m) else 0) + Weigh(call, m)
  {
    hide InCalls, Weigh;
    forall m: Measure
      ensures InCalls(calls[c := call], m) ==
              InCalls(calls, m) - (if c in calls then Weigh(calls[c], m) else 0) + Weigh(call, m)
    {
      CallsUpdate(calls, c, call, m);
    }
  }

  lemma OwedRemove(calls: map<nat, Call>, c: nat)
    requires c in calls
    ensures forall m: Measure :: InCalls(calls - {c}, m) == InCalls(calls, m) - Weigh(calls[c], m)
  {
    hide InCalls, Weigh;
    forall m: Measure
      ensures InCalls(calls - {c}, m) == InCalls(calls, m) - Weigh(calls[c], m)
    {
      CallsRemove(calls, c, m);
    }
  }

  /** Each counter, plus the increments still owed by calls in progress, is the number of events
      it stands for. */
  ghost predicate CountersAgree(s: State, dead: nat) {
    && s.published + InCalls(s.calls, OwesPublished) == Tally(s.history).entries
    && s.consumed + InCalls(s.calls, OwesConsumed) == Tally(s.history).takes
    && s.acked + InCalls(s.calls, OwesAcked) == Tally(s.history).acks
    && s.nacked + InCalls(s.calls, OwesNacked) == Tally(s.history).nacks
    && s.deadLettered + InCalls(s.calls, OwesDead) == Tally(s.history).deaths + dead
  }

  /** What entered a part of the topic has left it or is in it; `flight` messages are between the
      ring, the wheel and the books, `dead` ones between a failed delivery and the dead letters. */
  ghost predicate FlowsAgree(s: State, flight: nat, dead: nat) {
    && Tally(s.history).entries + Tally(s.history).retries + Tally(s.history).replays ==
       Tally(s.history).takes + |s.ring.items| + InBuckets(s.wheel.buckets, All) +
       InCalls(s.calls, InFlight) + Tally(s.history).flightLosses + flight
    && Tally(s.history).leases ==
       Tally(s.history).acks + Tally(s.history).nacks + Tally(s.history).timeouts + InPels(s.groups, All)
    && Tally(s.history).nacks + Tally(s.history).timeouts ==
       Tally(s.history).retries + Tally(s.history).deaths + InCalls(s.calls, ToRoute) + dead
    && Tally(s.history).deaths == |s.dlq| + Tally(s.history).replays + Tally(s.history).letterLosses
  }

  ghost predicate Books(s: State, flight: nat, dead: nat) {
    CountersAgree(s, dead) && FlowsAgree(s, flight, dead)
  }

  lemma LoseBalances(s: State, id: Id, cause: Cause, dead: nat)
    requires Books(s, 1, dead) && !LetterCause(cause)
    ensures Books(Lose(s, id, cause), 0, dead)
  {
    hide Tally, InCalls, InBuckets, InPels;
    TallyLog(s.history, Vanished(id, cause));
  }

  lemma EnqueueBalances(s: State, id: Id, front: bool, dead: nat)
    requires Books(s, 1, dead) && s.ring.Valid()
    ensures Books(Enqueue(s, id, front), 0, dead)
  {
    hide Tally, InCalls, InBuckets, InPels;
    if s.ring.closed {
      LoseBalances(s, id, RingClosed, dead);
    } else {
      var s' := s.(ring := if front then s.ring.PushFront(id) else s.ring.Push(id));
      var gone := Victims(s.ring, front);
      if gone != [] {
        assert Books(s', 1, dead);
        LoseBalances(s', gone[0], Saturated, dead);
      }
    }
  }

  lemma ScheduleBalances(s: State, id: Id, delay: int, dead: nat)
    requires Books(s, 1, dead) && s.ring.Valid() && s.wheel.Valid()
    ensures Books(Schedule(s, id, delay), 0, dead)
  {
    hide Tally, InCalls, InBuckets, InPels, Enqueue, Lose;
    if delay <= 0 {
      EnqueueBalances(s, id, false, dead);
    } else if s.wheel.closed {
      LoseBalances(s, id, WheelClosed, dead);
    } else {
      WheelAdd(s.wheel, id, Ticks(delay, TICK), All);
    }
  }

  lemma LoseOldestBalances(s: State, cause: Cause, dead: nat)
    requires Books(s, 0, dead) && s.dlq != [] && LetterCause(cause)
    ensures Books(LoseOldestLetter(s, cause), 0, dead)
  {
    hide Tally, InCalls, InBuckets, InPels;
    TallyLog(s.history, Vanished(s.dlq[0].0, cause));
  }

  lemma {:induction false} PurgeBalances(s: State)
    requires Books(s, 0, 0)
    ensures Books(PurgeAll(s), 0, 0)
    decreases |s.dlq|
  {
    hide Books;
    if s.dlq != [] {
      LoseOldestBalances(s, Purged, 0);
      PurgeBalances(LoseOldestLetter(s, Purged));
    }
  }

  lemma PutLength(l: DL.Letters<Id, int>, max: nat, id: Id, attempts: int)
    requires !DL.Has(DL.Evicted(l, max), id)
    ensures |DL.Put(l, max, id, attempts)| == |DL.Evicted(l, max)| + 1
  {
  }

  lemma BuryBalances(s: State, id: Id, attempts: int)
    requires Books(s, 0, 1) && !DL.Has(DL.Evicted(s.dlq, s.dlqMax), id)
    ensures Books(Bury(s, id, attempts), 0, 0)
  {
    hide Tally, InCalls, InBuckets, InPels, DL.Find, DL.Put, Weigh;
    PutLength(s.dlq, s.dlqMax, id, attempts);
    var room := if |s.dlq| >= s.dlqMax && s.dlq != [] then LoseOldestLetter(s, Evicted) else s;
    if |s.dlq| >= s.dlqMax && s.dlq != [] {
      LoseOldestBalances(s, Evicted, 1);
    }
    TallyLog(room.history, Died(id));
  }

  lemma TakeOverdueBalances(s: State, c: nat, g: string, id: Id)
    requires Books(s, 0, 0)
    requires g in s.groups && id in s.groups[g] && c in s.calls && s.calls[c].Routing?
    ensures Books(TakeOverdue(s, c, g, id), 0, 0)
  {
    hide Tally, InCalls, InBuckets, InPels;
    var call := s.calls[c].(ids := s.calls[c].ids + [id]);
    OwedUpdate(s.calls, c, call);
    PelsUpdate(s.groups, g, s.groups[g] - {id}, All);
    PelRemove(s.groups[g], id, All);
    TallyLog(s.history, TimedOut(g, id, s.groups[g][id], s.now));
  }

  lemma {:induction false} TakeAllBalances(s: State, c: nat, g: string, ids: seq<Id>)
    requires Books(s, 0, 0) && CanTake(s, c, g, ids)
    ensures Books(TakeAllOverdue(s, c, g, ids), 0, 0)
    decreases |ids|
  {
    hide Books;
    if ids != [] {
      assert ids[0] in ids;
      assert forall i :: 0 <= i < |ids[1..]| ==> ids[1..][i] == ids[i + 1];
      TakeOverdueBalances(s, c, g, ids[0]);
      TakeAllBalances(TakeOverdue(s, c, g, ids[0]), c, g, ids[1..]);
    }
  }

  /** A message in the hands of a call is not in the dead letter queue. */
  lemma HeldIsNoLetter(s: State, c: nat, id: Id)
    requires Conserved(s, []) && c in s.calls && id in Hands(s.calls[c])
    ensures id in s.store && InLetters(s.dlq, Only(id)) == 0
    ensures !DL.Has(DL.Evicted(s.dlq, s.dlqMax), id)
  {
    hide Count, InCalls, InBuckets, InPels, InLetters, Hands;
    CallAtMostTotal(s.calls, c, Held(Only(id)));
    CountMember(Hands(s.calls[c]), id);
    CountNone(Only(id));
    assert Copies(s, Only(id)) + Count([], Only(id)) == Submitted(s.store, Only(id));
    if DL.Has(DL.Evicted(s.dlq, s.dlqMax), id) {
      LettersHas(DL.Evicted(s.dlq, s.dlqMax), id);
      LettersEvict(s.dlq, Only(id));
    }
  }

  lemma RouteBalances(s: State, c: nat)
    requires Books(s, 0, 0) && Conserved(s, []) && s.ring.Valid() && s.wheel.Valid()
    requires c in s.calls && s.calls[c].Routing? && s.calls[c].ids != [] && s.calls[c].ids[0] in s.store
    requires !s.calls[c].owesDead
    ensures Books(RouteNext(s, c), 0, 0)
  {
    hide Tally, InCalls, InBuckets, InPels, Conserved, Schedule, Bury;
    var call := s.calls[c];
    var id := call.ids[0];
    var info := Failed(s.store[id]);
    var route := RouteAfter(s.store[id], call.byNack);
    var call' := Routing(call.ids[1..], call.byNack, route.ToDeadLetters?);
    var s' := s.(store := s.store[id := info], calls := s.calls[c := call']);
    OwedUpdate(s.calls, c, call');
    match route
    case ToDeadLetters =>
      HeldIsNoLetter(s, c, id);
      BuryBalances(s', id, info.retry);
    case ToWheel(delay) =>
      TallyLog(s.history, Retried(id));
      ScheduleBalances(Log(s', Retried(id)), id, delay, 0);
  }

  lemma BeginPublishBalances(s: State, c: nat, id: Id, maxRetries: int, front: bool)
    requires Books(s, 0, 0)
    requires c !in s.calls
    ensures Books(DoBeginPublish(s, c, id, maxRetries, front), 0, 0)
  {
    hide Tally, InCalls, InBuckets, InPels;
    OwedUpdate(s.calls, c, Publishing(id, front));
  }

  lemma PushPublishedBalances(s: State, c: nat)
    requires Books(s, 0, 0)
    requires c in s.calls && s.calls[c].Publishing? && s.ring.Valid()
    ensures Books(DoPushPublished(s, c), 0, 0)
  {
    hide Tally, InCalls, InBuckets, InPels, Enqueue;
    OwedRemove(s.calls, c);
    OwedUpdate(s.calls, c, Published);
    TallyLog(s.history, Entered(s.calls[c].id));
    if !s.ring.closed {
      var s1 := Log(s.(calls := s.calls[c := Published]), Entered(s.calls[c].id));
      EnqueueBalances(s1, s.calls[c].id, s.calls[c].front, 0);
    }
  }

  lemma BeginDelayedBalances(s: State, c: nat, id: Id, maxRetries: int, delay: int)
    requires Books(s, 0, 0)
    requires c !in s.calls
    ensures Books(DoBeginDelayed(s, c, id, maxRetries, delay), 0, 0)
  {
    hide Tally, InCalls, InBuckets, InPels;
    OwedUpdate(s.calls, c, Delaying(id, delay));
    TallyLog(s.history, Entered(id));
  }

  lemma AddDelayedBalances(s: State, c: nat)
    requires Books(s, 0, 0)
    requires c in s.calls && s.calls[c].Delaying? && s.ring.Valid() && s.wheel.Valid()
    ensures Books(DoAddDelayed(s, c), 0, 0)
  {
    hide Tally, InCalls, InBuckets, InPels, Schedule;
    OwedRemove(s.calls, c);
    ScheduleBalances(s.(calls := s.calls - {c}), s.calls[c].id, s.calls[c].delay, 0);
  }

  lemma PopBalances(s: State, c: nat, call: Call)
    requires Books(s, 0, 0)
    requires c !in s.calls && s.ring.items != [] && (call.Popped? || call.CheckingOut?)
    ensures Books(DoPop(s, c, call), 0, 0)
  {
    hide Tally, InCalls, InBuckets, InPels;
    OwedUpdate(s.calls, c, call);
    TallyLog(s.history, Taken(s.ring.items[0]));
  }

  lemma CountConsumedBalances(s: State, c: nat)
    requires Books(s, 0, 0)
    requires c in s.calls && (s.calls[c].Popped? || s.calls[c].CheckedOut?)
    ensures Books(DoCountConsumed(s, c), 0, 0)
  {
    hide Tally, InCalls, InBuckets, InPels;
    OwedRemove(s.calls, c);
  }

  lemma CheckoutBalances(s: State, c: nat)
    requires Books(s, 0, 0)
    requires c in s.calls && s.calls[c].CheckingOut? && s.calls[c].group in s.groups && Conserved(s, [])
    ensures Books(DoCheckout(s, c), 0, 0)
  {
    hide Tally, InCalls, InBuckets, InPels, Conserved;
    var call := s.calls[c];
    var lease := G.Lease(call.consumer, s.now, s.now + G.VISIBILITY);
    ReleaseConserves(s, c, CheckedOut);
    LeaseConserves(s.(calls := s.calls[c := CheckedOut]), call.group, call.id, lease);
    OwedUpdate(s.calls, c, CheckedOut);
    PelsUpdate(s.groups, call.group, s.groups[call.group][call.id := lease], All);
    PelInsert(s.groups[call.group], call.id, lease, All);
    TallyLog(s.history, Leased(call.group, call.id, lease));
  }

  lemma AckBalances(s: State, c: nat, g: string, id: Id)
    requires Books(s, 0, 0)
    requires c !in s.calls && g in s.groups && id in s.groups[g]
    ensures Books(DoAck(s, c, g, id), 0, 0)
  {
    hide Tally, InCalls, InBuckets, InPels;
    OwedUpdate(s.calls, c, AckDone);
    PelsUpdate(s.groups, g, s.groups[g] - {id}, All);
    PelRemove(s.groups[g], id, All);
    TallyLog(s.history, Acked(g, id));
  }

  lemma NackBalances(s: State, c: nat, g: string, id: Id)
    requires Books(s, 0, 0)
    requires c !in s.calls && g in s.groups && id in s.groups[g]
    ensures Books(DoNack(s, c, g, id), 0, 0)
  {
    hide Tally, InCalls, InBuckets, InPels;
    OwedUpdate(s.calls, c, Routing([id], true, false));
    PelsUpdate(s.groups, g, s.groups[g] - {id}, All);
    PelRemove(s.groups[g], id, All);
    TallyLog(s.history, Nacked(g, id));
  }

  lemma SweepBalances(s: State, c: nat, g: string, ids: seq<Id>)
    requires Books(s, 0, 0)
    requires c !in s.calls && CanTake(s.(calls := s.calls[c := Routing([], false, false)]), c, g, ids)
    ensures Books(DoSweep(s, c, g, ids), 0, 0)
  {
    hide Tally, InCalls, InBuckets, InPels, TakeAllOverdue;
    OwedUpdate(s.calls, c, Routing([], false, false));
    TakeAllBalances(s.(calls := s.calls[c := Routing([], false, false)]), c, g, ids);
  }

  lemma FinishRoutingBalances(s: State, c: nat)
    requires Books(s, 0, 0)
    requires c in s.calls && s.calls[c].Routing? && s.calls[c].ids == [] && !s.calls[c].owesDead
    ensures Books(DoFinishRouting(s, c), 0, 0)
  {
    hide Tally, InCalls, InBuckets, InPels;
    OwedRemove(s.calls, c);
  }

  lemma AdvanceBalances(s: State, c: nat)
    requires Books(s, 0, 0)
    requires c !in s.calls && s.wheel.Valid()
    ensures Books(DoAdvance(s, c), 0, 0)
  {
    hide Tally, InCalls, InBuckets, InPels, Wheel.Due, Wheel.Advance;
    OwedUpdate(s.calls, c, Expiring(s.wheel.Due()));
    WheelAdvance(s.wheel, All);
    CountAll(s.wheel.Due());
  }

  lemma ExpireBalances(s: State, c: nat)
    requires Books(s, 0, 0)
    requires c in s.calls && s.calls[c].Expiring? && s.ring.Valid()
    ensures Books(DoExpire(s, c), 0, 0)
  {
    hide Tally, InCalls, InBuckets, InPels, Enqueue;
    var ids := s.calls[c].ids;
    if ids == [] {
      OwedRemove(s.calls, c);
    } else {
      OwedUpdate(s.calls, c, Expiring(ids[1..]));
      EnqueueBalances(s.(calls := s.calls[c := Expiring(ids[1..])]), ids[0], false, 0);
    }
  }

  lemma ReplayBalances(s: State, c: nat, id: Id)
    requires Books(s, 0, 0)
    requires c !in s.calls && id in s.store && DL.Has(s.dlq, id)
    ensures Books(DoReplay(s, c, id), 0, 0)
  {
    hide Tally, InCalls, InBuckets, InPels;
    OwedUpdate(s.calls, c, Replaying(id));
    TallyLog(s.history, Replayed(id));
  }

  lemma PushReplayedBalances(s: State, c: nat)
    requires Books(s, 0, 0)
    requires c in s.calls && s.calls[c].Replaying? && s.ring.Valid()
    ensures Books(DoPushReplayed(s, c), 0, 0)
  {
    hide Tally, InCalls, InBuckets, InPels, Enqueue;
    OwedRemove(s.calls, c);
    EnqueueBalances(s.(calls := s.calls - {c}), s.calls[c].id, false, 0);
  }

  /** A call that ends by bumping its counter. */
  lemma CounterBalances(s: State, c: nat)
    requires Books(s, 0, 0) && c in s.calls
    ensures s.calls[c].Published? ==> Books(s.(published := s.published + 1, calls := s.calls - {c}), 0, 0)
    ensures s.calls[c].AckDone? ==> Books(s.(acked := s.acked + 1, calls := s.calls - {c}), 0, 0)
  {
    hide Tally, InCalls, InBuckets, InPels;
    OwedRemove(s.calls, c);
  }

  lemma CountDeadBalances(s: State, c: nat)
    requires Books(s, 0, 0) && c in s.calls && s.calls[c].Routing? && s.calls[c].owesDead
    ensures Books(s.(deadLettered := s.deadLettered + 1,
                     calls := s.calls[c := s.calls[c].(owesDead := false)]), 0, 0)
  {
    hide Tally, InCalls, InBuckets, InPels;
    OwedUpdate(s.calls, c, s.calls[c].(owesDead := false));
  }

  /** The books do not look at the flags and the clock, and a closing call owes nothing. */
  lemma ClosingBalances(s: State, c: nat, call: Call)
    requires Books(s, 0, 0) && call.Closing? && (c in s.calls ==> s.calls[c].Closing?)
    ensures Books(s.(closed := true, calls := s.calls[c := call]), 0, 0)
    ensures Books(s.(ring := s.ring.Close(), calls := s.calls[c := call]), 0, 0)
    ensures c in s.calls ==> Books(s.(wheel := s.wheel.Stop(), calls := s.calls - {c}), 0, 0)
  {
    hide Tally, InCalls, InBuckets, InPels;
    OwedUpdate(s.calls, c, call);
    if c in s.calls {
      OwedRemove(s.calls, c);
    }
  }

  lemma CreateGroupBalances(s: State, g: string)
    requires Books(s, 0, 0) && g !in s.groups
    ensures Books(s.(groups := s.groups[g := map[]]), 0, 0)
  {
    hide Tally, InCalls, InBuckets, InPels;
    PelsUpdate(s.groups, g, map[], All);
  }

  lemma ClockBalances(s: State, now: int)
    requires Books(s, 0, 0)
    ensures Books(s.(now := now), 0, 0)
  {
    hide Tally, InCalls, InBuckets, InPels;
  }

  predicate HandsOut(step: Step) {
    step.BeginPublish? || step.PushPublished? || step.CountPublished? || step.BeginDelayed? || step.AddDelayed? ||
    step.Pop? || step.CountConsumed? || step.CreateGroup? || step.PopForGroup? || step.Checkout?
  }

  lemma HandingOutBalances(s: State, step: Step)
    requires Sound(s) && Enabled(s, step) && Conserved(s, []) && Books(s, 0, 0) && HandsOut(step)
    ensures Books(Next(s, step), 0, 0)
  {
    hide Books, Conserved;
    hide DoBeginPublish, DoPushPublished, DoBeginDelayed, DoAddDelayed, DoPop, DoCountConsumed, DoCheckout;
    hide DoAck, DoNack, DoSweep, RouteNext, DoFinishRouting, DoAdvance, DoExpire, DoReplay, DoPushReplayed, PurgeAll;
    match step
    case BeginPublish(c, id, maxRetries, front) => BeginPublishBalances(s, c, id, maxRetries, front);
    case PushPublished(c) => PushPublishedBalances(s, c);
    case CountPublished(c) => CounterBalances(s, c);
    case BeginDelayed(c, id, maxRetries, delay) => BeginDelayedBalances(s, c, id, maxRetries, delay);
    case AddDelayed(c) => AddDelayedBalances(s, c);
    case Pop(c) => PopBalances(s, c, Popped(s.ring.items[0]));
    case CountConsumed(c) => CountConsumedBalances(s, c);
    case CreateGroup(g) => CreateGroupBalances(s, g);
    case PopForGroup(c, g, consumer) => PopBalances(s, c, CheckingOut(s.ring.items[0], g, consumer));
    case Checkout(c) => CheckoutBalances(s, c);
  }

  lemma TakingBackBalances(s: State, step: Step)
    requires Sound(s) && Enabled(s, step) && Conserved(s, []) && Books(s, 0, 0) && !HandsOut(step)
    ensures Books(Next(s, step), 0, 0)
  {
    hide Books, Conserved;
    hide DoBeginPublish, DoPushPublished, DoBeginDelayed, DoAddDelayed, DoPop, DoCountConsumed, DoCheckout;
    hide DoAck, DoNack, DoSweep, RouteNext, DoFinishRouting, DoAdvance, DoExpire, DoReplay, DoPushReplayed, PurgeAll;
    match step
    case Ack(c, g, id) => AckBalances(s, c, g, id);
    case CountAcked(c) => CounterBalances(s, c);
    case Nack(c, g, id) => NackBalances(s, c, g, id);
    case Sweep(c, g, ids) => SweepBalances(s, c, g, ids);
    case Route(c) => RouteBalances(s, c);
    case CountDead(c) => CountDeadBalances(s, c);
    case FinishRouting(c) => FinishRoutingBalances(s, c);
    case Advance(c) => AdvanceBalances(s, c);
    case Expire(c) => ExpireBalances(s, c);
    case Replay(c, id) => ReplayBalances(s, c, id);
    case PushReplayed(c) => PushReplayedBalances(s, c);
    case Purge => PurgeBalances(s);
    case BeginClose(c) => ClosingBalances(s, c, Closing(false));
    case CloseRing(c) => ClosingBalances(s, c, Closing(true));
    case StopWheel(c) => ClosingBalances(s, c, Closing(true));
    case Clock(now) => ClockBalances(s, now);
  }

  lemma StepBalances(s: State, step: Step)
    requires Sound(s) && Enabled(s, step) && Conserved(s, []) && Books(s, 0, 0)
    ensures Books(Next(s, step), 0, 0)
  {
    hide Books, Conserved, Next;
    if HandsOut(step) {
      HandingOutBalances(s, step);
    } else {
      TakingBackBalances(s, step);
    }
  }
}
