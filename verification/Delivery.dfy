/** How often a message is delivered: the retry budget, over every interleaving. */
module Delivery {
  import opened Ring
  import opened Wheel
  import DL = DeadLetters
  import G = Group
  import opened Sums
  import opened Topic
  import opened Conservation
  import opened Accounting

  /** Checkouts of a message since it was published or last replayed. */
  function Deliveries(h: seq<Event>, id: Id): nat {
    if h == [] then 0
    else
      var e, before := h[|h| - 1], Deliveries(h[..|h| - 1], id);
      if e.Leased? && e.id == id then before + 1
      else if e.Replayed? && e.id == id then 0
      else before
  }

  lemma DeliveriesLog(h: seq<Event>, e: Event, id: Id)
    ensures Deliveries(h + [e], id) ==
            if e.Leased? && e.id == id then Deliveries(h, id) + 1
            else if e.Replayed? && e.id == id then 0
            else Deliveries(h, id)
  {
    assert (h + [e])[..|h|] == h;
  }

  function MaxDeliveries(maxRetries: int): nat {
    if maxRetries < 1 then 1 else maxRetries
  }

  /** What there is to know about one message. `leased` is 1 while it is pending, while its failed
      delivery waits to be routed, and for good once it is acknowledged. */
  datatype Ledger = Ledger(known: bool, retry: nat, limit: nat, deliveries: nat, leased: nat, dead: bool)

  predicate Balanced(l: Ledger) {
    if !l.known then l.deliveries == 0 && l.leased == 0 && !l.dead
    else
      && l.deliveries == l.retry + l.leased
      && (if l.dead then l.retry == l.limit else l.retry < l.limit)
  }

  function Marked(fate: map<Id, Fate>, id: Id): nat {
    if id in fate && fate[id].Settled? then 1 else 0
  }

  predicate LostAsLetter(fate: map<Id, Fate>, id: Id) {
    id in fate && fate[id].Lost? && LetterCause(fate[id].cause)
  }

  ghost function LedgerOf(s: State, id: Id): Ledger {
    Ledger(
      id in s.store,
      if id in s.store then s.store[id].retry else 0,
      if id in s.store then MaxDeliveries(s.store[id].maxRetries) else 0,
      Deliveries(s.history, id),
      InPels(s.groups, Only(id)) + InCalls(s.calls, OnLease(id)) + Marked(s.fate, id),
      InLetters(s.dlq, Only(id)) > 0 || LostAsLetter(s.fate, id))
  }

  ghost predicate Budget(s: State) {
    forall id: Id :: Balanced(LedgerOf(s, id))
  }

  // ---- pieces of steps, for one message j ----

  lemma LoseLedger(s: State, id: Id, cause: Cause, j: Id)
    requires id !in s.fate && !LetterCause(cause)
    ensures LedgerOf(Lose(s, id, cause), j) == LedgerOf(s, j)
  {
    hide Deliveries, InPels, InCalls, InLetters;
    DeliveriesLog(s.history, Vanished(id, cause), j);
  }

  lemma EnqueueLedger(s: State, id: Id, front: bool, j: Id)
    requires Conserved(s, [id]) && s.ring.Valid()
    ensures LedgerOf(Enqueue(s, id, front), j) == LedgerOf(s, j)
  {
    hide Deliveries, InPels, InCalls, InLetters, Count, Conserved;
    CountOne(id, Only(id));
    LooseHasNoFate(s, [id], id);
    if s.ring.closed {
      LoseLedger(s, id, RingClosed, j);
    } else {
      var gone := Victims(s.ring, front);
      if gone != [] {
        CountMember(s.ring.items, gone[0]);
        LooseHasNoFate(s, [id], gone[0]);
        var s' := s.(ring := if front then s.ring.PushFront(id) else s.ring.Push(id));
        LoseLedger(s', gone[0], Saturated, j);
      }
    }
  }

  lemma ScheduleLedger(s: State, id: Id, delay: int, j: Id)
    requires Conserved(s, [id]) && s.ring.Valid() && s.wheel.Valid()
    ensures LedgerOf(Schedule(s, id, delay), j) == LedgerOf(s, j)
  {
    hide Deliveries, InPels, InCalls, InLetters, Count, Conserved, Enqueue, Lose;
    CountOne(id, Only(id));
    LooseHasNoFate(s, [id], id);
    if delay <= 0 {
      EnqueueLedger(s, id, false, j);
    } else if s.wheel.closed {
      LoseLedger(s, id, WheelClosed, j);
    }
  }

  lemma LoseOldestLedger(s: State, loose: seq<Id>, cause: Cause, j: Id)
    requires Conserved(s, loose) && s.dlq != [] && LetterCause(cause)
    ensures LedgerOf(LoseOldestLetter(s, cause), j) == LedgerOf(s, j)
  {
    hide Deliveries, InPels, InCalls, InLetters, Count, Conserved;
    var id := s.dlq[0].0;
    LettersEvict(s.dlq, Only(j));
    LettersEvict(s.dlq, Only(id));
    LooseHasNoFate(s, loose, id);
    DeliveriesLog(s.history, Vanished(id, cause), j);
  }

  /** A message on lease in the hands of a call is held by it. */
  lemma OnLeaseIsHeld(calls: map<nat, Call>, id: Id)
    ensures InCalls(calls, OnLease(id)) <= InCalls(calls, Held(Only(id)))
  {
    hide Total;
    TotalMonotone(Weights(calls, OnLease(id)), Weights(calls, Held(Only(id))));
  }

  /** The places a message can be in, and that it is in one of them. */
  lemma OnePlace(s: State, id: Id)
    requires Conserved(s, [])
    ensures Count(s.ring.items, Only(id)) + InBuckets(s.wheel.buckets, Only(id)) +
            InPels(s.groups, Only(id)) + InLetters(s.dlq, Only(id)) +
            InCalls(s.calls, Held(Only(id))) + Fated(s.fate, Only(id)) == if id in s.store then 1 else 0
  {
    hide Count, InBuckets, InPels, InLetters, InCalls;
    CountNone(Only(id));
    assert Copies(s, Only(id)) + Count([], Only(id)) == Submitted(s.store, Only(id));
  }

  lemma {:induction false} PurgeLedger(s: State, j: Id)
    requires Conserved(s, [])
    ensures LedgerOf(PurgeAll(s), j) == LedgerOf(s, j)
    decreases |s.dlq|
  {
    hide Conserved, LedgerOf;
    if s.dlq != [] {
      LoseOldestLedger(s, [], Purged, j);
      LoseOldestConserves(s, [], Purged);
      PurgeLedger(LoseOldestLetter(s, Purged), j);
    }
  }

  lemma BuryLedger(s: State, id: Id, attempts: int, j: Id)
    requires Conserved(s, [id])
    ensures LedgerOf(Bury(s, id, attempts), j) ==
            if j == id then LedgerOf(s, j).(dead := true) else LedgerOf(s, j)
  {
    hide Deliveries, InPels, InCalls, InLetters, Count, Conserved;
    var room := if |s.dlq| >= s.dlqMax && s.dlq != [] then LoseOldestLetter(s, Evicted) else s;
    if |s.dlq| >= s.dlqMax && s.dlq != [] {
      LoseOldestLedger(s, [id], Evicted, j);
    }
    LooseIsNoLetter(s, id);
    LettersPut(s.dlq, s.dlqMax, id, attempts, Only(j));
    DeliveriesLog(room.history, Died(id), j);
  }

  lemma TakeOverdueLedger(s: State, c: nat, g: string, id: Id, j: Id)
    requires g in s.groups && id in s.groups[g] && c in s.calls && s.calls[c].Routing?
    ensures LedgerOf(TakeOverdue(s, c, g, id), j) == LedgerOf(s, j)
  {
    hide Deliveries, InPels, InCalls, InLetters, Count;
    var call := s.calls[c].(ids := s.calls[c].ids + [id]);
    CallsUpdate(s.calls, c, call, OnLease(j));
    CountConcat(s.calls[c].ids, [id], Only(j));
    CountOne(id, Only(j));
    PelsUpdate(s.groups, g, s.groups[g] - {id}, Only(j));
    PelRemove(s.groups[g], id, Only(j));
    DeliveriesLog(s.history, TimedOut(g, id, s.groups[g][id], s.now), j);
  }

  lemma {:induction false} TakeAllLedger(s: State, c: nat, g: string, ids: seq<Id>, j: Id)
    requires CanTake(s, c, g, ids)
    ensures LedgerOf(TakeAllOverdue(s, c, g, ids), j) == LedgerOf(s, j)
    decreases |ids|
  {
    hide LedgerOf;
    if ids != [] {
      assert ids[0] in ids;
      assert forall i :: 0 <= i < |ids[1..]| ==> ids[1..][i] == ids[i + 1];
      TakeOverdueLedger(s, c, g, ids[0], j);
      TakeAllLedger(TakeOverdue(s, c, g, ids[0]), c, g, ids[1..], j);
    }
  }

  /** The call a step leaves behind holds nothing on lease, and neither did the one before it. */
  lemma CallLedger(s: State, c: nat, call: Call, j: Id)
    requires !call.Routing? && (c in s.calls ==> !s.calls[c].Routing?)
    ensures LedgerOf(s.(calls := s.calls[c := call]), j) == LedgerOf(s, j)
    ensures c in s.calls ==> LedgerOf(s.(calls := s.calls - {c}), j) == LedgerOf(s, j)
  {
    hide Deliveries, InPels, InCalls, InLetters;
    CallsUpdate(s.calls, c, call, OnLease(j));
    if c in s.calls {
      CallsRemove(s.calls, c, OnLease(j));
    }
  }

  lemma RouteLedger(s: State, c: nat, j: Id)
    requires Conserved(s, []) && Budget(s) && s.ring.Valid() && s.wheel.Valid()
    requires c in s.calls && s.calls[c].Routing? && s.calls[c].ids != [] && s.calls[c].ids[0] in s.store
    ensures Balanced(LedgerOf(RouteNext(s, c), j))
  {
    hide Deliveries, InPels, InCalls, InLetters, Count, Conserved, Schedule, Bury;
    var call := s.calls[c];
    var id := call.ids[0];
    var info := Failed(s.store[id]);
    var route := RouteAfter(s.store[id], call.byNack);
    var call' := Routing(call.ids[1..], call.byNack, route.ToDeadLetters?);
    var s1 := s.(calls := s.calls[c := call']);
    var s2 := s.(store := s.store[id := info], calls := s.calls[c := call']);
    assert Balanced(LedgerOf(s, j)) && Balanced(LedgerOf(s, id));
    CallsUpdate(s.calls, c, call', OnLease(j));
    CountHead(call.ids, Only(j));
    CallAtMostTotal(s.calls, c, OnLease(id));
    CountHead(call.ids, Only(id));
    HeldIsNoLetter(s, c, id);
    CallAtMostTotal(s.calls, c, Held(Only(id)));
    OnePlace(s, id);
    assert !LedgerOf(s, id).dead;
    ReleaseFirstConserves(s, c, call');
    RestoreConserves(s1, id, info, [id]);
    assert s2 == s1.(store := s1.store[id := info]);
    match route
    case ToDeadLetters => BuryLedger(s2, id, info.retry, j);
    case ToWheel(delay) =>
      DeliveriesLog(s.history, Retried(id), j);
      ConservedFrame(s2, Log(s2, Retried(id)), [id]);
      ScheduleLedger(Log(s2, Retried(id)), id, delay, j);
  }

  // ---- the steps, for one message j ----

  lemma BeginPublishLedger(s: State, c: nat, id: Id, maxRetries: int, front: bool, j: Id)
    requires Conserved(s, []) && Budget(s) && c !in s.calls && id !in s.store
    ensures Balanced(LedgerOf(DoBeginPublish(s, c, id, maxRetries, front), j))
  {
    hide Deliveries, InPels, InCalls, InLetters, Count, Conserved;
    assert Balanced(LedgerOf(s, j));
    CallsUpdate(s.calls, c, Publishing(id, front), OnLease(j));
    OnePlace(s, id);
  }

  lemma PushPublishedLedger(s: State, c: nat, j: Id)
    requires Conserved(s, []) && c in s.calls && s.calls[c].Publishing? && s.ring.Valid()
    ensures LedgerOf(DoPushPublished(s, c), j) == LedgerOf(s, j)
  {
    hide Deliveries, InPels, InCalls, InLetters, Count, Conserved, Enqueue;
    var id := s.calls[c].id;
    HeldHasNoFate(s, c, id);
    CallsRemove(s.calls, c, OnLease(j));
    CallsUpdate(s.calls, c, Published, OnLease(j));
    DeliveriesLog(s.history, Entered(id), j);
    if !s.ring.closed {
      var s1 := s.(calls := s.calls[c := Published]);
      ReleaseConserves(s, c, Published);
      ConservedFrame(s1, Log(s1, Entered(id)), [id]);
      EnqueueLedger(Log(s1, Entered(id)), id, s.calls[c].front, j);
    }
  }

  /** A message in the hands of a call has no fate yet. */
  lemma HeldHasNoFate(s: State, c: nat, id: Id)
    requires Conserved(s, []) && c in s.calls && id in Hands(s.calls[c])
    ensures id !in s.fate && id in s.store
  {
    hide Count, InCalls, InBuckets, InPels, InLetters, Hands, Conserved;
    CallAtMostTotal(s.calls, c, Held(Only(id)));
    CountMember(Hands(s.calls[c]), id);
    OnePlace(s, id);
  }

  lemma BeginDelayedLedger(s: State, c: nat, id: Id, maxRetries: int, delay: int, j: Id)
    requires Conserved(s, []) && Budget(s) && c !in s.calls && id !in s.store
    ensures Balanced(LedgerOf(DoBeginDelayed(s, c, id, maxRetries, delay), j))
  {
    hide Deliveries, InPels, InCalls, InLetters, Count, Conserved;
    assert Balanced(LedgerOf(s, j));
    CallsUpdate(s.calls, c, Delaying(id, delay), OnLease(j));
    DeliveriesLog(s.history, Entered(id), j);
  }

  lemma AddDelayedLedger(s: State, c: nat, j: Id)
    requires Conserved(s, []) && c in s.calls && s.calls[c].Delaying? && s.ring.Valid() && s.wheel.Valid()
    ensures LedgerOf(DoAddDelayed(s, c), j) == LedgerOf(s, j)
  {
    hide Deliveries, InPels, InCalls, InLetters, Count, Conserved, Schedule, LedgerOf;
    EndConserves(s, c);
    CallLedger(s, c, CheckedOut, j);
    ScheduleLedger(s.(calls := s.calls - {c}), s.calls[c].id, s.calls[c].delay, j);
  }

  lemma PopLedger(s: State, c: nat, call: Call, j: Id)
    requires c !in s.calls && s.ring.items != [] && (call.Popped? || call.CheckingOut?)
    ensures LedgerOf(DoPop(s, c, call), j) == LedgerOf(s, j)
  {
    hide Deliveries, InPels, InCalls, InLetters, Count, Conserved;
    CallsUpdate(s.calls, c, call, OnLease(j));
    DeliveriesLog(s.history, Taken(s.ring.items[0]), j);
  }

  lemma CountConsumedLedger(s: State, c: nat, j: Id)
    requires Conserved(s, []) && c in s.calls && (s.calls[c].Popped? || s.calls[c].CheckedOut?)
    ensures LedgerOf(DoCountConsumed(s, c), j) == LedgerOf(s, j)
  {
    hide Deliveries, InPels, InCalls, InLetters, Count, Conserved;
    CallsRemove(s.calls, c, OnLease(j));
    if s.calls[c].Popped? {
      HeldHasNoFate(s, c, s.calls[c].id);
    }
  }

  /** A checkout is one delivery more and one lease more. */
  lemma CheckoutLedger(s: State, c: nat, j: Id)
    requires Conserved(s, []) && Budget(s)
    requires c in s.calls && s.calls[c].CheckingOut? && s.calls[c].group in s.groups
    ensures Balanced(LedgerOf(DoCheckout(s, c), j))
  {
    hide Deliveries, InPels, InCalls, InLetters, Count, Conserved;
    var call := s.calls[c];
    var lease := G.Lease(call.consumer, s.now, s.now + G.VISIBILITY);
    assert Balanced(LedgerOf(s, j));
    HeldHasNoFate(s, c, call.id);
    ReleaseConserves(s, c, CheckedOut);
    LeaseConserves(s.(calls := s.calls[c := CheckedOut]), call.group, call.id, lease);
    CallsUpdate(s.calls, c, CheckedOut, OnLease(j));
    PelsUpdate(s.groups, call.group, s.groups[call.group][call.id := lease], Only(j));
    PelInsert(s.groups[call.group], call.id, lease, Only(j));
    DeliveriesLog(s.history, Leased(call.group, call.id, lease), j);
  }

  lemma PendingHasNoFate(s: State, g: string, id: Id)
    requires Conserved(s, []) && g in s.groups && id in s.groups[g]
    ensures id !in s.fate && id in s.store
  {
    hide Count, InCalls, InBuckets, InPels, InLetters, Conserved;
    PelAtMostTotal(s.groups, g, Only(id));
    OnePlace(s, id);
  }

  lemma AckLedger(s: State, c: nat, g: string, id: Id, j: Id)
    requires Conserved(s, []) && c !in s.calls && g in s.groups && id in s.groups[g]
    ensures LedgerOf(DoAck(s, c, g, id), j) == LedgerOf(s, j)
  {
    hide Deliveries, InPels, InCalls, InLetters, Count, Conserved;
    PendingHasNoFate(s, g, id);
    CallsUpdate(s.calls, c, AckDone, OnLease(j));
    PelsUpdate(s.groups, g, s.groups[g] - {id}, Only(j));
    PelRemove(s.groups[g], id, Only(j));
    DeliveriesLog(s.history, Acked(g, id), j);
  }

  lemma NackLedger(s: State, c: nat, g: string, id: Id, j: Id)
    requires c !in s.calls && g in s.groups && id in s.groups[g]
    ensures LedgerOf(DoNack(s, c, g, id), j) == LedgerOf(s, j)
  {
    hide Deliveries, InPels, InCalls, InLetters, Count, Conserved;
    CallsUpdate(s.calls, c, Routing([id], true, false), OnLease(j));
    CountOne(id, Only(j));
    PelsUpdate(s.groups, g, s.groups[g] - {id}, Only(j));
    PelRemove(s.groups[g], id, Only(j));
    DeliveriesLog(s.history, Nacked(g, id), j);
  }

  lemma SweepLedger(s: State, c: nat, g: string, ids: seq<Id>, j: Id)
    requires c !in s.calls && CanTake(s.(calls := s.calls[c := Routing([], false, false)]), c, g, ids)
    ensures LedgerOf(DoSweep(s, c, g, ids), j) == LedgerOf(s, j)
  {
    hide Deliveries, InPels, InCalls, InLetters, Count, Conserved, TakeAllOverdue;
    CallsUpdate(s.calls, c, Routing([], false, false), OnLease(j));
    CountNone(Only(j));
    TakeAllLedger(s.(calls := s.calls[c := Routing([], false, false)]), c, g, ids, j);
  }

  lemma RoutedLedger(s: State, c: nat, j: Id)
    requires c in s.calls && s.calls[c].Routing?
    ensures s.calls[c].ids == [] ==> LedgerOf(DoFinishRouting(s, c), j) == LedgerOf(s, j)
    ensures var call := s.calls[c].(owesDead := false);
            LedgerOf(s.(deadLettered := s.deadLettered + 1, calls := s.calls[c := call]), j) == LedgerOf(s, j)
  {
    hide Deliveries, InPels, InCalls, InLetters, Count, Conserved;
    CallsRemove(s.calls, c, OnLease(j));
    CallsUpdate(s.calls, c, s.calls[c].(owesDead := false), OnLease(j));
    CountNone(Only(j));
  }

  lemma AdvanceLedger(s: State, c: nat, j: Id)
    requires c !in s.calls && s.wheel.Valid()
    ensures LedgerOf(DoAdvance(s, c), j) == LedgerOf(s, j)
  {
    hide Deliveries, InPels, InCalls, InLetters, Count, Conserved, Wheel.Advance, Wheel.Due;
    CallsUpdate(s.calls, c, Expiring(s.wheel.Due()), OnLease(j));
  }

  lemma ExpireLedger(s: State, c: nat, j: Id)
    requires Conserved(s, []) && c in s.calls && s.calls[c].Expiring? && s.ring.Valid()
    ensures LedgerOf(DoExpire(s, c), j) == LedgerOf(s, j)
  {
    hide Deliveries, InPels, InCalls, InLetters, Count, Conserved, Enqueue, LedgerOf;
    var ids := s.calls[c].ids;
    if ids == [] {
      CallLedger(s, c, CheckedOut, j);
    } else {
      var call := Expiring(ids[1..]);
      CallLedger(s, c, call, j);
      ReleaseFirstConserves(s, c, call);
      EnqueueLedger(s.(calls := s.calls[c := call]), ids[0], false, j);
    }
  }

  /** A replayed message starts over: no retry, no delivery, no lease. */
  lemma ReplayLedger(s: State, c: nat, id: Id, j: Id)
    requires Conserved(s, []) && Budget(s) && c !in s.calls && id in s.store && DL.Has(s.dlq, id)
    ensures Balanced(LedgerOf(DoReplay(s, c, id), j))
  {
    hide Deliveries, InPels, InCalls, InLetters, Count, Conserved, DL.Drop;
    assert Balanced(LedgerOf(s, j));
    LettersHas(s.dlq, id);
    LettersDrop(s.dlq, id, Only(j));
    OnePlace(s, id);
    OnLeaseIsHeld(s.calls, id);
    CallsUpdate(s.calls, c, Replaying(id), OnLease(j));
    DeliveriesLog(s.history, Replayed(id), j);
  }

  lemma PushReplayedLedger(s: State, c: nat, j: Id)
    requires Conserved(s, []) && c in s.calls && s.calls[c].Replaying? && s.ring.Valid()
    ensures LedgerOf(DoPushReplayed(s, c), j) == LedgerOf(s, j)
  {
    hide Deliveries, InPels, InCalls, InLetters, Count, Conserved, Enqueue, LedgerOf;
    EndConserves(s, c);
    CallLedger(s, c, CheckedOut, j);
    EnqueueLedger(s.(calls := s.calls - {c}), s.calls[c].id, false, j);
  }

  /** Steps that only touch a counter, a flag, the clock or an empty group. */
  lemma QuietLedger(s: State, step: Step, j: Id)
    requires Sound(s) && Enabled(s, step)
    requires step.CountPublished? || step.CountAcked? || step.CreateGroup? || step.BeginClose? ||
             step.CloseRing? || step.StopWheel? || step.Clock?
    ensures LedgerOf(Next(s, step), j) == LedgerOf(s, j)
  {
    hide Deliveries, InPels, InCalls, InLetters, Count, Conserved, Sound;
    match step
    case CountPublished(c) => CallsRemove(s.calls, c, OnLease(j));
    case CountAcked(c) => CallsRemove(s.calls, c, OnLease(j));
    case CreateGroup(g) => PelsUpdate(s.groups, g, map[], Only(j));
    case BeginClose(c) => CallsUpdate(s.calls, c, Closing(false), OnLease(j));
    case CloseRing(c) => CallsUpdate(s.calls, c, Closing(true), OnLease(j));
    case StopWheel(c) => CallsRemove(s.calls, c, OnLease(j));
    case Clock(_) =>
  }

  lemma StepLedger(s: State, step: Step, j: Id)
    requires Sound(s) && Enabled(s, step) && Conserved(s, []) && Budget(s)
    ensures Balanced(LedgerOf(Next(s, step), j))
  {
    hide LedgerOf, Conserved, Balanced;
    hide DoBeginPublish, DoPushPublished, DoBeginDelayed, DoAddDelayed, DoPop, DoCountConsumed, DoCheckout;
    hide DoAck, DoNack, DoSweep, RouteNext, DoFinishRouting, DoAdvance, DoExpire, DoReplay, DoPushReplayed, PurgeAll;
    assert Balanced(LedgerOf(s, j));
    match step
    case BeginPublish(c, id, maxRetries, front) => BeginPublishLedger(s, c, id, maxRetries, front, j);
    case PushPublished(c) => PushPublishedLedger(s, c, j);
    case BeginDelayed(c, id, maxRetries, delay) => BeginDelayedLedger(s, c, id, maxRetries, delay, j);
    case AddDelayed(c) => AddDelayedLedger(s, c, j);
    case Pop(c) => PopLedger(s, c, Popped(s.ring.items[0]), j);
    case CountConsumed(c) => CountConsumedLedger(s, c, j);
    case PopForGroup(c, g, consumer) => PopLedger(s, c, CheckingOut(s.ring.items[0], g, consumer), j);
    case Checkout(c) => CheckoutLedger(s, c, j);
    case Ack(c, g, id) => AckLedger(s, c, g, id, j);
    case Nack(c, g, id) => NackLedger(s, c, g, id, j);
    case Sweep(c, g, ids) => SweepLedger(s, c, g, ids, j);
    case Route(c) => RouteLedger(s, c, j);
    case CountDead(c) => RoutedLedger(s, c, j);
    case FinishRouting(c) => RoutedLedger(s, c, j);
    case Advance(c) => AdvanceLedger(s, c, j);
    case Expire(c) => ExpireLedger(s, c, j);
    case Replay(c, id) => ReplayLedger(s, c, id, j);
    case PushReplayed(c) => PushReplayedLedger(s, c, j);
    case Purge => PurgeLedger(s, j);
    case _ => QuietLedger(s, step, j);
  }

  /** Every step keeps every message within its budget. */
  lemma StepKeepsBudget(s: State, step: Step)
    requires Sound(s) && Enabled(s, step) && Conserved(s, []) && Budget(s)
    ensures Budget(Next(s, step))
  {
    hide LedgerOf, Conserved, Balanced, Next;
    forall j: Id
      ensures Balanced(LedgerOf(Next(s, step), j))
    {
      StepLedger(s, step, j);
    }
  }
}
