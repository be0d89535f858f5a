/** Checkouts and how they end: each is ended at most once, by an acknowledgement, a rejection or
    a sweep, and never by a sweep before its deadline. */
module Leases {
  import opened Ring
  import opened Wheel
  import DL = DeadLetters
  import G = Group
  import opened Sums
  import opened Topic
  import opened Conservation

  /** Checkouts of a message by a group. */
  function Begun(h: seq<Event>, g: string, id: Id): nat {
    if h == [] then 0
    else
      var e := h[|h| - 1];
      Begun(h[..|h| - 1], g, id) + if e.Leased? && e.group == g && e.id == id then 1 else 0
  }

  predicate Ends(e: Event, g: string, id: Id) {
    (e.Acked? || e.Nacked? || e.TimedOut?) && e.group == g && e.id == id
  }

  /** Ends of checkouts of a message by a group. */
  function Ended(h: seq<Event>, g: string, id: Id): nat {
    if h == [] then 0
    else Ended(h[..|h| - 1], g, id) + if Ends(h[|h| - 1], g, id) then 1 else 0
  }

  lemma CountsLog(h: seq<Event>, e: Event, g: string, id: Id)
    ensures Begun(h + [e], g, id) == Begun(h, g, id) + if e.Leased? && e.group == g && e.id == id then 1 else 0
    ensures Ended(h + [e], g, id) == Ended(h, g, id) + if Ends(e, g, id) then 1 else 0
  {
    assert (h + [e])[..|h|] == h;
  }

  function Pending(s: State, g: string, id: Id): nat {
    if g in s.groups && id in s.groups[g] then 1 else 0
  }

  /** Begun checkouts are ended or pending. Because this holds after every step, the beginnings and
      ends of the checkouts of one message by one group alternate. */
  ghost predicate EndedOnce(s: State) {
    forall g, id :: Begun(s.history, g, id) == Ended(s.history, g, id) + Pending(s, g, id)
  }

  /** Thirty seconds, in nanoseconds. */
  predicate FullTerm(lease: G.Lease) {
    lease.deadline == lease.deliveredAt + 30_000_000_000
  }

  /** What is pending was handed out, for the full visibility timeout. */
  ghost predicate Genuine(s: State) {
    forall g, id :: g in s.groups && id in s.groups[g] ==>
      FullTerm(s.groups[g][id]) && Leased(g, id, s.groups[g][id]) in s.history
  }

  /** What timed out was handed out, and its time was up. */
  ghost predicate NeverEarly(h: seq<Event>) {
    forall e :: e in h && e.TimedOut? ==>
      FullTerm(e.lease) && e.at >= e.lease.deadline && Leased(e.group, e.id, e.lease) in h
  }

  ghost predicate Orderly(s: State) {
    EndedOnce(s) && Genuine(s) && NeverEarly(s.history)
  }

  // ---- steps that do not touch the pending lists ----

  predicate Neutral(e: Event) {
    !(e.Leased? || e.Acked? || e.Nacked? || e.TimedOut?)
  }

  ghost predicate Grew(s: State, s': State) {
    && s'.groups == s.groups
    && s.history <= s'.history
    && (forall i :: |s.history| <= i < |s'.history| ==> Neutral(s'.history[i]))
  }

  lemma {:induction false} NeutralCounts(h: seq<Event>, h': seq<Event>, g: string, id: Id)
    requires h <= h' && forall i :: |h| <= i < |h'| ==> Neutral(h'[i])
    ensures Begun(h', g, id) == Begun(h, g, id) && Ended(h', g, id) == Ended(h, g, id)
    decreases |h'|
  {
    if |h| < |h'| {
      NeutralCounts(h, h'[..|h'| - 1], g, id);
    } else {
      assert h == h';
    }
  }

  lemma GrewIsOrderly(s: State, s': State)
    requires Orderly(s) && Grew(s, s')
    ensures Orderly(s')
  {
    hide Begun, Ended;
    forall g, id
      ensures Begun(s'.history, g, id) == Ended(s'.history, g, id) + Pending(s', g, id)
    {
      NeutralCounts(s.history, s'.history, g, id);
    }
    forall e | e in s'.history && e.TimedOut?
      ensures e in s.history
    {
    }
  }

  lemma {:induction false} PurgeGrew(s: State)
    ensures Grew(s, PurgeAll(s))
    decreases |s.dlq|
  {
    if s.dlq != [] {
      PurgeGrew(LoseOldestLetter(s, Purged));
    }
  }

  lemma EnqueueGrew(s: State, id: Id, front: bool)
    ensures Grew(s, Enqueue(s, id, front))
  {
    hide Deque.Push, Deque.PushFront, Victims;
  }

  lemma ScheduleGrew(s: State, id: Id, delay: int)
    requires s.wheel.Valid()
    ensures Grew(s, Schedule(s, id, delay))
  {
    hide Wheel.Add, Enqueue;
    EnqueueGrew(s, id, false);
  }

  lemma RouteGrew(s: State, c: nat)
    requires s.wheel.Valid() && c in s.calls && s.calls[c].Routing? && s.calls[c].ids != []
    requires s.calls[c].ids[0] in s.store
    ensures Grew(s, RouteNext(s, c))
  {
    hide Schedule, DL.Put;
    var call := s.calls[c];
    var id := call.ids[0];
    var info := Failed(s.store[id]);
    var route := RouteAfter(s.store[id], call.byNack);
    var s' := s.(store := s.store[id := info],
                 calls := s.calls[c := Routing(call.ids[1..], call.byNack, route.ToDeadLetters?)]);
    if route.ToWheel? {
      ScheduleGrew(Log(s', Retried(id)), id, route.delay);
    }
  }

  predicate TouchesGroups(step: Step) {
    step.CreateGroup? || step.Checkout? || step.Ack? || step.Nack? || step.Sweep?
  }

  lemma MovingStepsGrow(s: State, step: Step)
    requires Sound(s) && Enabled(s, step)
    requires step.PushPublished? || step.AddDelayed? || step.Expire? || step.PushReplayed? || step.Route? || step.Purge?
    ensures Grew(s, Next(s, step))
  {
    hide Enqueue, Schedule, RouteNext, PurgeAll;
    match step
    case PushPublished(c) =>
      if !s.ring.closed {
        EnqueueGrew(Log(s.(calls := s.calls[c := Published]), Entered(s.calls[c].id)), s.calls[c].id, s.calls[c].front);
      }
    case AddDelayed(c) => ScheduleGrew(s.(calls := s.calls - {c}), s.calls[c].id, s.calls[c].delay);
    case Expire(c) =>
      if s.calls[c].ids != [] {
        EnqueueGrew(s.(calls := s.calls[c := Expiring(s.calls[c].ids[1..])]), s.calls[c].ids[0], false);
      }
    case PushReplayed(c) => EnqueueGrew(s.(calls := s.calls - {c}), s.calls[c].id, false);
    case Route(c) => RouteGrew(s, c);
    case Purge => PurgeGrew(s);
  }

  lemma OtherStepsGrow(s: State, step: Step)
    requires Sound(s) && Enabled(s, step) && !TouchesGroups(step)
    ensures Grew(s, Next(s, step))
  {
    hide Wheel.Advance, Wheel.Due, DL.Drop;
    hide DoPushPublished, DoAddDelayed, DoExpire, DoPushReplayed, RouteNext, PurgeAll;
    if step.PushPublished? || step.AddDelayed? || step.Expire? || step.PushReplayed? || step.Route? || step.Purge? {
      MovingStepsGrow(s, step);
    }
  }

  // ---- steps that do ----

  lemma CheckoutIsOrderly(s: State, c: nat)
    requires Orderly(s) && Conserved(s, [])
    requires c in s.calls && s.calls[c].CheckingOut? && s.calls[c].group in s.groups
    ensures Orderly(DoCheckout(s, c))
  {
    hide Begun, Ended, Conserved;
    var call, s' := s.calls[c], DoCheckout(s, c);
    var lease := G.Lease(call.consumer, s.now, s.now + G.VISIBILITY);
    ReleaseConserves(s, c, CheckedOut);
    LeaseConserves(s.(calls := s.calls[c := CheckedOut]), call.group, call.id, lease);
    forall g, id
      ensures Begun(s'.history, g, id) == Ended(s'.history, g, id) + Pending(s', g, id)
    {
      CountsLog(s.history, Leased(call.group, call.id, lease), g, id);
    }
  }

  /** Ending the checkout of a pending message. */
  lemma EndIsOrderly(s: State, s': State, g: string, id: Id, e: Event)
    requires Orderly(s) && g in s.groups && id in s.groups[g]
    requires s'.groups == s.groups[g := s.groups[g] - {id}] && s'.history == s.history + [e]
    requires Ends(e, g, id)
    requires e.TimedOut? ==> e.lease == s.groups[g][id] && e.at >= e.lease.deadline
    ensures Orderly(s')
  {
    hide Begun, Ended;
    forall g', id'
      ensures Begun(s'.history, g', id') == Ended(s'.history, g', id') + Pending(s', g', id')
    {
      CountsLog(s.history, e, g', id');
    }
  }

  ghost predicate AllOverdue(s: State, g: string, ids: seq<Id>) {
    g in s.groups && forall id :: id in ids && id in s.groups[g] ==> s.now >= s.groups[g][id].deadline
  }

  /** A sweep takes out exactly the entries it names. */
  lemma {:induction false} TakeAllTakesThem(s: State, c: nat, g: string, ids: seq<Id>)
    requires CanTake(s, c, g, ids)
    ensures TakeAllOverdue(s, c, g, ids).groups == s.groups[g := s.groups[g] - (set id | id in ids)]
    ensures TakeAllOverdue(s, c, g, ids).calls == s.calls[c := s.calls[c].(ids := s.calls[c].ids + ids)]
    decreases |ids|
  {
    if ids == [] {
      assert s.groups[g] - (set id | id in ids) == s.groups[g];
      assert s.calls[c].ids + ids == s.calls[c].ids;
    } else {
      assert ids[0] in ids;
      assert forall i :: 0 <= i < |ids[1..]| ==> ids[1..][i] == ids[i + 1];
      hide TakeOverdue;
      var s1 := TakeOverdue(s, c, g, ids[0]);
      TakeOneTakesIt(s, c, g, ids[0]);
      TakeAllTakesThem(s1, c, g, ids[1..]);
      RemoveOneThenRest(s.groups[g], ids);
      assert (s.calls[c].ids + [ids[0]]) + ids[1..] == s.calls[c].ids + ids;
    }
  }

  lemma TakeOneTakesIt(s: State, c: nat, g: string, id: Id)
    requires g in s.groups && id in s.groups[g] && c in s.calls && s.calls[c].Routing?
    ensures var s1 := TakeOverdue(s, c, g, id);
            && s1.groups == s.groups[g := s.groups[g] - {id}]
            && s1.calls == s.calls[c := s.calls[c].(ids := s.calls[c].ids + [id])]
  {
  }

  lemma RemoveOneThenRest(pel: G.Pel<Id>, ids: seq<Id>)
    requires ids != []
    ensures (pel - {ids[0]}) - (set id | id in ids[1..]) == pel - (set id | id in ids)
  {
    assert (set id | id in ids) == {ids[0]} + (set id | id in ids[1..]);
  }

  lemma {:induction false} TakeAllIsOrderly(s: State, c: nat, g: string, ids: seq<Id>)
    requires Orderly(s) && CanTake(s, c, g, ids) && AllOverdue(s, g, ids)
    ensures Orderly(TakeAllOverdue(s, c, g, ids))
    decreases |ids|
  {
    hide Orderly;
    if ids != [] {
      assert ids[0] in ids;
      assert forall i :: 0 <= i < |ids[1..]| ==> ids[1..][i] == ids[i + 1];
      var s1 := TakeOverdue(s, c, g, ids[0]);
      EndIsOrderly(s, s1, g, ids[0], TimedOut(g, ids[0], s.groups[g][ids[0]], s.now));
      TakeAllIsOrderly(s1, c, g, ids[1..]);
    }
  }

  lemma OrderlyFrame(s: State, s': State)
    requires Orderly(s) && s'.groups == s.groups && s'.history == s.history
    ensures Orderly(s')
  {
    hide Begun, Ended;
    forall g, id
      ensures Begun(s'.history, g, id) == Ended(s'.history, g, id) + Pending(s', g, id)
    {
      assert Begun(s.history, g, id) == Ended(s.history, g, id) + Pending(s, g, id);
    }
  }

  lemma SweepIsOrderly(s: State, c: nat, g: string, ids: seq<Id>)
    requires Orderly(s) && Enabled(s, Sweep(c, g, ids))
    ensures CanTake(s.(calls := s.calls[c := Routing([], false, false)]), c, g, ids)
    ensures Orderly(DoSweep(s, c, g, ids))
    ensures DoSweep(s, c, g, ids).groups == s.groups[g := s.groups[g] - G.Overdue(s.groups[g], s.now)]
    ensures DoSweep(s, c, g, ids).calls == s.calls[c := Routing(ids, false, false)]
  {
    hide Orderly, TakeAllOverdue;
    var s' := s.(calls := s.calls[c := Routing([], false, false)]);
    OrderlyFrame(s, s');
    TakeAllIsOrderly(s', c, g, ids);
    TakeAllTakesThem(s', c, g, ids);
    assert (set id | id in ids) == G.Overdue(s.groups[g], s.now);
    assert [] + ids == ids;
  }

  lemma CreateGroupIsOrderly(s: State, g: string)
    requires Orderly(s) && g !in s.groups
    ensures Orderly(s.(groups := s.groups[g := map[]]))
  {
    hide Begun, Ended;
    var s' := s.(groups := s.groups[g := map[]]);
    forall g', id
      ensures Begun(s'.history, g', id) == Ended(s'.history, g', id) + Pending(s', g', id)
    {
      assert Begun(s.history, g', id) == Ended(s.history, g', id) + Pending(s, g', id);
    }
  }

  lemma StepIsOrderly(s: State, step: Step)
    requires Sound(s) && Enabled(s, step) && Conserved(s, []) && Orderly(s)
    ensures Orderly(Next(s, step))
  {
    hide Orderly, Conserved, Grew;
    if step.CreateGroup? || step.Checkout? || step.Ack? || step.Nack? || step.Sweep? {
      LeaseStepIsOrderly(s, step);
    } else {
      hide Next, Enabled, Sound;
      OtherStepsGrow(s, step);
      GrewIsOrderly(s, Next(s, step));
    }
  }

  lemma LeaseStepIsOrderly(s: State, step: Step)
    requires Sound(s) && Enabled(s, step) && Conserved(s, []) && Orderly(s)
    requires step.CreateGroup? || step.Checkout? || step.Ack? || step.Nack? || step.Sweep?
    ensures Orderly(Next(s, step))
  {
    hide Orderly, Conserved;
    match step
    case CreateGroup(g) => CreateGroupIsOrderly(s, g);
    case Checkout(c) => CheckoutIsOrderly(s, c);
    case Ack(c, g, id) => EndIsOrderly(s, DoAck(s, c, g, id), g, id, Acked(g, id));
    case Nack(c, g, id) => EndIsOrderly(s, DoNack(s, c, g, id), g, id, Nacked(g, id));
    case Sweep(c, g, ids) => SweepIsOrderly(s, c, g, ids);
  }
}
