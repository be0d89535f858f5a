/** Whole calls on a topic, taken without interruption: the steps each of them takes and what it
    makes of the memory, as continuations of a run. */
module TopicCalls {
  import opened Ring
  import opened Wheel
  import opened Sums
  import DL = DeadLetters
  import G = Group
  import opened Topic
  import opened TopicMemory
  import opened TopicRuns

  // ---- what calls make of the memory ----

  function PublishedTo(m: Memory, id: Id, maxRetries: int, front: bool): Memory {
    var m1 := m.(store := m.store[id := Info(0, maxRetries)]);
    if m.closed || m.ring.closed then m1 else Pushed(m1, id, front).(published := m.published + 1)
  }

  function DelayedTo(m: Memory, id: Id, maxRetries: int, delay: int): Memory
    requires m.wheel.Valid()
  {
    Scheduled(m.(store := m.store[id := Info(0, maxRetries)], published := m.published + 1), id, delay)
  }

  function ConsumedFrom(m: Memory): Memory {
    if m.ring.items == [] then m else m.(ring := m.ring.Drop(1), consumed := m.consumed + 1)
  }

  function JoinedBy(m: Memory, g: string): Memory {
    if g in m.groups then m else m.(groups := m.groups[g := map[]])
  }

  function LeasedTo(m: Memory, g: string, consumer: string, now: int): Memory
    requires g in m.groups
  {
    if m.ring.items == [] then m
    else
      var pel := m.groups[g][m.ring.items[0] := G.Lease(consumer, now, now + G.VISIBILITY)];
      m.(ring := m.ring.Drop(1), groups := m.groups[g := pel], consumed := m.consumed + 1)
  }

  predicate Pending(m: Memory, g: string, id: Id) {
    g in m.groups && id in m.groups[g]
  }

  function AckedBy(m: Memory, g: string, id: Id): Memory {
    if !Pending(m, g, id) then m
    else m.(groups := m.groups[g := m.groups[g] - {id}], acked := m.acked + 1)
  }

  predicate Sane(m: Memory) {
    m.wheel.Valid() && m.dlqMax > 0
  }

  predicate Dies(info: Info, byNack: bool) {
    RouteAfter(info, byNack).ToDeadLetters?
  }

  /** A failure, with the count of the dead letters. */
  function Resolved(m: Memory, id: Id, byNack: bool): (m': Memory)
    requires Sane(m) && id in m.store
    ensures Sane(m') && m'.groups == m.groups && m'.dlqMax == m.dlqMax
    ensures m'.store == m.store[id := Failed(m.store[id])]
  {
    Routed(m, id, byNack).(deadLettered := m.deadLettered + if Dies(m.store[id], byNack) then 1 else 0)
  }

  function NackedBy(m: Memory, g: string, id: Id): Memory
    requires Sane(m) && (Pending(m, g, id) ==> id in m.store)
  {
    if !Pending(m, g, id) then m
    else
      var m1 := m.(groups := m.groups[g := m.groups[g] - {id}]);
      Resolved(m1, id, true).(nacked := m.nacked + 1)
  }

  predicate InStore(m: Memory, ids: seq<Id>) {
    forall id :: id in ids ==> id in m.store
  }

  function ResolvedAll(m: Memory, ids: seq<Id>): (m': Memory)
    requires Sane(m) && InStore(m, ids)
    ensures Sane(m') && m'.groups == m.groups && m'.store.Keys == m.store.Keys
    decreases |ids|
  {
    if ids == [] then m
    else
      assert ids[0] in ids;
      ResolvedAll(Resolved(m, ids[0], false), ids[1..])
  }

  /** A sweep of one group that found `ids` overdue. */
  ghost function SweptBy(m: Memory, g: string, ids: seq<Id>, now: int): (m': Memory)
    requires Sane(m) && InStore(m, ids) && g in m.groups
    ensures Sane(m') && m'.store.Keys == m.store.Keys
    ensures m'.groups == m.groups[g := m.groups[g] - G.Overdue(m.groups[g], now)]
  {
    ResolvedAll(m.(groups := m.groups[g := m.groups[g] - G.Overdue(m.groups[g], now)]), ids)
  }

  function TickedOn(m: Memory): Memory
    requires m.wheel.Valid()
  {
    m.(wheel := m.wheel.Advance(), ring := PushAll(m.ring, m.wheel.Due()))
  }

  function ReplayedTo(m: Memory, id: Id): Memory
    requires DL.Has(m.dlq, id) ==> id in m.store
  {
    if !DL.Has(m.dlq, id) then m
    else Pushed(m.(dlq := DL.Drop(m.dlq, id), store := m.store[id := m.store[id].(retry := 0)]), id, false)
  }

  function ClosedDown(m: Memory): Memory {
    if m.closed then m else m.(closed := true, ring := m.ring.Close(), wheel := m.wheel.Stop())
  }

  // ---- continuing a run ----

  /** The run has gone on by these steps, and this is where it has got to. */
  ghost predicate Became(r: Run, r': Run, steps: seq<Step>, m: Memory, calls: map<nat, Call>, now: int) {
    && Ongoing(r') && r'.steps == r.steps + steps && r.trace <= r'.trace
    && MemoryOf(Last(r')) == m && Last(r').calls == calls && Last(r').now == now
  }

  lemma TakeStep(r: Run, step: Step, m: Memory, calls: map<nat, Call>) returns (r': Run)
    requires Ongoing(r) && Does(Last(r), step, m, calls)
    ensures Became(r, r', [step], m, calls, if step.Clock? then step.now else Last(r).now)
  {
    hide Enabled, Next, Laws, Sound, IsRun;
    StepGoesOn(r, step);
    r' := Extended(r, step);
  }

  // ---- publishing ----

  function PublishSteps(m: Memory, c: nat, id: Id, maxRetries: int, front: bool): seq<Step> {
    [BeginPublish(c, id, maxRetries, front)] +
    (if m.closed then [] else [PushPublished(c)]) +
    (if m.closed || m.ring.closed then [] else [CountPublished(c)])
  }

  lemma PublishRun(r: Run, c: nat, id: Id, maxRetries: int, front: bool) returns (r': Run)
    requires Ongoing(r) && c !in Last(r).calls && id !in Last(r).store
    ensures Became(r, r', PublishSteps(MemoryOf(Last(r)), c, id, maxRetries, front),
                   PublishedTo(MemoryOf(Last(r)), id, maxRetries, front), Last(r).calls, Last(r).now)
  {
    hide Does, IsRun, Laws, Sound, Deque.Push, Deque.PushFront;
    var s := Last(r);
    var m, calls := MemoryOf(s), s.calls;
    var m1, calls1 := m.(store := m.store[id := Info(0, maxRetries)]), calls[c := Publishing(id, front)];
    BeginPublishDoes(s, c, id, maxRetries, front);
    r' := TakeStep(r, BeginPublish(c, id, maxRetries, front), m1, if s.closed then calls else calls1);
    if s.closed {
      return;
    }
    PushPublishedDoes(Last(r'), c, id, front);
    if s.ring.closed {
      ClosedRingStays(s.ring, id);
      assert calls1 - {c} == calls;
      r' := TakeStep(r', PushPublished(c), m1, calls);
      return;
    }
    var m2 := Pushed(m1, id, front);
    r' := TakeStep(r', PushPublished(c), m2, calls1[c := Published]);
    CountPublishedDoes(Last(r'), c);
    assert calls1[c := Published] - {c} == calls;
    r' := TakeStep(r', CountPublished(c), m2.(published := m.published + 1), calls);
  }

  lemma DelayedRun(r: Run, c: nat, id: Id, maxRetries: int, delay: int) returns (r': Run)
    requires Ongoing(r) && c !in Last(r).calls && id !in Last(r).store && Last(r).wheel.Valid()
    ensures Became(r, r', [BeginDelayed(c, id, maxRetries, delay), AddDelayed(c)],
                   DelayedTo(MemoryOf(Last(r)), id, maxRetries, delay), Last(r).calls, Last(r).now)
  {
    hide Does, IsRun, Laws, Sound, Scheduled, Wheel.Valid;
    var s := Last(r);
    var m := MemoryOf(s);
    var m1 := m.(store := m.store[id := Info(0, maxRetries)], published := m.published + 1);
    BeginDelayedDoes(s, c, id, maxRetries, delay);
    r' := TakeStep(r, BeginDelayed(c, id, maxRetries, delay), m1, s.calls[c := Delaying(id, delay)]);
    AddDelayedDoes(Last(r'), c, id, delay);
    assert s.calls[c := Delaying(id, delay)] - {c} == s.calls;
    r' := TakeStep(r', AddDelayed(c), Scheduled(m1, id, delay), s.calls);
  }

  // ---- consuming ----

  lemma ConsumeRun(r: Run, c: nat) returns (r': Run)
    requires Ongoing(r) && c !in Last(r).calls
    ensures Became(r, r', if Last(r).ring.items == [] then [] else [Pop(c), CountConsumed(c)],
                   ConsumedFrom(MemoryOf(Last(r))), Last(r).calls, Last(r).now)
  {
    hide Does, IsRun, Laws, Sound;
    var s := Last(r);
    var m := MemoryOf(s);
    if s.ring.items == [] {
      return r;
    }
    PopDoes(s, c);
    r' := TakeStep(r, Pop(c), m.(ring := m.ring.Drop(1)), s.calls[c := Popped(s.ring.items[0])]);
    CountConsumedDoes(Last(r'), c);
    assert s.calls[c := Popped(s.ring.items[0])] - {c} == s.calls;
    r' := TakeStep(r', CountConsumed(c), ConsumedFrom(m), s.calls);
  }

  lemma JoinRun(r: Run, g: string) returns (r': Run)
    requires Ongoing(r)
    ensures Became(r, r', if g in Last(r).groups then [] else [CreateGroup(g)],
                   JoinedBy(MemoryOf(Last(r)), g), Last(r).calls, Last(r).now)
  {
    hide Does, IsRun, Laws, Sound;
    if g in Last(r).groups {
      return r;
    }
    CreateGroupDoes(Last(r), g);
    r' := TakeStep(r, CreateGroup(g), JoinedBy(MemoryOf(Last(r)), g), Last(r).calls);
  }

  function LeaseSteps(m: Memory, c: nat, g: string, consumer: string, now: int): seq<Step> {
    if m.ring.items == [] then [] else [PopForGroup(c, g, consumer), Clock(now), Checkout(c), CountConsumed(c)]
  }

  /** The clock is read between the pop and the checkout. */
  lemma LeaseRun(r: Run, c: nat, g: string, consumer: string, now: int) returns (r': Run)
    requires Ongoing(r) && c !in Last(r).calls && g in Last(r).groups && now >= Last(r).now
    ensures var s := Last(r);
            Became(r, r', LeaseSteps(MemoryOf(s), c, g, consumer, now), LeasedTo(MemoryOf(s), g, consumer, now),
                   s.calls, if s.ring.items == [] then s.now else now)
  {
    hide Does, IsRun, Laws, Sound;
    var s := Last(r);
    var m := MemoryOf(s);
    if s.ring.items == [] {
      return r;
    }
    var id := s.ring.items[0];
    var m1, calls1 := m.(ring := m.ring.Drop(1)), s.calls[c := CheckingOut(id, g, consumer)];
    PopForGroupDoes(s, c, g, consumer);
    r' := TakeStep(r, PopForGroup(c, g, consumer), m1, calls1);
    ClockDoes(Last(r'), now);
    r' := TakeStep(r', Clock(now), m1, calls1);
    CheckoutDoes(Last(r'), c, id, g, consumer);
    var pel := m.groups[g][id := G.Lease(consumer, now, now + G.VISIBILITY)];
    r' := TakeStep(r', Checkout(c), m1.(groups := m.groups[g := pel]), calls1[c := CheckedOut]);
    CountConsumedDoes(Last(r'), c);
    assert calls1[c := CheckedOut] - {c} == s.calls;
    r' := TakeStep(r', CountConsumed(c), LeasedTo(m, g, consumer, now), s.calls);
  }

  // ---- settling ----

  lemma AckRun(r: Run, c: nat, g: string, id: Id) returns (r': Run)
    requires Ongoing(r) && c !in Last(r).calls
    ensures Became(r, r', if Pending(MemoryOf(Last(r)), g, id) then [Ack(c, g, id), CountAcked(c)] else [],
                   AckedBy(MemoryOf(Last(r)), g, id), Last(r).calls, Last(r).now)
  {
    hide Does, IsRun, Laws, Sound;
    var s := Last(r);
    var m := MemoryOf(s);
    if !Pending(m, g, id) {
      return r;
    }
    AckDoes(s, c, g, id);
    r' := TakeStep(r, Ack(c, g, id), m.(groups := m.groups[g := m.groups[g] - {id}]), s.calls[c := AckDone]);
    CountAckedDoes(Last(r'), c);
    assert s.calls[c := AckDone] - {c} == s.calls;
    r' := TakeStep(r', CountAcked(c), AckedBy(m, g, id), s.calls);
  }

  function FailureSteps(info: Info, byNack: bool, c: nat): seq<Step> {
    [Route(c)] + if Dies(info, byNack) then [CountDead(c)] else []
  }

  lemma FailureRun(r: Run, c: nat, ids: seq<Id>, byNack: bool) returns (r': Run)
    requires Ongoing(r) && IsRouting(Last(r), c, ids, byNack, false) && ids != []
    ensures Sane(MemoryOf(Last(r))) && ids[0] in Last(r).store
    ensures Became(r, r', FailureSteps(Last(r).store[ids[0]], byNack, c), Resolved(MemoryOf(Last(r)), ids[0], byNack),
                   Last(r).calls[c := Routing(ids[1..], byNack, false)], Last(r).now)
  {
    hide Does, IsRun, Laws, Sound, Routed, RouteAfter, Wheel.Valid;
    SaneMemory(Last(r));
    var s := Last(r);
    RouteDoes(s, c, ids, byNack);
    var m1, dead := Routed(MemoryOf(s), ids[0], byNack), Dies(s.store[ids[0]], byNack);
    r' := TakeStep(r, Route(c), m1, s.calls[c := Routing(ids[1..], byNack, dead)]);
    RoutedCounts(MemoryOf(s), ids[0], byNack);
    if dead {
      var calls := s.calls[c := Routing(ids[1..], byNack, false)];
      CountDeadDoes(Last(r'), c, ids[1..], byNack);
      assert Last(r').calls[c := Routing(ids[1..], byNack, false)] == calls;
      r' := TakeStep(r', CountDead(c), m1.(deadLettered := m1.deadLettered + 1), calls);
    }
  }

  lemma SaneMemory(s: State)
    requires Sound(s)
    ensures Sane(MemoryOf(s))
  {
  }

  lemma RoutedCounts(m: Memory, id: Id, byNack: bool)
    requires Sane(m) && id in m.store
    ensures Routed(m, id, byNack).deadLettered == m.deadLettered
  {
    hide RouteAfter, DL.Put;
  }

  function NackSteps(m: Memory, c: nat, g: string, id: Id): seq<Step>
    requires Pending(m, g, id) ==> id in m.store
  {
    if !Pending(m, g, id) then []
    else [Nack(c, g, id)] + FailureSteps(m.store[id], true, c) + [FinishRouting(c)]
  }

  /** The routing of a rejected message and the end of the call. */
  lemma RejectRun(r: Run, c: nat, id: Id) returns (r': Run)
    requires Ongoing(r) && IsRouting(Last(r), c, [id], true, false)
    ensures var m := MemoryOf(Last(r));
            && Sane(m) && id in m.store
            && Became(r, r', FailureSteps(m.store[id], true, c) + [FinishRouting(c)],
                      Resolved(m, id, true).(nacked := m.nacked + 1), Last(r).calls - {c}, Last(r).now)
  {
    hide Does, IsRun, Laws, Sound, Resolved, Wheel.Valid, FailureSteps;
    var m, calls := MemoryOf(Last(r)), Last(r).calls;
    r' := FailureRun(r, c, [id], true);
    assert [id][1..] == [];
    FinishRoutingDoes(Last(r'), c, true);
    assert calls[c := Routing([], true, false)] - {c} == calls - {c};
    ResolvedKeepsNacked(m, id, true);
    r' := TakeStep(r', FinishRouting(c), Resolved(m, id, true).(nacked := m.nacked + 1), calls - {c});
  }

  lemma NackOpened(m: Memory, c: nat, g: string, id: Id)
    requires Sane(m) && Pending(m, g, id) && id in m.store
    ensures var m1 := m.(groups := m.groups[g := m.groups[g] - {id}]);
            NackedBy(m, g, id) == Resolved(m1, id, true).(nacked := m.nacked + 1)
    ensures NackSteps(m, c, g, id) == [Nack(c, g, id)] + (FailureSteps(m.store[id], true, c) + [FinishRouting(c)])
  {
    hide Resolved, FailureSteps;
  }

  lemma NackRun(r: Run, c: nat, g: string, id: Id) returns (r': Run)
    requires Ongoing(r) && c !in Last(r).calls
    ensures var m := MemoryOf(Last(r));
            && Sane(m) && (Pending(m, g, id) ==> id in m.store)
            && Became(r, r', NackSteps(m, c, g, id), NackedBy(m, g, id), Last(r).calls, Last(r).now)
  {
    hide IsRun, Laws, Sound, Resolved, Wheel.Valid, FailureSteps;
    var s := Last(r);
    var m := MemoryOf(s);
    SaneMemory(s);
    if Pending(m, g, id) {
      r' := PendingNackRun(r, c, g, id);
    } else {
      r' := r;
    }
  }

  lemma PendingNackRun(r: Run, c: nat, g: string, id: Id) returns (r': Run)
    requires Ongoing(r) && c !in Last(r).calls && Pending(MemoryOf(Last(r)), g, id)
    ensures var m := MemoryOf(Last(r));
            && Sane(m) && id in m.store
            && Became(r, r', NackSteps(m, c, g, id), NackedBy(m, g, id), Last(r).calls, Last(r).now)
  {
    hide Does, IsRun, Laws, Sound, Resolved, Wheel.Valid, FailureSteps, NackSteps, NackedBy;
    var s := Last(r);
    var m := MemoryOf(s);
    SaneMemory(s);
    var m1, calls1 := m.(groups := m.groups[g := m.groups[g] - {id}]), s.calls[c := Routing([id], true, false)];
    NackDoes(s, c, g, id);
    r' := TakeStep(r, Nack(c, g, id), m1, calls1);
    r' := RejectRun(r', c, id);
    assert calls1 - {c} == s.calls;
    NackOpened(m, c, g, id);
  }

  lemma ResolvedKeepsNacked(m: Memory, id: Id, byNack: bool)
    requires Sane(m) && id in m.store
    ensures Resolved(m, id, byNack).nacked == m.nacked
  {
    hide RouteAfter, DL.Put;
  }

  // ---- the sweep ----

  /** The steps of a sweep that holds `ids`, when `store` is what it found. */
  function RoutingSteps(store: map<Id, Info>, ids: seq<Id>, c: nat): seq<Step>
    requires forall id :: id in ids ==> id in store
    decreases |ids|
  {
    if ids == [] then []
    else
      assert ids[0] in ids;
      FailureSteps(store[ids[0]], false, c) + RoutingSteps(store, ids[1..], c)
  }

  /** What became of other messages makes no difference. */
  lemma {:induction false} RoutingStepsAgree(store: map<Id, Info>, store': map<Id, Info>, ids: seq<Id>, c: nat)
    requires forall id :: id in ids ==> id in store && id in store' && store[id] == store'[id]
    ensures RoutingSteps(store, ids, c) == RoutingSteps(store', ids, c)
    decreases |ids|
  {
    hide FailureSteps;
    if ids != [] {
      assert ids[0] in ids;
      RoutingStepsAgree(store, store', ids[1..], c);
    }
  }

  ghost predicate Distinct(ids: seq<Id>) {
    forall i, j :: 0 <= i < j < |ids| ==> ids[i] != ids[j]
  }

  lemma {:induction false} RoutingRun(r: Run, c: nat, ids: seq<Id>) returns (r': Run)
    requires Ongoing(r) && IsRouting(Last(r), c, ids, false, false) && Distinct(ids)
    requires InStore(MemoryOf(Last(r)), ids)
    ensures Sane(MemoryOf(Last(r)))
    ensures Became(r, r', RoutingSteps(Last(r).store, ids, c), ResolvedAll(MemoryOf(Last(r)), ids),
                   Last(r).calls[c := Routing([], false, false)], Last(r).now)
    decreases |ids|
  {
    hide Does, IsRun, Laws, Sound, Resolved, FailureSteps;
    var s := Last(r);
    SaneMemory(s);
    if ids == [] {
      assert s.calls[c := Routing([], false, false)] == s.calls;
      return r;
    }
    var id, rest := ids[0], ids[1..];
    assert id in ids;
    var r1 := FailureRun(r, c, ids, false);
    assert forall x :: x in rest ==> x in ids && x != id;
    r' := RoutingRun(r1, c, rest);
    RoutingStepsAgree(s.store, Last(r1).store, rest, c);
    assert s.calls[c := Routing(rest, false, false)][c := Routing([], false, false)] ==
           s.calls[c := Routing([], false, false)];
  }

  function SweepSteps(store: map<Id, Info>, c: nat, g: string, ids: seq<Id>, now: int): seq<Step>
    requires forall id :: id in ids ==> id in store
  {
    [Clock(now), Sweep(c, g, ids)] + RoutingSteps(store, ids, c) + [FinishRouting(c)]
  }

  /** From the lock of the group on. */
  lemma SweepRun(r: Run, c: nat, g: string, ids: seq<Id>, now: int) returns (r': Run)
    requires Ongoing(r) && c !in Last(r).calls && g in Last(r).groups && now >= Last(r).now && Distinct(ids)
    requires forall id :: id in ids <==> id in G.Overdue(Last(r).groups[g], now)
    requires InStore(MemoryOf(Last(r)), ids)
    ensures Sane(MemoryOf(Last(r)))
    ensures Became(r, r', SweepSteps(Last(r).store, c, g, ids, now), SweptBy(MemoryOf(Last(r)), g, ids, now),
                   Last(r).calls, now)
  {
    hide Does, IsRun, Laws, Sound, ResolvedAll, RoutingSteps, G.Overdue;
    var s := Last(r);
    var m, calls1 := MemoryOf(s), s.calls[c := Routing(ids, false, false)];
    SaneMemory(s);
    ClockDoes(s, now);
    r' := TakeStep(r, Clock(now), m, s.calls);
    SweepDoes(Last(r'), c, g, ids);
    var m1 := m.(groups := m.groups[g := m.groups[g] - G.Overdue(m.groups[g], now)]);
    r' := TakeStep(r', Sweep(c, g, ids), m1, calls1);
    r' := RoutingRun(r', c, ids);
    FinishRoutingDoes(Last(r'), c, false);
    assert calls1[c := Routing([], false, false)] - {c} == s.calls;
    r' := TakeStep(r', FinishRouting(c), ResolvedAll(m1, ids), s.calls);
  }

  // ---- the wheel, the dead letters, closing ----

  function Repeat(step: Step, n: nat): seq<Step> {
    if n == 0 then [] else [step] + Repeat(step, n - 1)
  }

  lemma {:induction false} ExpiryRun(r: Run, c: nat, ids: seq<Id>) returns (r': Run)
    requires Ongoing(r) && c in Last(r).calls && Last(r).calls[c] == Expiring(ids)
    ensures Became(r, r', Repeat(Expire(c), |ids| + 1), MemoryOf(Last(r)).(ring := PushAll(Last(r).ring, ids)),
                   Last(r).calls - {c}, Last(r).now)
    decreases |ids|
  {
    hide Does, IsRun, Laws, Sound, Deque.Push;
    var s := Last(r);
    ExpireDoes(s, c, ids);
    if ids == [] {
      r' := TakeStep(r, Expire(c), MemoryOf(s), s.calls - {c});
    } else {
      r' := TakeStep(r, Expire(c), Pushed(MemoryOf(s), ids[0], false), s.calls[c := Expiring(ids[1..])]);
      r' := ExpiryRun(r', c, ids[1..]);
      assert s.calls[c := Expiring(ids[1..])] - {c} == s.calls - {c};
    }
  }

  function TickSteps(m: Memory, c: nat): seq<Step>
    requires m.wheel.Valid()
  {
    [Advance(c)] + Repeat(Expire(c), |m.wheel.Due()| + 1)
  }

  lemma TickRun(r: Run, c: nat) returns (r': Run)
    requires Ongoing(r) && c !in Last(r).calls && Last(r).wheel.Valid()
    ensures Became(r, r', TickSteps(MemoryOf(Last(r)), c), TickedOn(MemoryOf(Last(r))), Last(r).calls, Last(r).now)
  {
    hide Does, IsRun, Laws, Sound, Wheel.Due, Wheel.Advance, Wheel.Valid, Repeat;
    var s := Last(r);
    var m, calls1 := MemoryOf(s), s.calls[c := Expiring(s.wheel.Due())];
    AdvanceDoes(s, c);
    r' := TakeStep(r, Advance(c), m.(wheel := m.wheel.Advance()), calls1);
    r' := ExpiryRun(r', c, s.wheel.Due());
    assert calls1 - {c} == s.calls;
  }

  lemma ReplayRun(r: Run, c: nat, id: Id) returns (r': Run)
    requires Ongoing(r) && c !in Last(r).calls
    ensures DL.Has(Last(r).dlq, id) ==> id in Last(r).store
    ensures Became(r, r', if DL.Has(Last(r).dlq, id) then [Replay(c, id), PushReplayed(c)] else [],
                   ReplayedTo(MemoryOf(Last(r)), id), Last(r).calls, Last(r).now)
  {
    hide Does, IsRun, Laws, Sound, Pushed, DL.Has, DL.Drop;
    var s := Last(r);
    var m := MemoryOf(s);
    if !DL.Has(s.dlq, id) {
      return r;
    }
    ReplayDoes(s, c, id);
    var m1 := m.(dlq := DL.Drop(m.dlq, id), store := m.store[id := m.store[id].(retry := 0)]);
    r' := TakeStep(r, Replay(c, id), m1, s.calls[c := Replaying(id)]);
    PushReplayedDoes(Last(r'), c, id);
    assert s.calls[c := Replaying(id)] - {c} == s.calls;
    r' := TakeStep(r', PushReplayed(c), Pushed(m1, id, false), s.calls);
  }

  lemma PurgeRun(r: Run) returns (r': Run)
    requires Ongoing(r)
    ensures Became(r, r', [Purge], MemoryOf(Last(r)).(dlq := []), Last(r).calls, Last(r).now)
  {
    hide Does, IsRun, Laws, Sound;
    PurgeDoes(Last(r));
    r' := TakeStep(r, Purge, MemoryOf(Last(r)).(dlq := []), Last(r).calls);
  }

  lemma CloseRun(r: Run, c: nat) returns (r': Run)
    requires Ongoing(r) && c !in Last(r).calls
    ensures Became(r, r', if Last(r).closed then [] else [BeginClose(c), CloseRing(c), StopWheel(c)],
                   ClosedDown(MemoryOf(Last(r))), Last(r).calls, Last(r).now)
  {
    hide Does, IsRun, Laws, Sound;
    var s := Last(r);
    if s.closed {
      return r;
    }
    var m1 := MemoryOf(s).(closed := true);
    var m2, calls1 := m1.(ring := m1.ring.Close()), s.calls[c := Closing(true)];
    BeginCloseDoes(s, c);
    r' := TakeStep(r, BeginClose(c), m1, s.calls[c := Closing(false)]);
    CloseRingDoes(Last(r'), c);
    assert s.calls[c := Closing(false)][c := Closing(true)] == calls1;
    r' := TakeStep(r', CloseRing(c), m2, calls1);
    StopWheelDoes(Last(r'), c);
    assert calls1 - {c} == s.calls;
    r' := TakeStep(r', StopWheel(c), m2.(wheel := m2.wheel.Stop()), s.calls);
  }
}
