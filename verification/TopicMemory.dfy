/** What each step of the topic's state machine does to the memory of the topic object, and to the
    calls that are under way. */
module TopicMemory {
  import opened Ring
  import opened Wheel
  import opened Sums
  import DL = DeadLetters
  import G = Group
  import opened Topic
  import L = Leases

  /** The part of a state that exists in memory. */
  datatype Memory = Memory(
    ring: Deque<Id>, wheel: Wheel<Id>, groups: map<string, G.Pel<Id>>, dlq: DL.Letters<Id, int>, dlqMax: int,
    closed: bool, store: map<Id, Info>,
    published: nat, consumed: nat, acked: nat, nacked: nat, deadLettered: nat)

  function MemoryOf(s: State): Memory {
    Memory(s.ring, s.wheel, s.groups, s.dlq, s.dlqMax, s.closed, s.store,
           s.published, s.consumed, s.acked, s.nacked, s.deadLettered)
  }

  function Pushed(m: Memory, id: Id, front: bool): Memory {
    m.(ring := if front then m.ring.PushFront(id) else m.ring.Push(id))
  }

  /** A delay that is not positive goes to the ring, every other one to the wheel. */
  function Scheduled(m: Memory, id: Id, delay: int): Memory
    requires m.wheel.Valid()
  {
    if delay <= 0 then Pushed(m, id, false) else m.(wheel := m.wheel.Add(id, Ticks(delay, TICK)))
  }

  /** What the callbacks of a group do with a message that has failed. */
  function Delivered(m: Memory, id: Id, route: G.Route): Memory
    requires m.wheel.Valid() && id in m.store && m.dlqMax >= 0
  {
    match route
    case ToDeadLetters => m.(dlq := DL.Put(m.dlq, m.dlqMax, id, m.store[id].retry))
    case ToWheel(delay) => Scheduled(m, id, delay)
  }

  /** One more failure of a message, and what follows from it. */
  function Routed(m: Memory, id: Id, byNack: bool): Memory
    requires m.wheel.Valid() && id in m.store && m.dlqMax >= 0
  {
    Delivered(m.(store := m.store[id := Failed(m.store[id])]), id, RouteAfter(m.store[id], byNack))
  }

  /** The step is possible and has this effect. */
  ghost predicate Does(s: State, step: Step, m: Memory, calls: map<nat, Call>)
    requires Sound(s)
  {
    Enabled(s, step) && MemoryOf(Next(s, step)) == m && Next(s, step).calls == calls &&
    Next(s, step).now == if step.Clock? then step.now else s.now
  }

  lemma LoseInMemory(s: State, id: Id, cause: Cause)
    ensures MemoryOf(Lose(s, id, cause)) == MemoryOf(s)
    ensures Lose(s, id, cause).calls == s.calls && Lose(s, id, cause).now == s.now
  {
  }

  lemma EnqueueInMemory(s: State, id: Id, front: bool)
    ensures MemoryOf(Enqueue(s, id, front)) == Pushed(MemoryOf(s), id, front)
    ensures Enqueue(s, id, front).calls == s.calls && Enqueue(s, id, front).now == s.now
  {
    hide Deque.Push, Deque.PushFront, Victims, Lose;
    if s.ring.closed {
      ClosedRingStays(s.ring, id);
      LoseInMemory(s, id, RingClosed);
    } else {
      var gone := Victims(s.ring, front);
      if gone != [] {
        LoseInMemory(s.(ring := if front then s.ring.PushFront(id) else s.ring.Push(id)), gone[0], Saturated);
      }
    }
  }

  lemma ClosedRingStays(d: Deque<Id>, id: Id)
    requires d.closed
    ensures d.Push(id) == d && d.PushFront(id) == d
  {
  }

  lemma BuryInMemory(s: State, id: Id, attempts: int)
    ensures MemoryOf(Bury(s, id, attempts)) == MemoryOf(s).(dlq := DL.Put(s.dlq, s.dlqMax, id, attempts))
    ensures Bury(s, id, attempts).calls == s.calls && Bury(s, id, attempts).now == s.now
  {
    hide DL.Put;
  }

  lemma ScheduleInMemory(s: State, id: Id, delay: int)
    requires s.wheel.Valid()
    ensures MemoryOf(Schedule(s, id, delay)) == Scheduled(MemoryOf(s), id, delay)
    ensures Schedule(s, id, delay).calls == s.calls && Schedule(s, id, delay).now == s.now
  {
    hide Enqueue, Pushed, Ticks;
    if delay <= 0 {
      EnqueueInMemory(s, id, false);
    }
  }

  // ---- publishing ----

  lemma BeginPublishDoes(s: State, c: nat, id: Id, maxRetries: int, front: bool)
    requires Sound(s) && c !in s.calls && id !in s.store
    ensures Does(s, BeginPublish(c, id, maxRetries, front),
                 MemoryOf(s).(store := s.store[id := Info(0, maxRetries)]),
                 if s.closed then s.calls else s.calls[c := Publishing(id, front)])
  {
    hide Sound;
  }

  lemma PushPublishedDoes(s: State, c: nat, id: Id, front: bool)
    requires Sound(s) && c in s.calls && s.calls[c] == Publishing(id, front)
    ensures Does(s, PushPublished(c), Pushed(MemoryOf(s), id, front),
                 if s.ring.closed then s.calls - {c} else s.calls[c := Published])
  {
    hide Sound, Enqueue;
    EnqueueInMemory(Log(s.(calls := s.calls[c := Published]), Entered(id)), id, front);
  }

  lemma CountPublishedDoes(s: State, c: nat)
    requires Sound(s) && c in s.calls && s.calls[c].Published?
    ensures Does(s, CountPublished(c), MemoryOf(s).(published := s.published + 1), s.calls - {c})
  {
    hide Sound;
  }

  lemma BeginDelayedDoes(s: State, c: nat, id: Id, maxRetries: int, delay: int)
    requires Sound(s) && c !in s.calls && id !in s.store
    ensures Does(s, BeginDelayed(c, id, maxRetries, delay),
                 MemoryOf(s).(store := s.store[id := Info(0, maxRetries)], published := s.published + 1),
                 s.calls[c := Delaying(id, delay)])
  {
    hide Sound;
  }

  lemma AddDelayedDoes(s: State, c: nat, id: Id, delay: int)
    requires Sound(s) && s.wheel.Valid() && c in s.calls && s.calls[c] == Delaying(id, delay)
    ensures Does(s, AddDelayed(c), Scheduled(MemoryOf(s), id, delay), s.calls - {c})
  {
    hide Sound, Schedule, Scheduled;
    ScheduleInMemory(s.(calls := s.calls - {c}), id, delay);
  }

  // ---- consuming ----

  lemma PopDoes(s: State, c: nat)
    requires Sound(s) && c !in s.calls && s.ring.items != []
    ensures Does(s, Pop(c), MemoryOf(s).(ring := s.ring.Drop(1)), s.calls[c := Popped(s.ring.items[0])])
  {
    hide Sound;
  }

  lemma CountConsumedDoes(s: State, c: nat)
    requires Sound(s) && c in s.calls && (s.calls[c].Popped? || s.calls[c].CheckedOut?)
    ensures Does(s, CountConsumed(c), MemoryOf(s).(consumed := s.consumed + 1), s.calls - {c})
  {
    hide Sound;
  }

  lemma CreateGroupDoes(s: State, g: string)
    requires Sound(s) && g !in s.groups
    ensures Does(s, CreateGroup(g), MemoryOf(s).(groups := s.groups[g := map[]]), s.calls)
  {
    hide Sound;
  }

  lemma PopForGroupDoes(s: State, c: nat, g: string, consumer: string)
    requires Sound(s) && c !in s.calls && g in s.groups && s.ring.items != []
    ensures Does(s, PopForGroup(c, g, consumer), MemoryOf(s).(ring := s.ring.Drop(1)),
                 s.calls[c := CheckingOut(s.ring.items[0], g, consumer)])
  {
    hide Sound;
  }

  lemma CheckoutDoes(s: State, c: nat, id: Id, g: string, consumer: string)
    requires Sound(s) && c in s.calls && s.calls[c] == CheckingOut(id, g, consumer) && g in s.groups
    ensures Does(s, Checkout(c),
                 MemoryOf(s).(
                   groups := s.groups[g := s.groups[g][id := G.Lease(consumer, s.now, s.now + G.VISIBILITY)]]),
                 s.calls[c := CheckedOut])
  {
    hide Sound;
  }

  // ---- settling ----

  lemma AckDoes(s: State, c: nat, g: string, id: Id)
    requires Sound(s) && c !in s.calls && g in s.groups && id in s.groups[g]
    ensures Does(s, Ack(c, g, id), MemoryOf(s).(groups := s.groups[g := s.groups[g] - {id}]), s.calls[c := AckDone])
  {
    hide Sound;
  }

  lemma CountAckedDoes(s: State, c: nat)
    requires Sound(s) && c in s.calls && s.calls[c].AckDone?
    ensures Does(s, CountAcked(c), MemoryOf(s).(acked := s.acked + 1), s.calls - {c})
  {
    hide Sound;
  }

  lemma NackDoes(s: State, c: nat, g: string, id: Id)
    requires Sound(s) && c !in s.calls && g in s.groups && id in s.groups[g]
    ensures Does(s, Nack(c, g, id), MemoryOf(s).(groups := s.groups[g := s.groups[g] - {id}]),
                 s.calls[c := Routing([id], true, false)])
  {
    hide Sound;
  }

  lemma {:induction false} TakeAllInMemory(s: State, c: nat, g: string, ids: seq<Id>)
    requires CanTake(s, c, g, ids)
    ensures var s' := TakeAllOverdue(s, c, g, ids);
            MemoryOf(s') == MemoryOf(s).(groups := s'.groups) && s'.now == s.now
    decreases |ids|
  {
    if ids != [] {
      assert ids[0] in ids;
      assert forall i :: 0 <= i < |ids[1..]| ==> ids[1..][i] == ids[i + 1];
      TakeAllInMemory(TakeOverdue(s, c, g, ids[0]), c, g, ids[1..]);
    }
  }

  lemma SweepDoes(s: State, c: nat, g: string, ids: seq<Id>)
    requires Sound(s) && Enabled(s, Sweep(c, g, ids))
    ensures Does(s, Sweep(c, g, ids),
                 MemoryOf(s).(groups := s.groups[g := s.groups[g] - G.Overdue(s.groups[g], s.now)]),
                 s.calls[c := Routing(ids, false, false)])
  {
    hide Sound, TakeAllOverdue;
    var s' := s.(calls := s.calls[c := Routing([], false, false)]);
    TakeAllInMemory(s', c, g, ids);
    L.TakeAllTakesThem(s', c, g, ids);
    assert (set id | id in ids) == G.Overdue(s.groups[g], s.now);
    assert [] + ids == ids;
  }

  ghost predicate IsRouting(s: State, c: nat, ids: seq<Id>, byNack: bool, owesDead: bool) {
    c in s.calls && s.calls[c] == Routing(ids, byNack, owesDead)
  }

  lemma RouteDoes(s: State, c: nat, ids: seq<Id>, byNack: bool)
    requires Sound(s) && IsRouting(s, c, ids, byNack, false) && ids != []
    ensures ids[0] in s.store && s.wheel.Valid()
    ensures Does(s, Route(c), Routed(MemoryOf(s), ids[0], byNack),
                 s.calls[c := Routing(ids[1..], byNack, RouteAfter(s.store[ids[0]], byNack).ToDeadLetters?)])
  {
    assert s.calls[c].ids[0] in s.store;
    hide Sound, Schedule, Scheduled, Bury, DL.Put, G.AfterNack, G.AfterTimeout;
    var id := ids[0];
    var info := Failed(s.store[id]);
    var route := RouteAfter(s.store[id], byNack);
    var s' := s.(store := s.store[id := info],
                 calls := s.calls[c := Routing(ids[1..], byNack, route.ToDeadLetters?)]);
    match route
    case ToDeadLetters => BuryInMemory(s', id, info.retry);
    case ToWheel(delay) => ScheduleInMemory(Log(s', Retried(id)), id, delay);
  }

  lemma CountDeadDoes(s: State, c: nat, ids: seq<Id>, byNack: bool)
    requires Sound(s) && IsRouting(s, c, ids, byNack, true)
    ensures Does(s, CountDead(c), MemoryOf(s).(deadLettered := s.deadLettered + 1),
                 s.calls[c := Routing(ids, byNack, false)])
  {
    hide Sound;
  }

  lemma FinishRoutingDoes(s: State, c: nat, byNack: bool)
    requires Sound(s) && IsRouting(s, c, [], byNack, false)
    ensures Does(s, FinishRouting(c), MemoryOf(s).(nacked := s.nacked + if byNack then 1 else 0), s.calls - {c})
  {
    hide Sound;
  }

  // ---- the wheel, the dead letters, closing ----

  lemma AdvanceDoes(s: State, c: nat)
    requires Sound(s) && s.wheel.Valid() && c !in s.calls
    ensures Does(s, Advance(c), MemoryOf(s).(wheel := s.wheel.Advance()), s.calls[c := Expiring(s.wheel.Due())])
  {
    hide Sound;
  }

  lemma ExpireDoes(s: State, c: nat, ids: seq<Id>)
    requires Sound(s) && c in s.calls && s.calls[c] == Expiring(ids)
    ensures ids == [] ==> Does(s, Expire(c), MemoryOf(s), s.calls - {c})
    ensures ids != [] ==> Does(s, Expire(c), Pushed(MemoryOf(s), ids[0], false), s.calls[c := Expiring(ids[1..])])
  {
    hide Sound, Enqueue;
    if ids != [] {
      EnqueueInMemory(s.(calls := s.calls[c := Expiring(ids[1..])]), ids[0], false);
    }
  }

  lemma ReplayDoes(s: State, c: nat, id: Id)
    requires Sound(s) && c !in s.calls && DL.Has(s.dlq, id)
    ensures id in s.store
    ensures Does(s, Replay(c, id),
                 MemoryOf(s).(dlq := DL.Drop(s.dlq, id), store := s.store[id := s.store[id].(retry := 0)]),
                 s.calls[c := Replaying(id)])
  {
    assert s.dlq[DL.Find(s.dlq, id)].0 in s.store;
    hide Sound, DL.Drop;
  }

  lemma PushReplayedDoes(s: State, c: nat, id: Id)
    requires Sound(s) && c in s.calls && s.calls[c] == Replaying(id)
    ensures Does(s, PushReplayed(c), Pushed(MemoryOf(s), id, false), s.calls - {c})
  {
    hide Sound, Enqueue;
    EnqueueInMemory(s.(calls := s.calls - {c}), id, false);
  }

  lemma {:induction false} PurgeInMemory(s: State)
    ensures MemoryOf(PurgeAll(s)) == MemoryOf(s).(dlq := []) && PurgeAll(s).calls == s.calls && PurgeAll(s).now == s.now
    decreases |s.dlq|
  {
    if s.dlq != [] {
      PurgeInMemory(LoseOldestLetter(s, Purged));
    }
  }

  lemma PurgeDoes(s: State)
    requires Sound(s)
    ensures Does(s, Purge, MemoryOf(s).(dlq := []), s.calls)
  {
    hide Sound, PurgeAll;
    PurgeInMemory(s);
  }

  lemma BeginCloseDoes(s: State, c: nat)
    requires Sound(s) && c !in s.calls && !s.closed
    ensures Does(s, BeginClose(c), MemoryOf(s).(closed := true), s.calls[c := Closing(false)])
  {
    hide Sound;
  }

  lemma CloseRingDoes(s: State, c: nat)
    requires Sound(s) && c in s.calls && s.calls[c] == Closing(false)
    ensures Does(s, CloseRing(c), MemoryOf(s).(ring := s.ring.Close()), s.calls[c := Closing(true)])
  {
    hide Sound;
  }

  lemma StopWheelDoes(s: State, c: nat)
    requires Sound(s) && c in s.calls && s.calls[c] == Closing(true)
    ensures Does(s, StopWheel(c), MemoryOf(s).(wheel := s.wheel.Stop()), s.calls - {c})
  {
    hide Sound;
  }

  lemma ClockDoes(s: State, now: int)
    requires Sound(s) && now >= s.now
    ensures Does(s, Clock(now), MemoryOf(s), s.calls)
  {
    hide Sound;
  }
}
