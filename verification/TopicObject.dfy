/** The topic object of internal/queue/topic.go, put together from its ring, its timing wheel, its
    consumer groups and its dead letter queue. Its calls run here without interruption; each of them
    continues a run of the state machine of module Topic, so that what is proved of all runs holds
    of the object.

    The ring, the wheel and the dead letters hold messages by ID; the message objects are shared
    with the groups that have them pending. */
module TopicObject {
  import opened Options
  import opened Bits
  import opened Ring
  import opened Wheel
  import opened Sums
  import DL = DeadLetters
  import G = Group
  import opened Machine = Topic
  import opened TopicMemory
  import opened TopicRuns
  import opened TopicCalls
  import opened TopicFiles
  import A = Accounting
  import T = TopicTheorems

  class Topic {
    const ring: RingBuffer<Id>
    const tw: TimingWheel<Id>
    const dlq: DL.DeadLetterQueue<Id, int>
    var groups: Groups
    var messages: Messages
    var closed: bool
    var published: nat
    var consumed: nat
    var acked: nat
    var nacked: nat
    var deadLettered: nat
    ghost var members: set<G.ConsumerGroup>
    ghost var objects: set<G.Message>
    ghost var run: Run

    ghost function Footprint(): (r: set<object>)
      reads this`members, this`objects, ring`nodes, tw`entries
      ensures this in r
    {
      {this, ring, ring.nodes, tw, tw.buckets, dlq} + tw.entries + members + objects
    }

    ghost predicate Structures()
      reads ring, ring.nodes, tw, tw.buckets, tw.entries, dlq
    {
      ring.Valid() && tw.Valid() && dlq.Valid() && tw.interval == TICK
    }

    ghost predicate Filed()
      reads this`groups, this`messages, this`members, this`objects, members, objects
    {
      Known(messages, objects) && AllShared(groups, members, messages)
    }

    ghost predicate Parts()
      reads this`groups, this`messages, this`members, this`objects, members, objects
      reads ring, ring.nodes, tw, tw.buckets, tw.entries, dlq
    {
      Structures() && Filed()
    }

    ghost function InMemory(): Memory
      requires Parts()
      reads this`groups, this`messages, this`members, this`objects, members, objects
      reads this`closed, this`published, this`consumed, this`acked, this`nacked, this`deadLettered
      reads ring, ring.nodes, tw, tw.buckets, tw.entries, dlq
    {
      Memory(ring.View(), tw.view, PelsOf(groups, members), dlq.View(), dlq.maxSize, closed,
             StoreOf(messages, objects), published, consumed, acked, nacked, deadLettered)
    }

    /** The fields are the state that the run has got to. */
    ghost predicate Valid()
      reads this, members, objects, ring, ring.nodes, tw, tw.buckets, tw.entries, dlq
    {
      Parts() && Ongoing(run) && InMemory() == MemoryOf(Last(run))
    }

    constructor (capacity: nat, ghost now: int)
      requires capacity <= WORD / 2
      ensures Valid() && fresh(Footprint())
      ensures Last(run) == Start(ring.capacity, 3600, 50000, now) && run.steps == []
      ensures ring.capacity >= capacity && ring.capacity >= MIN_CAPACITY
    {
      hide Laws, Sound, RingBuffer.Valid, RingBuffer.View, TimingWheel.Valid;
      hide DL.DeadLetterQueue.Valid, DL.DeadLetterQueue.View, IsRun, Known, AllShared, PelsOf, StoreOf;
      ring := new RingBuffer(capacity);
      tw := new TimingWheel(TICK, 3600);
      dlq := new DL.DeadLetterQueue(50000);
      groups, messages, members, objects := map[], map[], {}, {};
      closed, published, consumed, acked, nacked, deadLettered := false, 0, 0, 0, 0, 0;
      new;
      run := Run([Start(ring.capacity, 3600, 50000, now)], []);
      StartGoesOn(ring.capacity, 3600, 50000, now);
      NothingFiled();
    }

    // ---- operations on the parts ----

    method Push(id: Id, front: bool) returns (ok: bool)
      requires Parts()
      modifies ring, ring.nodes
      ensures Parts() && (ring.nodes == old(ring.nodes) || fresh(ring.nodes))
      ensures ok == !old(InMemory()).ring.closed && InMemory() == Pushed(old(InMemory()), id, front)
    {
      hide RingBuffer.Valid, RingBuffer.View, TimingWheel.Valid, DL.DeadLetterQueue.Valid, DL.DeadLetterQueue.View;
      hide Deque.Push, Deque.PushFront, Filed, PelsOf, StoreOf;
      if front {
        ok := ring.PushFront(id);
      } else {
        ok := ring.Push(id);
      }
    }

    lemma PartsFit()
      requires Parts()
      ensures Sane(InMemory())
    {
      hide Linked, RingBuffer.Valid, RingBuffer.View, DL.DeadLetterQueue.View, Filed;
    }

    /** `TimingWheel.Add` with its callback. */
    method Schedule(id: Id, delay: int)
      requires Parts()
      modifies ring, ring.nodes, tw, tw.buckets, tw.entries
      ensures Parts() && (ring.nodes == old(ring.nodes) || fresh(ring.nodes)) && fresh(tw.entries - old(tw.entries))
      ensures Sane(old(InMemory())) && InMemory() == Scheduled(old(InMemory()), id, delay)
    {
      hide RingBuffer.Valid, RingBuffer.View, TimingWheel.Valid, DL.DeadLetterQueue.Valid, DL.DeadLetterQueue.View;
      hide Wheel.Add, Pushed, Ticks, Wheel.Valid, Filed, PelsOf, StoreOf;
      PartsFit();
      var fireNow := tw.Add(id, delay);
      if fireNow {
        var _ := Push(id, false);
      }
    }

    method AddMessage(id: Id, maxRetries: int)
      requires Parts() && id !in messages
      modifies this`messages, this`objects
      ensures Parts() && fresh(objects - old(objects))
      ensures InMemory() == old(InMemory()).(store := old(InMemory()).store[id := Info(0, maxRetries)])
    {
      hide Structures, Known, AllShared, StoreOf, PelsOf, RingBuffer.View, DL.DeadLetterQueue.View;
      messages, objects := FileMessage(groups, members, messages, objects, id, maxRetries);
      assert PelsOf(groups, members) == old(PelsOf(groups, members));
    }

    method AddGroup(g: string)
      requires Parts() && g !in groups
      modifies this`groups, this`members
      ensures Parts() && fresh(members - old(members))
      ensures InMemory() == old(InMemory()).(groups := old(InMemory()).groups[g := map[]])
    {
      hide Structures, Known, AllShared, PelsOf, StoreOf, RingBuffer.View, DL.DeadLetterQueue.View;
      groups, members := FileGroup(groups, members, messages, g);
      assert StoreOf(messages, objects) == old(StoreOf(messages, objects));
    }

    method CheckOut(g: string, id: Id, consumer: string, now: int)
      requires Parts() && g in groups && id in messages
      modifies members, objects
      ensures Parts()
      ensures var pels := old(InMemory()).groups;
              && g in pels
              && InMemory() == old(InMemory()).(
                   groups := pels[g := pels[g][id := G.Lease(consumer, now, now + G.VISIBILITY)]])
    {
      hide Structures, Known, AllShared, RingBuffer.View, DL.DeadLetterQueue.View;
      CheckOutAmong(groups, members, messages, objects, g, id, consumer, now);
    }

    method Settle(g: string, id: Id) returns (ok: bool)
      requires Parts() && g in groups
      modifies members
      ensures Parts()
      ensures var m := old(InMemory());
              && g in m.groups && ok == Pending(m, g, id) && InMemory() == if ok then Without(m, g, id) else m
    {
      hide Structures, Known, AllShared, StoreOf, RingBuffer.View, DL.DeadLetterQueue.View;
      WithoutNothing(InMemory(), g, id);
      ok := AckAmong(groups, members, messages, g, id);
    }

    method Reject(g: string, id: Id, reason: string) returns (r: Option<G.Route>)
      requires Parts() && g in groups
      modifies members, objects
      ensures Parts()
      ensures var m := old(InMemory());
              && g in m.groups
              && if Pending(m, g, id) then
                   && id in m.store && r == Some(RouteAfter(m.store[id], true))
                   && InMemory() == Rejected(m, g, id)
                 else r == None && InMemory() == m
    {
      hide Structures, Known, AllShared, StoreOf, RingBuffer.View, DL.DeadLetterQueue.View, RouteAfter;
      WithoutNothing(InMemory(), g, id);
      r := NackAmong(groups, members, messages, objects, g, id, reason);
    }

    method Expel(g: string, now: int) returns (routes: seq<G.Route>, ids: seq<Id>)
      requires Parts() && g in groups
      modifies members, objects
      ensures Parts()
      ensures var m := old(InMemory());
              && g in m.groups && Lists(ids, G.Overdue(m.groups[g], now)) && |routes| == |ids|
              && (forall i :: 0 <= i < |ids| ==> ids[i] in m.store && routes[i] == RouteAfter(m.store[ids[i]], false))
              && InMemory() == m.(groups := m.groups[g := m.groups[g] - G.Overdue(m.groups[g], now)],
                                  store := AllFailed(m.store, ids))
    {
      hide Structures, Known, AllShared, StoreOf, RingBuffer.View, DL.DeadLetterQueue.View, RouteAfter;
      hide G.Overdue, Lists, AllFailed;
      routes, ids := SweepAmong(groups, members, messages, objects, g, now);
    }

    /** The callbacks of the groups. */
    method Deliver(id: Id, route: G.Route)
      requires Parts() && id in messages
      modifies ring, ring.nodes, tw, tw.buckets, tw.entries, dlq
      ensures Parts() && (ring.nodes == old(ring.nodes) || fresh(ring.nodes)) && fresh(tw.entries - old(tw.entries))
      ensures var m := old(InMemory());
              Sane(m) && id in m.store && InMemory() == Delivered(m, id, route)
    {
      hide RingBuffer.Valid, RingBuffer.View, TimingWheel.Valid, DL.DeadLetterQueue.Valid, DL.DeadLetterQueue.View;
      hide DL.Put, Scheduled, Wheel.Valid, PelsOf;
      PartsFit();
      match route
      case ToDeadLetters => dlq.Add(id, messages[id].retryCount);
      case ToWheel(delay) => Schedule(id, delay);
    }

    method Pop() returns (r: Option<Id>)
      requires Parts()
      modifies ring, ring.nodes
      ensures Parts() && ring.nodes == old(ring.nodes)
      ensures var m := old(InMemory());
              if m.ring.items == [] then r == None && InMemory() == m
              else r == Some(m.ring.items[0]) && InMemory() == m.(ring := m.ring.Drop(1))
    {
      hide RingBuffer.Valid, RingBuffer.View, TimingWheel.Valid, DL.DeadLetterQueue.Valid, DL.DeadLetterQueue.View;
      hide Filed, PelsOf, StoreOf;
      r := ring.Pop();
    }

    method AdvanceWheel() returns (due: seq<Id>)
      requires Parts()
      modifies tw, tw.buckets, tw.entries
      ensures Parts() && tw.entries <= old(tw.entries)
      ensures var m := old(InMemory());
              Sane(m) && due == m.wheel.Due() && InMemory() == m.(wheel := m.wheel.Advance())
    {
      hide RingBuffer.Valid, RingBuffer.View, TimingWheel.Valid, DL.DeadLetterQueue.Valid, DL.DeadLetterQueue.View;
      hide Wheel.Valid, Wheel.Due, Wheel.Advance, Filed, PelsOf, StoreOf;
      PartsFit();
      due := tw.Advance();
    }

    method TakeLetter(id: Id) returns (ok: bool)
      requires Parts()
      modifies dlq
      ensures Parts() && ok == DL.Has(old(InMemory()).dlq, id)
      ensures InMemory() == old(InMemory()).(dlq := DL.Drop(old(InMemory()).dlq, id))
    {
      hide RingBuffer.Valid, RingBuffer.View, TimingWheel.Valid, DL.DeadLetterQueue.Valid, DL.DeadLetterQueue.View;
      hide DL.Drop, DL.Has, Filed, PelsOf, StoreOf;
      var r := dlq.Remove(id);
      ok := r.Some?;
    }

    method Reset(id: Id)
      requires Parts() && id in messages
      modifies objects
      ensures Parts()
      ensures var m := old(InMemory());
              id in m.store && InMemory() == m.(store := m.store[id := m.store[id].(retry := 0)])
    {
      hide RingBuffer.Valid, RingBuffer.View, TimingWheel.Valid, DL.DeadLetterQueue.Valid, DL.DeadLetterQueue.View;
      hide Structures, PelsOf, AllShared;
      StartOver(messages, objects, id);
    }

    // ---- the calls ----

    method Submit(id: Id, maxRetries: int, front: bool) returns (ok: bool)
      requires Parts() && id !in messages
      modifies this`messages, this`objects, this`published, ring, ring.nodes
      ensures Parts() && (ring.nodes == old(ring.nodes) || fresh(ring.nodes)) && fresh(objects - old(objects))
      ensures ok == (!old(InMemory()).closed && !old(InMemory()).ring.closed)
      ensures InMemory() == PublishedTo(old(InMemory()), id, maxRetries, front)
    {
      hide Structures, Filed, PelsOf, StoreOf, RingBuffer.View, DL.DeadLetterQueue.View, Pushed;
      AddMessage(id, maxRetries);
      if closed {
        return false;
      }
      PushToClosed(InMemory(), id, front);
      ok := Push(id, front);
      if ok {
        published := published + 1;
      }
    }

    method Publish(id: Id, maxRetries: int, front: bool, ghost c: nat) returns (ok: bool)
      requires Valid() && id !in InMemory().store && c !in Last(run).calls
      modifies Footprint()
      ensures Valid() && fresh(Footprint() - old(Footprint()))
      ensures ok == (!old(InMemory()).closed && !old(InMemory()).ring.closed)
      ensures InMemory() == PublishedTo(old(InMemory()), id, maxRetries, front)
      ensures Continued(old(run), run, PublishSteps(old(InMemory()), c, id, maxRetries, front), old(Last(run)).now)
    {
      hide Parts, InMemory, Laws, Sound, IsRun, PublishSteps, PublishedTo;
      MessageIsKnown(id);
      ghost var run' := PublishRun(run, c, id, maxRetries, front);
      ok := Submit(id, maxRetries, front);
      run := run';
    }

    method PublishDelayed(id: Id, maxRetries: int, delay: int, ghost c: nat)
      requires Valid() && id !in InMemory().store && c !in Last(run).calls
      modifies Footprint()
      ensures Valid() && fresh(Footprint() - old(Footprint()))
      ensures Sane(old(InMemory())) && InMemory() == DelayedTo(old(InMemory()), id, maxRetries, delay)
      ensures Continued(old(run), run, [BeginDelayed(c, id, maxRetries, delay), AddDelayed(c)], old(Last(run)).now)
    {
      hide Parts, InMemory, Laws, Sound, IsRun, DelayedTo, Wheel.Valid;
      MessageIsKnown(id);
      PartsFit();
      ghost var run' := DelayedRun(run, c, id, maxRetries, delay);
      SubmitDelayed(id, maxRetries, delay);
      run := run';
    }

    method SubmitDelayed(id: Id, maxRetries: int, delay: int)
      requires Parts() && id !in messages
      modifies this`messages, this`objects, this`published, ring, ring.nodes, tw, tw.buckets, tw.entries
      ensures Parts() && (ring.nodes == old(ring.nodes) || fresh(ring.nodes))
      ensures fresh(tw.entries - old(tw.entries)) && fresh(objects - old(objects))
      ensures Sane(old(InMemory())) && InMemory() == DelayedTo(old(InMemory()), id, maxRetries, delay)
    {
      hide Structures, Filed, PelsOf, StoreOf, RingBuffer.View, DL.DeadLetterQueue.View, Scheduled;
      PartsFit();
      AddMessage(id, maxRetries);
      published := published + 1;
      Schedule(id, delay);
    }

    method Consume(ghost c: nat) returns (r: Option<Id>)
      requires Valid() && c !in Last(run).calls
      modifies Footprint()
      ensures Valid() && fresh(Footprint() - old(Footprint()))
      ensures var m := old(InMemory());
              && r == (if m.ring.items == [] then None else Some(m.ring.items[0]))
              && InMemory() == ConsumedFrom(m)
              && Continued(old(run), run, if r == None then [] else [Step.Pop(c), CountConsumed(c)], old(Last(run)).now)
    {
      hide Structures, Filed, PelsOf, StoreOf, RingBuffer.View, DL.DeadLetterQueue.View;
      hide Laws, Sound, IsRun;
      ghost var run' := ConsumeRun(run, c);
      r := Pop();
      if r.Some? {
        consumed := consumed + 1;
      }
      run := run';
    }

    method GetOrCreateGroup(g: string)
      requires Valid()
      modifies Footprint()
      ensures Valid() && fresh(Footprint() - old(Footprint()))
      ensures InMemory() == JoinedBy(old(InMemory()), g)
      ensures Continued(old(run), run, if g in old(InMemory()).groups then [] else [CreateGroup(g)], old(Last(run)).now)
    {
      hide Structures, Filed, PelsOf, StoreOf, RingBuffer.View, DL.DeadLetterQueue.View;
      hide Laws, Sound, IsRun;
      GroupIsKnown(g);
      ghost var run' := JoinRun(run, g);
      if g !in groups {
        AddGroup(g);
      }
      run := run';
    }

    method TakeFor(g: string, consumer: string, now: int) returns (r: Option<Id>)
      requires Parts() && g in groups
      requires InMemory().ring.items != [] ==> InMemory().ring.items[0] in messages
      modifies this`consumed, ring, ring.nodes, members, objects
      ensures Parts() && ring.nodes == old(ring.nodes)
      ensures var m := old(InMemory());
              && g in m.groups && r == (if m.ring.items == [] then None else Some(m.ring.items[0]))
              && InMemory() == LeasedTo(m, g, consumer, now)
    {
      hide Structures, Filed, PelsOf, StoreOf, RingBuffer.View, DL.DeadLetterQueue.View;
      GroupIsKnown(g);
      r := Pop();
      if r.Some? {
        CheckOut(g, r.value, consumer, now);
        consumed := consumed + 1;
      }
    }

    method LeaseFirst(g: string, consumer: string, now: int, ghost c: nat) returns (r: Option<Id>)
      requires Valid() && g in InMemory().groups && c !in Last(run).calls && now >= Last(run).now
      modifies Footprint()
      ensures Valid() && Footprint() == old(Footprint())
      ensures var m := old(InMemory());
              && r == (if m.ring.items == [] then None else Some(m.ring.items[0]))
              && InMemory() == LeasedTo(m, g, consumer, now)
              && Continued(old(run), run, LeaseSteps(m, c, g, consumer, now),
                           if r == None then old(Last(run)).now else now)
    {
      hide Parts, InMemory, Laws, Sound, IsRun, LeasedTo, LeaseSteps;
      GroupIsKnown(g);
      T.RingIsKnown(Last(run));
      if InMemory().ring.items != [] {
        MessageIsKnown(InMemory().ring.items[0]);
      }
      ghost var run' := LeaseRun(run, c, g, consumer, now);
      r := TakeFor(g, consumer, now);
      run := run';
    }

    /** ConsumeGroup, with a wait that is over: it takes the first message or finds none. */
    method ConsumeGroup(g: string, consumer: string, now: int, ghost c: nat) returns (r: Option<Id>)
      requires Valid() && c !in Last(run).calls && now >= Last(run).now
      modifies Footprint()
      ensures Valid() && fresh(Footprint() - old(Footprint()))
      ensures var m := JoinedBy(old(InMemory()), g);
              && r == (if m.ring.items == [] then None else Some(m.ring.items[0]))
              && InMemory() == LeasedTo(m, g, consumer, now)
              && Continued(old(run), run,
                           (if g in old(InMemory()).groups then [] else [CreateGroup(g)]) +
                           LeaseSteps(m, c, g, consumer, now),
                           if r == None then old(Last(run)).now else now)
    {
      hide Parts, InMemory, Ongoing, MemoryOf, LeasedTo, LeaseSteps, Footprint;
      GetOrCreateGroup(g);
      r := LeaseFirst(g, consumer, now, c);
    }

    method Confirm(g: string, id: Id) returns (ok: bool)
      requires Parts()
      modifies this`acked, members
      ensures Parts()
      ensures var m := old(InMemory());
              ok == Pending(m, g, id) && InMemory() == AckedBy(m, g, id)
    {
      hide Structures, Filed, PelsOf, StoreOf, RingBuffer.View, DL.DeadLetterQueue.View;
      GroupIsKnown(g);
      if g !in groups {
        return false;
      }
      ok := Settle(g, id);
      if ok {
        acked := acked + 1;
      }
    }

    method Ack(g: string, id: Id, ghost c: nat) returns (ok: bool)
      requires Valid() && c !in Last(run).calls
      modifies Footprint()
      ensures Valid() && Footprint() == old(Footprint())
      ensures var m := old(InMemory());
              && ok == Pending(m, g, id)
              && InMemory() == AckedBy(m, g, id)
              && Continued(old(run), run, if ok then [Step.Ack(c, g, id), CountAcked(c)] else [], old(Last(run)).now)
    {
      hide Parts, InMemory, Laws, Sound, IsRun, AckedBy;
      ghost var run' := AckRun(run, c, g, id);
      ok := Confirm(g, id);
      run := run';
    }

    /** A failed message goes where the group sends it. */
    method Resolve(id: Id, route: G.Route)
      requires Parts() && id in messages
      modifies this`deadLettered, ring, ring.nodes, tw, tw.buckets, tw.entries, dlq
      ensures Parts() && (ring.nodes == old(ring.nodes) || fresh(ring.nodes)) && fresh(tw.entries - old(tw.entries))
      ensures var m := old(InMemory());
              && Sane(m) && id in m.store
              && InMemory() == Delivered(m, id, route).(
                                 deadLettered := m.deadLettered + if route.ToDeadLetters? then 1 else 0)
    {
      hide Structures, Filed, PelsOf, StoreOf, RingBuffer.View, DL.DeadLetterQueue.View, Delivered, Wheel.Valid;
      DeliveredCounts(InMemory(), id, route) by {
        PartsFit();
        MessageIsKnown(id);
      }
      Deliver(id, route);
      if route.ToDeadLetters? {
        deadLettered := deadLettered + 1;
      }
    }

    method ResolveNack(id: Id, route: G.Route)
      requires Parts() && id in messages
      modifies this`nacked, this`deadLettered, ring, ring.nodes, tw, tw.buckets, tw.entries, dlq
      ensures Parts() && (ring.nodes == old(ring.nodes) || fresh(ring.nodes)) && fresh(tw.entries - old(tw.entries))
      ensures var m := old(InMemory());
              && Sane(m) && id in m.store
              && InMemory() == Bounced(m, id, route)
    {
      hide Structures, Filed, PelsOf, StoreOf, RingBuffer.View, DL.DeadLetterQueue.View, Delivered, Wheel.Valid;
      ghost var m := InMemory();
      Resolve(id, route);
      assert InMemory().nacked == m.nacked;
      nacked := nacked + 1;
    }

    method Refuse(g: string, id: Id, reason: string) returns (ok: bool)
      requires Parts()
      modifies this`nacked, this`deadLettered, members, objects, ring, ring.nodes, tw, tw.buckets, tw.entries, dlq
      ensures Parts() && (ring.nodes == old(ring.nodes) || fresh(ring.nodes)) && fresh(tw.entries - old(tw.entries))
      ensures var m := old(InMemory());
              && Sane(m) && (Pending(m, g, id) ==> id in m.store)
              && ok == Pending(m, g, id) && InMemory() == NackedBy(m, g, id)
    {
      hide Parts, InMemory;
      hide RouteAfter, Wheel.Valid, NackedBy, Rejected, Bounced;
      GroupIsKnown(g);
      PartsFit();
      NackedIs(InMemory(), g, id);
      if g !in groups {
        return false;
      }
      var r := Reject(g, id, reason);
      if r == None {
        return false;
      }
      MessageIsKnown(id);
      ResolveNack(id, r.value);
      return true;
    }

    method Nack(g: string, id: Id, reason: string, ghost c: nat) returns (ok: bool)
      requires Valid() && c !in Last(run).calls
      modifies Footprint()
      ensures Valid() && fresh(Footprint() - old(Footprint()))
      ensures var m := old(InMemory());
              && Sane(m) && (Pending(m, g, id) ==> id in m.store)
              && ok == Pending(m, g, id) && InMemory() == NackedBy(m, g, id)
              && Continued(old(run), run, NackSteps(m, c, g, id), old(Last(run)).now)
    {
      hide Parts, InMemory, Laws, Sound, IsRun, NackedBy, NackSteps, Wheel.Valid, Pending;
      ghost var run' := NackRun(run, c, g, id);
      ok := Refuse(g, id, reason);
      run := run';
    }

    // ---- the sweep ----

    /** The callbacks for the messages a sweep took, in turn; `cur` is where the state machine, which
        counts the failures one by one, has got to. */
    method ResolveAll(ids: seq<Id>, routes: seq<G.Route>, ghost start: Memory)
      requires Parts() && Sane(start) && InStore(start, ids) && Distinct(ids) && |routes| == |ids|
      requires forall i :: 0 <= i < |ids| ==> routes[i] == RouteAfter(start.store[ids[i]], false)
      requires InMemory() == start.(store := AllFailed(start.store, ids))
      modifies this`deadLettered, ring, ring.nodes, tw, tw.buckets, tw.entries, dlq
      ensures Parts() && (ring.nodes == old(ring.nodes) || fresh(ring.nodes)) && fresh(tw.entries - old(tw.entries))
      ensures InMemory() == ResolvedAll(start, ids)
    {
      hide Parts;
      hide Delivered, RouteAfter, Wheel.Valid, Resolved, AllFailed, InMemory;
      ghost var cur, all := start, AllFailed(start.store, ids);
      BeginSweep(start, ids);
      for i := 0 to |ids|
        invariant Parts() && (ring.nodes == old(ring.nodes) || fresh(ring.nodes)) && fresh(tw.entries - old(tw.entries))
        invariant Sweeping(start, cur, ids, i) && InMemory() == cur.(store := all)
      {
        SweepOn(start, cur, ids, i);
        MessageIsKnown(ids[i]);
        Resolve(ids[i], routes[i]);
        cur := Resolved(cur, ids[i], false);
      }
      EndSweep(start, cur, ids);
    }

    method SweepParts(g: string, now: int) returns (ids: seq<Id>)
      requires Parts() && g in groups
      modifies this`deadLettered, members, objects, ring, ring.nodes, tw, tw.buckets, tw.entries, dlq
      ensures Parts() && (ring.nodes == old(ring.nodes) || fresh(ring.nodes)) && fresh(tw.entries - old(tw.entries))
      ensures var m := old(InMemory());
              && Sane(m) && g in m.groups && Lists(ids, G.Overdue(m.groups[g], now)) && InStore(m, ids)
              && InMemory() == SweptBy(m, g, ids, now)
    {
      hide Parts;
      hide RouteAfter, Wheel.Valid, AllFailed, G.Overdue, ResolvedAll, InMemory;
      PartsFit();
      ghost var m := InMemory();
      var routes;
      routes, ids := Expel(g, now);
      ghost var start := m.(groups := m.groups[g := m.groups[g] - G.Overdue(m.groups[g], now)]);
      ResolveAll(ids, routes, start);
    }

    /** SweepTimeouts of one group. */
    method SweepGroup(g: string, now: int, ghost c: nat) returns (ids: seq<Id>)
      requires Valid() && g in InMemory().groups && c !in Last(run).calls && now >= Last(run).now
      modifies Footprint()
      ensures Valid() && (ring.nodes == old(ring.nodes) || fresh(ring.nodes)) && fresh(tw.entries - old(tw.entries))
      ensures members == old(members) && objects == old(objects)
      ensures var m := old(InMemory());
              && Sane(m) && Lists(ids, G.Overdue(m.groups[g], now)) && InStore(m, ids)
              && InMemory() == SweptBy(m, g, ids, now)
              && Continued(old(run), run, SweepSteps(m.store, c, g, ids, now), now)
    {
      hide Parts, InMemory, Laws, Sound, IsRun, SweptBy, SweepSteps, Wheel.Valid, G.Overdue, Lists;
      GroupIsKnown(g);
      ids := SweepParts(g, now);
      ListsAre(ids, G.Overdue(old(InMemory()).groups[g], now));
      run := SweepRun(run, c, g, ids, now);
    }

    /** How far the sweep of all groups has got. */
    ghost predicate Swept(start: Memory, from: Run, visits: seq<Visit>, times: seq<int>, todo: set<string>, c: nat)
      reads this, members, objects, ring, ring.nodes, tw, tw.buckets, tw.entries, dlq
    {
      && Valid() && |from.trace| == |from.steps| + 1 && Ticking(Last(from).now, times) && c !in Last(from).calls
      && |visits| <= |times| && CanVisit(start, visits) && Visiting(start, visits, times, todo)
      && InMemory() == SweptAll(start, visits)
      && Continued(from, run, AllSweepSteps(start, c, visits), At(Last(from).now, times, |visits|))
    }

    method SweepNext(g: string, now: int, ghost start: Memory, ghost from: Run, ghost visits: seq<Visit>,
                     ghost times: seq<int>, ghost todo: set<string>, ghost c: nat)
      returns (ids: seq<Id>)
      requires Swept(start, from, visits, times, todo, c)
      requires g in todo && |visits| < |times| && now == times[|visits|]
      modifies Footprint()
      ensures (ring.nodes == old(ring.nodes) || fresh(ring.nodes)) && fresh(tw.entries - old(tw.entries))
      ensures members == old(members) && objects == old(objects)
      ensures Swept(start, from, visits + [Visit(g, ids, now)], times, todo - {g}, c)
      ensures FoundIn(visits + [Visit(g, ids, now)]) == FoundIn(visits) + |ids|
    {
      hide InMemory, Parts, Laws, Sound, IsRun, MemoryOf, G.Overdue, SweptAll, AllSweepSteps, SweepSteps, SweptBy;
      hide Visiting, CanVisit, Wheel.Valid, Continued, Footprint;
      ghost var run1, before := run, At(Last(from).now, times, |visits|);
      ToVisit(start, visits, times, todo, g);
      SoFar(from, run, AllSweepSteps(start, c, visits), before);
      ids := SweepGroup(g, now, c);
      NextVisit(start, visits, times, todo, Visit(g, ids, now), c);
      GoesOn(from, run1, run, AllSweepSteps(start, c, visits),
             SweepSteps(SweptAll(start, visits).store, c, g, ids, now), before, now);
    }

    /** Sweeps every group in turn, each at the time the clock shows then. */
    method SweepConsumerTimeouts(times: seq<int>, ghost c: nat) returns (total: nat, ghost visits: seq<Visit>)
      requires Valid() && c !in Last(run).calls && |times| == |InMemory().groups| && Ticking(Last(run).now, times)
      modifies Footprint()
      ensures Valid() && fresh(Footprint() - old(Footprint()))
      ensures |visits| == |times| && total == FoundIn(visits)
      ensures var m := old(InMemory());
              && Visits(m, visits, times) && InMemory() == SweptAll(m, visits)
              && Continued(old(run), run, AllSweepSteps(m, c, visits), At(old(Last(run)).now, times, |times|))
    {
      hide InMemory, Parts, Laws, Sound, IsRun, MemoryOf, Wheel.Valid, Swept, FoundIn;
      hide Visits, Continued, SweptAll, AllSweepSteps, Ticking;
      ghost var start := InMemory();
      total, visits := 0, [];
      var todo := groups.Keys;
      var k := 0;
      BeginSwept(times, c);
      while todo != {}
        invariant Swept(start, old(run), visits, times, todo, c)
        invariant (ring.nodes == old(ring.nodes) || fresh(ring.nodes)) && fresh(tw.entries - old(tw.entries))
        invariant members == old(members) && objects == old(objects)
        invariant |visits| == k && |todo| + k == |times| && total == FoundIn(visits)
        decreases todo
      {
        var g :| g in todo;
        ghost var before := tw.entries;
        var ids := SweepNext(g, times[k], start, old(run), visits, times, todo, c);
        assert tw.entries - old(tw.entries) <= (tw.entries - before) + (before - old(tw.entries));
        total := total + |ids|;
        visits := visits + [Visit(g, ids, times[k])];
        todo := todo - {g};
        k := k + 1;
      }
      EndSwept(start, old(run), visits, times, c);
    }

    lemma BeginSwept(times: seq<int>, c: nat)
      requires Valid() && c !in Last(run).calls && |times| == |InMemory().groups| && Ticking(Last(run).now, times)
      ensures Swept(InMemory(), run, [], times, groups.Keys, c) && |groups.Keys| == |times| && FoundIn([]) == 0
    {
      hide InMemory, Parts, Laws, Sound, IsRun, MemoryOf, Wheel.Valid, Continued, SweptAll, AllSweepSteps, Visiting;
      PartsFit();
      GroupKeys();
      BeginVisits(InMemory(), times, c);
      StandsStill(run);
    }

    lemma EndSwept(start: Memory, from: Run, visits: seq<Visit>, times: seq<int>, c: nat)
      requires Swept(start, from, visits, times, {}, c)
      ensures Valid() && |visits| <= |times| && Visits(start, visits, times) && InMemory() == SweptAll(start, visits)
      ensures |from.trace| == |from.steps| + 1
      ensures Continued(from, run, AllSweepSteps(start, c, visits), At(Last(from).now, times, |visits|))
    {
      hide InMemory, Parts, Laws, Sound, IsRun, MemoryOf, Wheel.Valid, Continued, SweptAll, AllSweepSteps, Visiting;
    }

    lemma GroupKeys()
      requires Parts()
      ensures InMemory().groups.Keys == groups.Keys && |InMemory().groups| == |groups.Keys|
    {
      hide Structures, RingBuffer.View, DL.DeadLetterQueue.View;
      assert |InMemory().groups| == |InMemory().groups.Keys|;
    }

    // ---- the wheel, the dead letters, closing ----

    method TickParts() returns (due: seq<Id>)
      requires Parts()
      modifies ring, ring.nodes, tw, tw.buckets, tw.entries
      ensures Parts() && (ring.nodes == old(ring.nodes) || fresh(ring.nodes)) && tw.entries <= old(tw.entries)
      ensures var m := old(InMemory());
              Sane(m) && due == m.wheel.Due() && InMemory() == TickedOn(m)
    {
      hide Parts, InMemory, Wheel.Valid, Wheel.Due, Wheel.Advance, Deque.Push;
      ghost var m := InMemory();
      due := AdvanceWheel();
      assert due[0..] == due;
      for i := 0 to |due|
        invariant Parts() && (ring.nodes == old(ring.nodes) || fresh(ring.nodes)) && tw.entries <= old(tw.entries)
        invariant InMemory() == m.(wheel := m.wheel.Advance(), ring := InMemory().ring)
        invariant PushAll(InMemory().ring, due[i..]) == PushAll(m.ring, due)
      {
        assert due[i..][0] == due[i] && due[i..][1..] == due[i + 1..];
        var _ := Push(due[i], false);
      }
      assert due[|due|..] == [];
    }

    /** One tick: every message that is due goes to the ring, in the order the wheel found them. */
    method Tick(ghost c: nat) returns (due: seq<Id>)
      requires Valid() && c !in Last(run).calls
      modifies Footprint()
      ensures Valid() && fresh(Footprint() - old(Footprint()))
      ensures var m := old(InMemory());
              && Sane(m) && due == m.wheel.Due() && InMemory() == TickedOn(m)
              && Continued(old(run), run, TickSteps(m, c), old(Last(run)).now)
    {
      hide Parts, InMemory, Laws, Sound, IsRun, Wheel.Valid, Wheel.Due, TickedOn, TickSteps;
      PartsFit();
      ghost var run' := TickRun(run, c);
      due := TickParts();
      run := run';
    }

    method PushBack(id: Id) returns (ok: bool)
      requires Parts() && (DL.Has(InMemory().dlq, id) ==> id in messages)
      modifies objects, ring, ring.nodes, dlq
      ensures Parts() && (ring.nodes == old(ring.nodes) || fresh(ring.nodes))
      ensures var m := old(InMemory());
              && (DL.Has(m.dlq, id) ==> id in m.store)
              && ok == DL.Has(m.dlq, id) && InMemory() == ReplayedTo(m, id)
    {
      hide Parts, InMemory, DL.Has, DL.Drop, Pushed;
      MessageIsKnown(id);
      DropOfNone(InMemory().dlq, id);
      ok := TakeLetter(id);
      if ok {
        Reset(id);
        var _ := Push(id, false);
      }
    }

    method ReplayDeadLetter(id: Id, ghost c: nat) returns (ok: bool)
      requires Valid() && c !in Last(run).calls
      modifies Footprint()
      ensures Valid() && fresh(Footprint() - old(Footprint()))
      ensures var m := old(InMemory());
              && (DL.Has(m.dlq, id) ==> id in m.store)
              && ok == DL.Has(m.dlq, id) && InMemory() == ReplayedTo(m, id)
              && Continued(old(run), run, if ok then [Replay(c, id), PushReplayed(c)] else [], old(Last(run)).now)
    {
      hide Parts, InMemory, Laws, Sound, IsRun, DL.Has, ReplayedTo;
      ghost var run' := ReplayRun(run, c, id);
      MessageIsKnown(id);
      ok := PushBack(id);
      run := run';
    }

    method PurgeParts() returns (count: nat)
      requires Parts()
      modifies dlq
      ensures Parts() && count == |old(InMemory()).dlq| && InMemory() == old(InMemory()).(dlq := [])
    {
      hide RingBuffer.Valid, RingBuffer.View, TimingWheel.Valid, DL.DeadLetterQueue.Valid, DL.DeadLetterQueue.View;
      hide Filed, PelsOf, StoreOf;
      count := dlq.Purge();
    }

    method Purge() returns (count: nat)
      requires Valid()
      modifies Footprint()
      ensures Valid() && Footprint() == old(Footprint())
      ensures count == |old(InMemory()).dlq| && InMemory() == old(InMemory()).(dlq := [])
      ensures Continued(old(run), run, [Step.Purge], old(Last(run)).now)
    {
      hide Parts, InMemory, Laws, Sound, IsRun;
      ghost var run' := PurgeRun(run);
      count := PurgeParts();
      run := run';
    }

    method CloseParts()
      requires Parts()
      modifies this`closed, ring, tw
      ensures Parts() && ring.nodes == old(ring.nodes) && tw.entries == old(tw.entries)
      ensures InMemory() == ClosedDown(old(InMemory()))
    {
      hide RingBuffer.Valid, RingBuffer.View, TimingWheel.Valid, DL.DeadLetterQueue.Valid, DL.DeadLetterQueue.View;
      hide Filed, PelsOf, StoreOf;
      if !closed {
        closed := true;
        ring.Close();
        tw.Stop();
      }
    }

    method Close(ghost c: nat)
      requires Valid() && c !in Last(run).calls
      modifies Footprint()
      ensures Valid() && Footprint() == old(Footprint())
      ensures InMemory() == ClosedDown(old(InMemory()))
      ensures Continued(old(run), run,
                        if old(InMemory()).closed then [] else [BeginClose(c), CloseRing(c), StopWheel(c)],
                        old(Last(run)).now)
    {
      hide Parts, InMemory, Laws, Sound, IsRun, ClosedDown;
      ghost var run' := CloseRun(run, c);
      CloseParts();
      run := run';
    }

    lemma GroupIsKnown(g: string)
      requires Parts()
      ensures g in InMemory().groups <==> g in groups
    {
      hide Structures, RingBuffer.View, DL.DeadLetterQueue.View;
    }

    lemma MessageIsKnown(id: Id)
      requires Parts()
      ensures id in InMemory().store <==> id in messages
    {
      hide Structures, RingBuffer.View, DL.DeadLetterQueue.View;
    }
  }

  function Without(m: Memory, g: string, id: Id): Memory
    requires g in m.groups
  {
    m.(groups := m.groups[g := m.groups[g] - {id}])
  }

  lemma WithoutNothing(m: Memory, g: string, id: Id)
    ensures g in m.groups && !Pending(m, g, id) ==> Without(m, g, id) == m
  {
    if g in m.groups && !Pending(m, g, id) {
      assert m.groups[g] - {id} == m.groups[g];
      assert m.groups[g := m.groups[g]] == m.groups;
    }
  }

  /** Off the pending list, with one more failure. */
  function Rejected(m: Memory, g: string, id: Id): Memory
    requires Pending(m, g, id) && id in m.store
  {
    Without(m, g, id).(store := m.store[id := Failed(m.store[id])])
  }

  /** Where the group sends it, with the counts. */
  function Bounced(m: Memory, id: Id, route: G.Route): Memory
    requires Sane(m) && id in m.store
  {
    Delivered(m, id, route).(deadLettered := m.deadLettered + (if route.ToDeadLetters? then 1 else 0),
                             nacked := m.nacked + 1)
  }

  lemma NackedIs(m: Memory, g: string, id: Id)
    requires Sane(m)
    ensures !Pending(m, g, id) ==> NackedBy(m, g, id) == m
    ensures Pending(m, g, id) && id in m.store ==>
              && Sane(Rejected(m, g, id)) && id in Rejected(m, g, id).store
              && NackedBy(m, g, id) == Bounced(Rejected(m, g, id), id, RouteAfter(m.store[id], true))
  {
    hide Delivered, RouteAfter;
  }

  lemma DeliveredCounts(m: Memory, id: Id, route: G.Route)
    requires Sane(m) && id in m.store
    ensures Delivered(m, id, route).deadLettered == m.deadLettered
  {
    hide DL.Put;
  }

  lemma StandsStill(r: Run)
    requires |r.trace| == |r.steps| + 1
    ensures Continued(r, r, [], Last(r).now)
  {
  }

  lemma SoFar(r: Run, r': Run, steps: seq<Step>, now: int)
    requires Continued(r, r', steps, now)
    ensures Last(r').calls == Last(r).calls && Last(r').now == now
  {
  }

  lemma GoesOn(r: Run, r1: Run, r2: Run, a: seq<Step>, b: seq<Step>, now1: int, now2: int)
    requires Continued(r, r1, a, now1) && Continued(r1, r2, b, now2)
    ensures Continued(r, r2, a + b, now2)
  {
  }

  lemma ListsAre(ids: seq<Id>, all: set<Id>)
    requires Lists(ids, all)
    ensures Distinct(ids) && forall id :: id in ids <==> id in all
  {
  }

  lemma DropOfNone(q: DL.Letters<Id, int>, id: Id)
    ensures !DL.Has(q, id) ==> DL.Drop(q, id) == q
  {
  }

  // ---- failing one by one, and all at once ----

  /** The first i of the messages are dealt with, and the others are as they were. */
  ghost predicate Sweeping(start: Memory, cur: Memory, ids: seq<Id>, i: nat) {
    && i <= |ids| && Distinct(ids) && Sane(start) && InStore(start, ids) && Sane(cur) && InStore(cur, ids[i..])
    && ResolvedAll(cur, ids[i..]) == ResolvedAll(start, ids)
    && cur.store == AllFailed(start.store, ids[..i])
  }

  lemma BeginSweep(start: Memory, ids: seq<Id>)
    requires Sane(start) && InStore(start, ids) && Distinct(ids)
    ensures Sweeping(start, start, ids, 0)
  {
    hide Resolved;
    assert ids[0..] == ids;
    assert AllFailed(start.store, ids[..0]) == start.store;
  }

  lemma SweepOn(start: Memory, cur: Memory, ids: seq<Id>, i: nat)
    requires Sweeping(start, cur, ids, i) && i < |ids|
    ensures var id, all := ids[i], AllFailed(start.store, ids);
            var route := RouteAfter(start.store[id], false);
            && id in cur.store && id in all
            && Sweeping(start, Resolved(cur, id, false), ids, i + 1)
            && Resolved(cur, id, false).(store := all) ==
               Delivered(cur.(store := all), id, route).(
                 deadLettered := cur.deadLettered + if route.ToDeadLetters? then 1 else 0)
  {
    hide Delivered, RouteAfter, Wheel.Valid;
    var id, all := ids[i], AllFailed(start.store, ids);
    OneMoreFailed(start.store, cur.store, ids, i);
    assert ids[i..][1..] == ids[i + 1..];
    assert forall x :: x in ids[i + 1..] ==> x in ids[i..];
    DeliveredStore(cur.(store := cur.store[id := Failed(cur.store[id])]), all, id, RouteAfter(cur.store[id], false));
    DeliveredKeeps(cur.(store := all), id, RouteAfter(cur.store[id], false));
  }

  lemma OneMoreFailed(start: map<Id, Info>, cur: map<Id, Info>, ids: seq<Id>, i: nat)
    requires i < |ids| && Distinct(ids) && cur == AllFailed(start, ids[..i]) && ids[i] in start
    ensures cur[ids[i]] == start[ids[i]] && AllFailed(start, ids)[ids[i]] == Failed(start[ids[i]])
    ensures AllFailed(start, ids[..i + 1]) == cur[ids[i] := Failed(cur[ids[i]])]
  {
    assert ids[i] in ids && ids[i] !in ids[..i];
    assert ids[..i + 1] == ids[..i] + [ids[i]];
  }

  lemma DeliveredKeeps(m: Memory, id: Id, route: G.Route)
    requires Sane(m) && id in m.store
    ensures Delivered(m, id, route).store == m.store && Delivered(m, id, route).deadLettered == m.deadLettered
  {
    hide DL.Put;
  }

  lemma DeliveredStore(m: Memory, all: map<Id, Info>, id: Id, route: G.Route)
    requires Sane(m) && id in m.store && id in all && all[id] == m.store[id]
    ensures Delivered(m.(store := all), id, route) == Delivered(m, id, route).(store := all)
  {
    hide DL.Put, Wheel.Add, Deque.Push, Ticks;
  }

  lemma EndSweep(start: Memory, cur: Memory, ids: seq<Id>)
    requires Sweeping(start, cur, ids, |ids|)
    ensures cur == ResolvedAll(start, ids) && cur.store == AllFailed(start.store, ids)
  {
    hide Resolved;
    assert ids[|ids|..] == [] && ids[..|ids|] == ids;
  }

  // ---- visiting all groups ----

  datatype Visit = Visit(group: string, ids: seq<Id>, now: int)

  predicate Ticking(now: int, times: seq<int>) {
    && (forall i :: 0 <= i < |times| ==> now <= times[i])
    && (forall i, j :: 0 <= i < j < |times| ==> times[i] <= times[j])
  }

  /** The time after k readings. */
  function At(now: int, times: seq<int>, k: nat): int
    requires k <= |times|
  {
    if k == 0 then now else times[k - 1]
  }

  function FoundIn(visits: seq<Visit>): nat {
    if visits == [] then 0 else FoundIn(visits[..|visits| - 1]) + |visits[|visits| - 1].ids|
  }

  /** Every visit is to another group that has not been swept, and finds what is overdue there. */
  ghost predicate Visiting(m: Memory, visits: seq<Visit>, times: seq<int>, todo: set<string>) {
    && Sane(m) && |visits| <= |times| && todo <= m.groups.Keys
    && (forall i, j :: 0 <= i < j < |visits| ==> visits[i].group != visits[j].group)
    && (forall i :: 0 <= i < |visits| ==>
          var v := visits[i];
          && v.now == times[i] && v.group in m.groups && v.group !in todo
          && Lists(v.ids, G.Overdue(m.groups[v.group], v.now)) && InStore(m, v.ids))
    && (forall g :: g in m.groups && g !in todo ==> exists i :: 0 <= i < |visits| && visits[i].group == g)
  }

  /** All groups, each once. */
  ghost predicate Visits(m: Memory, visits: seq<Visit>, times: seq<int>) {
    CanVisit(m, visits) && Visiting(m, visits, times, {})
  }

  ghost predicate CanVisit(m: Memory, visits: seq<Visit>) {
    Sane(m) && forall i :: 0 <= i < |visits| ==> visits[i].group in m.groups && InStore(m, visits[i].ids)
  }

  ghost function SweptAll(m: Memory, visits: seq<Visit>): (m': Memory)
    requires CanVisit(m, visits)
    ensures Sane(m') && m'.store.Keys == m.store.Keys && m'.groups.Keys == m.groups.Keys
  {
    if visits == [] then m
    else
      var v := visits[|visits| - 1];
      SweptBy(SweptAll(m, visits[..|visits| - 1]), v.group, v.ids, v.now)
  }

  ghost function AllSweepSteps(m: Memory, c: nat, visits: seq<Visit>): seq<Step>
    requires CanVisit(m, visits)
  {
    if visits == [] then []
    else
      var before, v := visits[..|visits| - 1], visits[|visits| - 1];
      AllSweepSteps(m, c, before) + SweepSteps(SweptAll(m, before).store, c, v.group, v.ids, v.now)
  }

  lemma BeginVisits(m: Memory, times: seq<int>, c: nat)
    requires Sane(m)
    ensures Visiting(m, [], times, m.groups.Keys) && CanVisit(m, [])
    ensures SweptAll(m, []) == m && AllSweepSteps(m, c, []) == []
  {
  }

  lemma {:induction false} OthersAreUntouched(m: Memory, visits: seq<Visit>, g: string)
    requires CanVisit(m, visits) && g in m.groups && forall i :: 0 <= i < |visits| ==> visits[i].group != g
    ensures SweptAll(m, visits).groups[g] == m.groups[g]
  {
    hide G.Overdue, Wheel.Valid, SweptBy;
    if visits != [] {
      OthersAreUntouched(m, visits[..|visits| - 1], g);
    }
  }

  lemma ToVisit(m: Memory, visits: seq<Visit>, times: seq<int>, todo: set<string>, g: string)
    requires Visiting(m, visits, times, todo) && CanVisit(m, visits) && g in todo
    ensures g in SweptAll(m, visits).groups && SweptAll(m, visits).groups[g] == m.groups[g]
  {
    hide SweptAll, G.Overdue, Wheel.Valid;
    OthersAreUntouched(m, visits, g);
  }

  lemma NextVisit(m: Memory, visits: seq<Visit>, times: seq<int>, todo: set<string>, v: Visit, c: nat)
    requires Visiting(m, visits, times, todo) && CanVisit(m, visits) && v.group in todo
    requires |visits| < |times| && v.now == times[|visits|]
    requires Lists(v.ids, G.Overdue(m.groups[v.group], v.now)) && InStore(SweptAll(m, visits), v.ids)
    ensures Visiting(m, visits + [v], times, todo - {v.group}) && CanVisit(m, visits + [v])
    ensures SweptAll(m, visits + [v]) == SweptBy(SweptAll(m, visits), v.group, v.ids, v.now)
    ensures AllSweepSteps(m, c, visits + [v]) ==
            AllSweepSteps(m, c, visits) + SweepSteps(SweptAll(m, visits).store, c, v.group, v.ids, v.now)
    ensures FoundIn(visits + [v]) == FoundIn(visits) + |v.ids|
  {
    hide G.Overdue, Wheel.Valid, SweptBy, SweepSteps, Lists;
    assert (visits + [v])[..|visits|] == visits;
    VisitsGoOn(m, visits, times, todo, v);
  }

  lemma VisitsGoOn(m: Memory, visits: seq<Visit>, times: seq<int>, todo: set<string>, v: Visit)
    requires Visiting(m, visits, times, todo) && v.group in todo
    requires |visits| < |times| && v.now == times[|visits|]
    requires Lists(v.ids, G.Overdue(m.groups[v.group], v.now)) && InStore(m, v.ids)
    ensures Visiting(m, visits + [v], times, todo - {v.group})
  {
    hide G.Overdue, Wheel.Valid, Lists;
    var visits', todo' := visits + [v], todo - {v.group};
    forall g | g in m.groups && g !in todo'
      ensures exists i :: 0 <= i < |visits'| && visits'[i].group == g
    {
      if g == v.group {
        assert visits'[|visits|].group == g;
      } else {
        var i :| 0 <= i < |visits| && visits[i].group == g;
        assert visits'[i].group == g;
      }
    }
  }

  lemma PushToClosed(m: Memory, id: Id, front: bool)
    ensures m.ring.closed ==> Pushed(m, id, front) == m
  {
  }

  /** The run has gone on by these steps, the same calls are under way, and this is the time. */
  ghost predicate Continued(r: Run, r': Run, steps: seq<Step>, now: int) {
    && |r.trace| == |r.steps| + 1 && |r'.trace| == |r'.steps| + 1
    && r.trace <= r'.trace && r'.steps == r.steps + steps
    && Last(r').calls == Last(r).calls && Last(r').now == now
  }

  /** A sweep of all groups takes from each what was overdue when its turn came, and nothing else. */
  lemma {:induction false} EveryGroupIsSweptOnce(m: Memory, visits: seq<Visit>, k: nat)
    requires CanVisit(m, visits) && k < |visits|
    requires forall i, j :: 0 <= i < j < |visits| ==> visits[i].group != visits[j].group
    ensures var v := visits[k];
            SweptAll(m, visits).groups[v.group] == m.groups[v.group] - G.Overdue(m.groups[v.group], v.now)
    decreases |visits|
  {
    hide G.Overdue, Wheel.Valid, SweptAll;
    var n := |visits| - 1;
    LastVisit(m, visits);
    if k < n {
      EveryGroupIsSweptOnce(m, visits[..n], k);
    } else {
      OthersAreUntouched(m, visits[..n], visits[n].group);
    }
  }

  lemma LastVisit(m: Memory, visits: seq<Visit>)
    requires CanVisit(m, visits) && visits != []
    ensures var n := |visits| - 1;
            var before, v := SweptAll(m, visits[..n]).groups, visits[n];
            SweptAll(m, visits).groups == before[v.group := before[v.group] - G.Overdue(before[v.group], v.now)]
  {
    hide G.Overdue, Wheel.Valid, SweptBy;
  }

  // ---- what the promises say about the fields of the object ----

  /** Between two calls every message the topic was given is in exactly one place. */
  lemma MessageIsInOnePlace(t: Topic, id: Id)
    requires t.Valid() && Last(t.run).calls == map[]
    ensures var m := t.InMemory();
            var ring, wheel, dead, gone := id in m.ring.items, T.Scheduled(m.wheel.buckets, id),
                                           DL.Has(m.dlq, id), id in Last(t.run).fate;
            var pending := exists g :: g in m.groups && id in m.groups[g];
            && (ring || wheel || dead || gone || pending <==> id in t.messages)
            && (ring ==> !wheel && !dead && !gone && !pending)
            && (wheel ==> !dead && !gone && !pending)
            && (dead ==> !gone && !pending)
            && (gone ==> !pending)
            && (forall g, h :: g in m.groups && h in m.groups && id in m.groups[g] && id in m.groups[h] ==> g == h)
  {
    hide IsRun, Laws, Sound, T.Scheduled, DL.Has, Topic.Parts, Topic.InMemory;
    var s := Last(t.run);
    t.MessageIsKnown(id);
    T.EveryMessageInOnePlace(t.run.trace, t.run.steps, |t.run.steps|, id);
    assert id in s.ring.items <==> T.At(s, id, T.InRing);
    assert T.Scheduled(s.wheel.buckets, id) <==> T.At(s, id, T.InWheel);
    assert DL.Has(s.dlq, id) <==> T.At(s, id, T.DeadLetter);
    assert id in s.fate <==> T.At(s, id, T.AtItsEnd);
    assert forall g :: g in s.groups && id in s.groups[g] <==> T.At(s, id, T.PendingIn(g));
  }

  /** Between two calls the counters of the object balance. */
  lemma CountersBalance(t: Topic)
    requires t.Valid() && Last(t.run).calls == map[]
    ensures var m, n := t.InMemory(), A.Tally(Last(t.run).history);
            && t.published + n.retries + n.replays ==
               t.consumed + |m.ring.items| + InBuckets(m.wheel.buckets, All) + n.flightLosses
            && n.leases == t.acked + t.nacked + n.timeouts + InPels(m.groups, All)
            && t.nacked + n.timeouts == n.retries + t.deadLettered
            && t.deadLettered == |m.dlq| + n.replays + n.letterLosses
  {
    hide IsRun, Laws, Sound, A.Tally, InBuckets, InPels;
    T.AccountsBalanceWhenQuiet(t.run.trace, t.run.steps, |t.run.steps|);
  }
}
