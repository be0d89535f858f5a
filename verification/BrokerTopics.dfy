/** The topics of the broker model, which hold messages, and the memory of a topic, which holds IDs: the
    calls do the same to both. */
module BrokerTopics {
  import opened Ring
  import opened Wheel
  import opened Sums
  import opened TopicMemory
  import opened TopicCalls
  import M = Topic
  import B = Broker

  const MAX_RETRIES: int := 3

  function Ids(ms: seq<B.Message>): (ids: seq<Id>)
    ensures |ids| == |ms| && forall i :: 0 <= i < |ms| ==> ids[i] == ms[i].id
  {
    if ms == [] then [] else Ids(ms[..|ms| - 1]) + [ms[|ms| - 1].id]
  }

  function RingIds(d: Deque<B.Message>): Deque<Id> {
    Deque(Ids(d.items), d.capacity, d.closed)
  }

  function TimerIds(b: seq<Timer<B.Message>>): (ids: seq<Timer<Id>>)
    ensures |ids| == |b| && forall i :: 0 <= i < |b| ==> ids[i] == Timer(b[i].msg.id, b[i].rounds)
  {
    if b == [] then [] else TimerIds(b[..|b| - 1]) + [Timer(b[|b| - 1].msg.id, b[|b| - 1].rounds)]
  }

  function BucketIds(bs: seq<seq<Timer<B.Message>>>): (ids: seq<seq<Timer<Id>>>)
    ensures |ids| == |bs| && forall i :: 0 <= i < |bs| ==> ids[i] == TimerIds(bs[i])
  {
    if bs == [] then [] else BucketIds(bs[..|bs| - 1]) + [TimerIds(bs[|bs| - 1])]
  }

  function WheelIds(w: Wheel<B.Message>): Wheel<Id> {
    Wheel(w.current, BucketIds(w.buckets), w.closed)
  }

  /** The memory is that of the topic, as far as the broker model goes. */
  ghost predicate Agree(t: B.TopicState, m: Memory) {
    && m.ring == RingIds(t.ring) && m.wheel == WheelIds(t.wheel) && m.groups == t.groups
    && m.closed == t.closed && m.published == t.published
  }

  lemma PushAgrees(d: Deque<B.Message>, msg: B.Message)
    ensures RingIds(d.Push(msg)) == RingIds(d).Push(msg.id)
    ensures RingIds(d.PushFront(msg)) == RingIds(d).PushFront(msg.id)
  {
    assert Ids(d.items + [msg]) == Ids(d.items) + [msg.id];
    assert Ids([msg] + d.items) == [msg.id] + Ids(d.items);
    if d.Saturated() {
      assert Ids(d.items[1..] + [msg]) == Ids(d.items)[1..] + [msg.id];
      assert Ids([msg] + d.items[..|d.items| - 1]) == [msg.id] + Ids(d.items)[..|d.items| - 1];
    }
  }

  lemma DropAgrees(d: Deque<B.Message>)
    requires d.items != []
    ensures RingIds(d.Drop(1)) == RingIds(d).Drop(1)
  {
    assert Ids(d.items[1..]) == Ids(d.items)[1..];
  }

  lemma AddAgrees(w: Wheel<B.Message>, msg: B.Message, ticks: nat)
    requires w.Valid()
    ensures WheelIds(w.Add(msg, ticks)) == WheelIds(w).Add(msg.id, ticks)
  {
    hide Target, Rounds;
    var slots := |w.buckets|;
    var s, t := Target(w.current, ticks, slots), Timer(msg, Rounds(ticks, slots));
    assert TimerIds(w.buckets[s] + [t]) == TimerIds(w.buckets[s]) + [Timer(msg.id, t.rounds)];
    assert BucketIds(w.buckets[s := w.buckets[s] + [t]]) ==
           BucketIds(w.buckets)[s := TimerIds(w.buckets[s]) + [Timer(msg.id, t.rounds)]];
  }

  /** Publish and PublishFront. */
  lemma PublishesAgree(t: B.TopicState, m: Memory, msg: B.Message, front: bool)
    requires Agree(t, m)
    ensures Agree(t.Publish(msg, front), PublishedTo(m, msg.id, MAX_RETRIES, front))
    ensures t.Open() <==> !m.closed && !m.ring.closed
  {
    hide Deque.Push, Deque.PushFront, Ids;
    PushAgrees(t.ring, msg);
  }

  lemma DelayedPublishesAgree(t: B.TopicState, m: Memory, msg: B.Message, delay: int)
    requires Agree(t, m) && t.wheel.Valid()
    ensures m.wheel.Valid() && Agree(t.PublishDelayed(msg, delay), DelayedTo(m, msg.id, MAX_RETRIES, delay))
  {
    hide Deque.Push, Wheel.Add, Ticks, Ids;
    PushAgrees(t.ring, msg);
    if delay > 0 {
      AddAgrees(t.wheel, msg, Ticks(delay, TICK));
    }
  }

  lemma ConsumersAgree(t: B.TopicState, m: Memory)
    requires Agree(t, m) && t.ring.items != []
    ensures m.ring.items != [] && m.ring.items[0] == t.ring.items[0].id
    ensures Agree(t.Consume(), ConsumedFrom(m))
  {
    DropAgrees(t.ring);
  }

  lemma JoinsAgree(t: B.TopicState, m: Memory, g: string)
    requires Agree(t, m)
    ensures Agree(t.Join(g), JoinedBy(m, g))
  {
  }

  lemma LeasesAgree(t: B.TopicState, m: Memory, g: string, consumer: string, now: int)
    requires Agree(t, m) && g in t.groups && t.ring.items != []
    ensures Agree(t.Lease(g, consumer, now), LeasedTo(m, g, consumer, now))
  {
    DropAgrees(t.ring);
  }

  lemma AcksAgree(t: B.TopicState, m: Memory, g: string, id: Id)
    requires Agree(t, m)
    ensures t.Pending(g, id) <==> Pending(m, g, id)
    ensures t.Pending(g, id) ==> Agree(t.Settle(g, id), AckedBy(m, g, id))
  {
  }

  lemma ClosingsAgree(t: B.TopicState, m: Memory)
    requires Agree(t, m)
    ensures Agree(t.Close(), ClosedDown(m))
  {
  }

  /** A new topic of the broker is a new topic of the state machine. */
  lemma NewTopicsAgree(now: int)
    ensures Agree(B.NewTopic(), MemoryOf(M.Start(131072, 3600, 50000, now)))
  {
    var buckets: seq<seq<Timer<B.Message>>> := seq(3600, _ => []);
    var ids: seq<seq<Timer<Id>>> := seq(3600, _ => []);
    assert BucketIds(buckets) == ids;
  }
}
