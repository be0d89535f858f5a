/** The broker's side of durability (internal/queue/broker.go, cmd/vortexmq/main.go): messages are
    logged before they are enqueued, and replaying a log rebuilds every topic's queue.

    A topic is the value its ring, wheel and pending lists stand for; the log is the object of
    module Wal. How messages and acknowledgements are turned into bytes are parameters. */
module Broker {
  import opened Options
  import opened Bits
  import opened Ring
  import opened Wheel
  import opened Wal
  import D = Directory
  import F = Frames
  import G = Group
  import R = Recovery

  const TOPIC_CAPACITY: nat := 131072
  const WHEEL_SLOTS: nat := 3600

  datatype Message = Message(id: string, topic: string, payload: seq<byte>)

  datatype TopicState = TopicState(
    ring: Deque<Message>,
    wheel: Wheel<Message>,
    groups: map<string, G.Pel<string>>,
    closed: bool,
    published: nat) {

    predicate Open() {
      !closed && !ring.closed
    }

    ghost predicate Valid() {
      ring.Valid() && wheel.Valid()
    }

    /** Topic.Publish and Topic.PublishFront; a closed topic or ring refuses. */
    function Publish(m: Message, front: bool): TopicState {
      if !Open() then this
      else this.(ring := if front then ring.PushFront(m) else ring.Push(m), published := published + 1)
    }

    /** Topic.PublishDelayed; nobody asks whether the topic is closed. */
    function PublishDelayed(m: Message, delay: int): TopicState
      requires wheel.Valid()
    {
      var t := this.(published := published + 1);
      if delay <= 0 then t.(ring := ring.Push(m)) else t.(wheel := wheel.Add(m, Ticks(delay, TICK)))
    }

    function Close(): TopicState {
      if closed then this else TopicState(ring.Close(), wheel.Stop(), groups, true, published)
    }

    function Consume(): TopicState
      requires ring.items != []
    {
      this.(ring := ring.Drop(1))
    }

    function Join(g: string): TopicState {
      if g in groups then this else this.(groups := groups[g := map[]])
    }

    /** Checks the first message out. */
    function Lease(g: string, consumer: string, now: int): TopicState
      requires g in groups && ring.items != []
    {
      this.(ring := ring.Drop(1),
            groups := groups[g := groups[g][ring.items[0].id := G.Lease(consumer, now, now + G.VISIBILITY)]])
    }

    predicate Pending(g: string, id: string) {
      g in groups && id in groups[g]
    }

    function Settle(g: string, id: string): TopicState
      requires Pending(g, id)
    {
      this.(groups := groups[g := groups[g] - {id}])
    }

    /** One publish after another, at the tail. */
    function PublishAll(ms: seq<Message>): TopicState {
      if ms == [] then this else PublishAll(ms[..|ms| - 1]).Publish(ms[|ms| - 1], false)
    }
  }

  function NewTopic(): TopicState {
    TopicState(Empty(TOPIC_CAPACITY), Wheel(0, seq(WHEEL_SLOTS, _ => []), false), map[], false, 0)
  }

  function TopicIn(topics: map<string, TopicState>, name: string): TopicState {
    if name in topics then topics[name] else NewTopic()
  }

  /** The checkout of a message in a group of a topic, if there is one. */
  function PendingIn(topics: map<string, TopicState>, name: string, g: string, id: string): Option<G.Lease> {
    if name in topics && topics[name].Pending(g, id) then Some(topics[name].groups[g][id]) else None
  }

  datatype Answer = Accepted | LogClosed | TopicClosed

  /** What the broker reports to the log. */
  datatype Event = Published(msg: Message) | Acked(payload: seq<byte>)

  const OP_ACK: byte := 2

  function RecordOf(encode: Message -> seq<byte>, e: Event): F.Record {
    match e
    case Published(m) => F.Record(R.OP_PUBLISH, encode(m))
    case Acked(p) => F.Record(OP_ACK, p)
  }

  function RecordsOf(encode: Message -> seq<byte>, es: seq<Event>): (rs: seq<F.Record>)
    ensures |rs| == |es|
    ensures forall i :: 0 <= i < |es| ==>
              rs[i] == if es[i].Published? then F.Record(1, encode(es[i].msg)) else F.Record(2, es[i].payload)
  {
    if es == [] then [] else RecordsOf(encode, es[..|es| - 1]) + [RecordOf(encode, es[|es| - 1])]
  }

  function PublishedAll(ms: seq<Message>): (es: seq<Event>)
    ensures |es| == |ms| && forall i :: 0 <= i < |ms| ==> es[i] == Published(ms[i])
  {
    if ms == [] then [] else PublishedAll(ms[..|ms| - 1]) + [Published(ms[|ms| - 1])]
  }

  lemma RecordsOfSnoc(encode: Message -> seq<byte>, es: seq<Event>, e: Event)
    ensures RecordsOf(encode, es + [e]) == RecordsOf(encode, es) + [RecordOf(encode, e)]
  {
    assert (es + [e])[..|es|] == es;
  }

  /** The message waits in the topic's ring or in its wheel. */
  ghost predicate Holds(t: TopicState, m: Message) {
    || m in t.ring.items
    || exists i, k :: 0 <= i < |t.wheel.buckets| && 0 <= k < |t.wheel.buckets[i]| && t.wheel.buckets[i][k].msg == m
  }

  /** Whatever waits in a topic was logged, or is one of `others`. */
  ghost predicate Covered(topics: map<string, TopicState>, events: seq<Event>, others: set<Message>) {
    forall name, m :: name in topics && Holds(topics[name], m) ==> Published(m) in events || m in others
  }

  lemma {:induction false} PushAllSnoc<T>(d: Deque<T>, xs: seq<T>, x: T)
    ensures PushAll(d, xs + [x]) == PushAll(d, xs).Push(x)
    decreases |xs|
  {
    if xs == [] {
      assert xs + [x] == [x];
      assert [x][1..] == [];
    } else {
      assert (xs + [x])[1..] == xs[1..] + [x];
      PushAllSnoc(d.Push(xs[0]), xs[1..], x);
    }
  }

  /** Publishing one by one is pushing all: an open topic takes every message, a closed one none. */
  lemma {:induction false} PublishAllPushes(t: TopicState, ms: seq<Message>)
    ensures t.PublishAll(ms).Open() == t.Open()
    ensures t.PublishAll(ms) ==
            if t.Open() then t.(ring := PushAll(t.ring, ms), published := t.published + |ms|) else t
  {
    if ms != [] {
      var before, m := ms[..|ms| - 1], ms[|ms| - 1];
      PublishAllPushes(t, before);
      PushAllSnoc(t.ring, before, m);
      assert ms == before + [m];
    }
  }

  ghost predicate TopicsValid(topics: map<string, TopicState>) {
    forall name :: name in topics ==> topics[name].Valid()
  }

  /** After the change a topic holds nothing new but `m`. */
  ghost predicate Gains(t: TopicState, t': TopicState, m: Message) {
    forall x :: Holds(t', x) ==> Holds(t, x) || x == m
  }

  lemma PublishGains(t: TopicState, m: Message, front: bool)
    requires t.Valid()
    ensures t.Publish(m, front).Valid() && Gains(t, t.Publish(m, front), m)
  {
    var t' := t.Publish(m, front);
    assert t'.wheel == t.wheel;
    assert forall x :: x in t'.ring.items ==> x in t.ring.items || x == m;
  }

  lemma DelayedGains(t: TopicState, m: Message, delay: int)
    requires t.Valid()
    ensures t.PublishDelayed(m, delay).Valid() && Gains(t, t.PublishDelayed(m, delay), m)
  {
    hide Ticks, Target, Rounds;
    var t' := t.PublishDelayed(m, delay);
    assert forall x :: x in t'.ring.items ==> x in t.ring.items || x == m;
    forall x | Holds(t', x)
      ensures Holds(t, x) || x == m
    {
      if x !in t'.ring.items {
        var i, k :| 0 <= i < |t'.wheel.buckets| && 0 <= k < |t'.wheel.buckets[i]| && t'.wheel.buckets[i][k].msg == x;
        assert k < |t.wheel.buckets[i]| ==> t.wheel.buckets[i][k] == t'.wheel.buckets[i][k];
      }
    }
  }

  lemma CoveredByGain(topics: map<string, TopicState>, events: seq<Event>, others: set<Message>,
                      name: string, t: TopicState, m: Message)
    requires TopicsValid(topics) && t.Valid() && Gains(TopicIn(topics, name), t, m)
    ensures TopicsValid(topics[name := t])
    ensures Covered(topics, events, others) && (Published(m) in events || m in others) ==>
              Covered(topics[name := t], events, others)
  {
    hide Holds;
    NothingWaitsInNewTopic();
  }

  lemma NothingWaitsInNewTopic()
    ensures NewTopic().Valid() && forall m :: !Holds(NewTopic(), m)
  {
  }

  lemma CoveredByNew(topics: map<string, TopicState>, events: seq<Event>, others: set<Message>, name: string)
    requires TopicsValid(topics)
    ensures TopicsValid(topics[name := TopicIn(topics, name)])
    ensures Covered(topics, events, others) ==> Covered(topics[name := TopicIn(topics, name)], events, others)
  {
    hide Holds;
    NothingWaitsInNewTopic();
  }

  /** Consuming, joining and settling add nothing to what waits. */
  lemma CoveredByLess(topics: map<string, TopicState>, events: seq<Event>, others: set<Message>,
                      name: string, t: TopicState)
    requires TopicsValid(topics) && name in topics && t.wheel == topics[name].wheel
    requires t.ring == topics[name].ring || (topics[name].ring.items != [] && t.ring == topics[name].ring.Drop(1))
    ensures TopicsValid(topics[name := t])
    ensures Covered(topics, events, others) ==> Covered(topics[name := t], events, others)
  {
    forall m | Holds(t, m)
      ensures Holds(topics[name], m)
    {
      if m in t.ring.items {
        assert m in topics[name].ring.items;
      }
    }
    hide Holds;
  }

  lemma CoveredByMore(topics: map<string, TopicState>, events: seq<Event>, others: set<Message>, e: Event)
    requires Covered(topics, events, others)
    ensures Covered(topics, events + [e], others)
  {
    hide Holds;
  }

  function CloseAll(topics: map<string, TopicState>): map<string, TopicState> {
    map name | name in topics :: topics[name].Close()
  }

  lemma CoveredByClosing(topics: map<string, TopicState>, events: seq<Event>, others: set<Message>)
    requires TopicsValid(topics)
    ensures TopicsValid(CloseAll(topics))
    ensures Covered(topics, events, others) ==> Covered(CloseAll(topics), events, others)
  {
    forall name, m | name in topics && Holds(topics[name].Close(), m)
      ensures Holds(topics[name], m)
    {
      assert topics[name].Close().wheel.buckets == topics[name].wheel.buckets;
    }
  }

  /** After the broker was closed the topics it had refuse, but a name it had not is a new topic
      and takes messages. */
  lemma LatePublishIsTakenByNewTopics(topics: map<string, TopicState>, name: string)
    ensures TopicIn(CloseAll(topics), name).Open() <==> name !in topics
  {
  }

  /** From `before` to `after` the log took `ms`, or nothing if it takes nothing. */
  ghost predicate Taken(ms: seq<Message>, before: seq<Event>, after: seq<Event>, logs: bool) {
    after == before + if logs then PublishedAll(ms) else []
  }

  /** `ms` joins the messages that are not in the log, if the log refuses. */
  ghost predicate Added(ms: seq<Message>, before: set<Message>, after: set<Message>, refuses: bool) {
    after == before + if refuses then (set m | m in ms) else {}
  }

  lemma BatchStart(t: TopicState, events: seq<Event>, others: set<Message>, logs: bool, refuses: bool)
    ensures Taken([], events, events, logs) && Added([], others, others, refuses) && t.PublishAll([]) == t
  {
  }

  lemma BatchStep(t: TopicState, ms: seq<Message>, i: nat, before: seq<Event>, after: seq<Event>, logs: bool,
                  others: set<Message>, others': set<Message>, refuses: bool)
    requires i < |ms| && Taken(ms[..i], before, after, logs) && Added(ms[..i], others, others', refuses)
    ensures Taken(ms[..i + 1], before, after + if logs then [Published(ms[i])] else [], logs)
    ensures Added(ms[..i + 1], others, others' + if refuses then {ms[i]} else {}, refuses)
    ensures t.PublishAll(ms[..i + 1]) == t.PublishAll(ms[..i]).Publish(ms[i], false)
    ensures t.PublishAll(ms[..i]).Open() == t.Open()
  {
    hide TopicState.Publish;
    assert ms[..i + 1][..i] == ms[..i];
    PublishAllPushes(t, ms[..i]);
  }

  class Broker {
    const wal: WAL?
    const encode: Message -> seq<byte>
    const describe: (string, string, string) -> seq<byte>   // topic, group and ID of an acknowledgement
    var topics: map<string, TopicState>
    var totalPublished: nat
    var totalConsumed: nat
    var totalAcked: nat
    var closed: bool
    ghost var events: seq<Event>      // what the log has taken
    ghost var others: set<Message>    // recovered at start-up, or batched while the log was closed

    ghost predicate Valid()
      reads this`topics, this`events, this`others, wal
    {
      && (wal != null ==> LogValid(wal) && Covered(topics, events, others))
      && TopicsValid(topics)
    }

    /** The log holds one record per event, in order. */
    ghost predicate LogValid(wal: WAL)
      reads this`events, wal
    {
      wal.Valid() && wal.Written() == RecordsOf(encode, events)
    }

    ghost predicate Refuses()
      reads wal
    {
      wal != null && wal.closed
    }

    /** With the log at `Always`, what it took survives any crash. */
    ghost predicate Safe()
      reads wal
    {
      wal != null && wal.policy == Always ==> wal.files != [] && Durable(wal.files, wal.buffer)
    }

    constructor (wal: WAL?, encode: Message -> seq<byte>, describe: (string, string, string) -> seq<byte>)
      requires wal != null ==> wal.Valid() && wal.Written() == []
      ensures Valid() && this.wal == wal && this.encode == encode && this.describe == describe
      ensures topics == map[] && !closed && events == [] && others == {}
      ensures totalPublished == 0 && totalConsumed == 0 && totalAcked == 0
    {
      this.wal, this.encode, this.describe := wal, encode, describe;
      topics, totalPublished, totalConsumed, totalAcked, closed := map[], 0, 0, 0, false;
      events, others := [], {};
    }

    method GetOrCreateTopic(name: string)
      requires Valid()
      modifies this`topics
      ensures Valid() && topics == old(topics)[name := TopicIn(old(topics), name)]
    {
      hide WAL.Valid, WAL.Written, RecordsOf;
      CoveredByNew(topics, events, others, name);
      if name !in topics {
        topics := topics[name := NewTopic()];
      }
      assert topics == old(topics)[name := TopicIn(old(topics), name)];
    }

    /** WritePublish and WriteAck. */
    method Log(e: Event) returns (ok: bool)
      requires Valid() && F.Encodable(RecordOf(encode, e))
      modifies wal, this`events
      ensures Valid() && ok == !old(Refuses()) && Refuses() == old(Refuses())
      ensures events == old(events) + if wal != null && ok then [e] else []
      ensures ok ==> Safe()
    {
      hide Flat, RecordsOf, RecordOf, Covered;
      ok := true;
      if wal != null {
        ok := wal.WriteRecord(RecordOf(encode, e).op, RecordOf(encode, e).payload);
        if ok {
          RecordsOfSnoc(encode, events, e);
          CoveredByMore(topics, events, others, e);
          events := events + [e];
        }
      }
    }

    /** Replaces a topic by one that holds at most `m` besides. */
    method Store(name: string, t: TopicState, m: Message)
      requires Valid() && t.Valid() && Gains(TopicIn(topics, name), t, m)
      requires wal != null ==> Published(m) in events || m in others
      modifies this`topics
      ensures Valid() && topics == old(topics)[name := t]
    {
      hide WAL.Valid, WAL.Written, RecordsOf;
      CoveredByGain(topics, events, others, name, t, m);
      topics := topics[name := t];
    }

    /** Publish and PublishFront: log first, enqueue second. When the log refuses, nothing is
        enqueued; when it does not, the record is there whatever the topic says. */
    method Publish(m: Message, front: bool) returns (r: Answer)
      requires Valid() && F.Encodable(RecordOf(encode, Published(m)))
      modifies this`topics, this`totalPublished, this`events, wal
      ensures Valid() && Refuses() == old(Refuses())
      ensures events == old(events) + if wal != null && !old(Refuses()) then [Published(m)] else []
      ensures var t := TopicIn(old(topics), m.topic);
              && r == (if old(Refuses()) then LogClosed else if t.Open() then Accepted else TopicClosed)
              && topics == old(topics)[m.topic := if r == Accepted then t.Publish(m, front) else t]
      ensures totalPublished == old(totalPublished) + if r == Accepted then 1 else 0
      ensures r == Accepted ==> Safe()
    {
      hide LogValid, Covered, Gains, RecordOf, Durable;
      GetOrCreateTopic(m.topic);
      var ok := Log(Published(m));
      if !ok {
        return LogClosed;
      }
      var t := topics[m.topic];
      if !t.Open() {
        return TopicClosed;
      }
      PublishGains(t, m, front);
      Store(m.topic, t.Publish(m, front), m);
      totalPublished := totalPublished + 1;
      return Accepted;
    }

    /** PublishDelayed: log first, schedule second; whether the topic is closed makes no difference. */
    method PublishDelayed(m: Message, delay: int) returns (r: Answer)
      requires Valid() && F.Encodable(RecordOf(encode, Published(m)))
      modifies this`topics, this`totalPublished, this`events, wal
      ensures Valid() && Refuses() == old(Refuses())
      ensures events == old(events) + if wal != null && !old(Refuses()) then [Published(m)] else []
      ensures var t := TopicIn(old(topics), m.topic);
              && t.wheel.Valid()
              && r == (if old(Refuses()) then LogClosed else Accepted)
              && topics == old(topics)[m.topic := if r == Accepted then t.PublishDelayed(m, delay) else t]
      ensures totalPublished == old(totalPublished) + if r == Accepted then 1 else 0
      ensures r == Accepted ==> Safe()
    {
      hide LogValid, Covered, Gains, RecordOf, Durable;
      GetOrCreateTopic(m.topic);
      var t := topics[m.topic];
      var ok := Log(Published(m));
      if !ok {
        return LogClosed;
      }
      DelayedGains(t, m, delay);
      Store(m.topic, t.PublishDelayed(m, delay), m);
      totalPublished := totalPublished + 1;
      return Accepted;
    }

    /** One message of a batch: what the log answers is ignored. */
    method PublishNext(m: Message) returns (ok: bool)
      requires Valid() && F.Encodable(RecordOf(encode, Published(m))) && m.topic in topics
      modifies this`topics, this`events, this`others, wal
      ensures Valid() && Refuses() == old(Refuses())
      ensures events == old(events) + if wal != null && !old(Refuses()) then [Published(m)] else []
      ensures others == old(others) + if old(Refuses()) then {m} else {}
      ensures ok == old(topics)[m.topic].Open()
      ensures topics == old(topics)[m.topic := old(topics)[m.topic].Publish(m, false)]
    {
      hide LogValid, Gains, RecordOf, Durable, Holds;
      var _ := Log(Published(m));
      if Refuses() {
        others := others + {m};
      }
      var t := topics[m.topic];
      PublishGains(t, m, false);
      Store(m.topic, t.Publish(m, false), m);
      return t.Open();
    }

    method PublishEach(name: string, ms: seq<Message>) returns (count: nat)
      requires Valid() && name in topics
      requires forall i :: 0 <= i < |ms| ==> F.Encodable(RecordOf(encode, Published(ms[i]))) && ms[i].topic == name
      modifies this`topics, this`events, this`others, wal
      ensures Valid() && Refuses() == old(Refuses())
      ensures Taken(ms, old(events), events, wal != null && !old(Refuses()))
      ensures Added(ms, old(others), others, old(Refuses()))
      ensures topics == old(topics)[name := old(topics)[name].PublishAll(ms)]
      ensures count == if old(topics)[name].Open() then |ms| else 0
    {
      hide Valid, RecordOf, Refuses, TopicState.Publish, TopicState.PublishAll, Taken, Added;
      ghost var t, logs := topics[name], wal != null && !Refuses();
      BatchStart(t, events, others, logs, Refuses());
      assert topics[name := t] == topics;
      count := 0;
      for i := 0 to |ms|
        invariant Valid() && Refuses() == old(Refuses())
        invariant Taken(ms[..i], old(events), events, logs)
        invariant Added(ms[..i], old(others), others, old(Refuses()))
        invariant topics == old(topics)[name := t.PublishAll(ms[..i])]
        invariant count == if t.Open() then i else 0
      {
        BatchStep(t, ms, i, old(events), events, logs, old(others), others, old(Refuses()));
        var ok := PublishNext(ms[i]);
        if ok {
          count := count + 1;
        }
      }
      assert ms[..|ms|] == ms;
    }

    /** PublishBatch: a batch is logged in full exactly when the log is open, and enqueued in full
        exactly when the topic is. */
    method PublishBatch(name: string, ms: seq<Message>) returns (count: nat)
      requires Valid()
      requires forall i :: 0 <= i < |ms| ==> F.Encodable(RecordOf(encode, Published(ms[i]))) && ms[i].topic == name
      modifies this`topics, this`totalPublished, this`events, this`others, wal
      ensures Valid() && Refuses() == old(Refuses())
      ensures Taken(ms, old(events), events, wal != null && !old(Refuses()))
      ensures Added(ms, old(others), others, old(Refuses()))
      ensures ms == [] ==> count == 0 && topics == old(topics)
      ensures ms != [] ==>
                var t := TopicIn(old(topics), name);
                && topics == old(topics)[name := t.PublishAll(ms)]
                && count == if t.Open() then |ms| else 0
      ensures totalPublished == old(totalPublished) + count
    {
      hide Valid, RecordOf, Refuses;
      if |ms| == 0 {
        return 0;
      }
      GetOrCreateTopic(name);
      count := PublishEach(name, ms);
      totalPublished := totalPublished + count;
    }

    /** Replaces a topic by one from which a message may have been taken. */
    method Shrink(name: string, t: TopicState)
      requires Valid() && name in topics && t.wheel == topics[name].wheel
      requires t.ring == topics[name].ring || (topics[name].ring.items != [] && t.ring == topics[name].ring.Drop(1))
      modifies this`topics
      ensures Valid() && topics == old(topics)[name := t]
    {
      hide LogValid;
      CoveredByLess(topics, events, others, name, t);
      topics := topics[name := t];
    }

    /** Consume, with a wait that is over. */
    method Consume(name: string) returns (r: Option<Message>)
      requires Valid()
      modifies this`topics, this`totalConsumed
      ensures Valid()
      ensures var found := name in old(topics) && old(topics)[name].ring.items != [];
              && r == (if found then Some(old(topics)[name].ring.items[0]) else None)
              && topics == (if found then old(topics)[name := old(topics)[name].Consume()] else old(topics))
              && totalConsumed == old(totalConsumed) + if found then 1 else 0
    {
      hide LogValid, Covered;
      if name !in topics || topics[name].ring.items == [] {
        return None;
      }
      r := Some(topics[name].ring.items[0]);
      Shrink(name, topics[name].Consume());
      totalConsumed := totalConsumed + 1;
    }

    /** ConsumeGroup, with a wait that is over: topic and group are created whether or not there is a
        message. */
    method ConsumeGroup(name: string, g: string, consumer: string, now: int) returns (r: Option<Message>)
      requires Valid()
      modifies this`topics, this`totalConsumed
      ensures Valid()
      ensures var t := TopicIn(old(topics), name).Join(g);
              && r == (if t.ring.items == [] then None else Some(t.ring.items[0]))
              && topics == old(topics)[name := if r == None then t else t.Lease(g, consumer, now)]
              && totalConsumed == old(totalConsumed) + if r == None then 0 else 1
    {
      hide LogValid, Covered;
      GetOrCreateTopic(name);
      var t := topics[name].Join(g);
      Shrink(name, t);
      if t.ring.items == [] {
        return None;
      }
      r := Some(t.ring.items[0]);
      Shrink(name, t.Lease(g, consumer, now));
      totalConsumed := totalConsumed + 1;
    }

    /** Ack: what the group confirms is counted and, if the log is open, logged. */
    method Ack(name: string, g: string, id: string) returns (ok: bool)
      requires Valid() && F.Encodable(RecordOf(encode, Acked(describe(name, g, id))))
      modifies this`topics, this`totalAcked, this`events, wal
      ensures Valid() && Refuses() == old(Refuses())
      ensures ok == (name in old(topics) && old(topics)[name].Pending(g, id))
      ensures topics == if ok then old(topics)[name := old(topics)[name].Settle(g, id)] else old(topics)
      ensures forall n, h, x ::
                PendingIn(topics, n, h, x) ==
                if (n, h, x) == (name, g, id) then None else old(PendingIn(topics, n, h, x))
      ensures totalAcked == old(totalAcked) + if ok then 1 else 0
      ensures events == old(events) +
                        if ok && wal != null && !old(Refuses()) then [Acked(describe(name, g, id))] else []
    {
      hide LogValid, Covered, RecordOf;
      if name !in topics || !topics[name].Pending(g, id) {
        return false;
      }
      Shrink(name, topics[name].Settle(g, id));
      totalAcked := totalAcked + 1;
      var _ := Log(Acked(describe(name, g, id)));
      return true;
    }

    /** A replayed message goes to the end of its topic, and not to the log again. */
    method Requeue(m: Message)
      requires Valid() && m in others
      modifies this`topics
      ensures Valid()
      ensures topics == old(topics)[m.topic := TopicIn(old(topics), m.topic).Publish(m, false)]
    {
      hide LogValid, Gains, Holds, TopicState.Publish;
      GetOrCreateTopic(m.topic);
      var t := topics[m.topic];
      PublishGains(t, m, false);
      Store(m.topic, t.Publish(m, false), m);
    }

    /** Start-up: every message found in the directory goes to its topic, and nothing to the log. */
    method Recover(dir: map<string, seq<byte>>, decode: seq<byte> -> Option<Message>) returns (count: nat)
      requires Valid() && topics == map[]
      modifies this`topics, this`others
      ensures Valid()
      ensures topics == Restored(R.Publishes(R.ReadDirectory(dir), decode))
      ensures count == |R.Publishes(R.ReadDirectory(dir), decode)|
    {
      hide LogValid, Holds, R.Publishes, R.ReadDirectory, TopicState.Publish, TopicIn;
      var msgs;
      msgs, count := R.Replay(dir, decode);
      others := others + set m | m in msgs;
      for i := 0 to |msgs|
        invariant Valid() && topics == Restored(msgs[..i])
        invariant forall m :: m in msgs ==> m in others
      {
        assert msgs[..i + 1][..i] == msgs[..i];
        Requeue(msgs[i]);
      }
      assert msgs[..|msgs|] == msgs;
    }

    /** Closes every topic, then the log. */
    method Close()
      requires Valid()
      modifies this`topics, this`closed, wal
      ensures Valid() && closed
      ensures old(closed) ==> topics == old(topics) && Refuses() == old(Refuses())
      ensures !old(closed) ==> topics == CloseAll(old(topics))
      ensures !old(closed) && wal != null ==> Refuses() && wal.files != [] && Durable(wal.files, wal.buffer)
    {
      if closed {
        return;
      }
      closed := true;
      CoveredByClosing(topics, events, others);
      topics := CloseAll(topics);
      if wal != null {
        wal.Close();
      }
    }
  }

  /** The topics after the messages were published one by one to a broker without topics. */
  function Restored(msgs: seq<Message>): map<string, TopicState> {
    if msgs == [] then map[]
    else
      var before, m := Restored(msgs[..|msgs| - 1]), msgs[|msgs| - 1];
      before[m.topic := TopicIn(before, m.topic).Publish(m, false)]
  }

  function ForTopic(msgs: seq<Message>, name: string): seq<Message> {
    if msgs == [] then []
    else
      var m := msgs[|msgs| - 1];
      ForTopic(msgs[..|msgs| - 1], name) + if m.topic == name then [m] else []
  }

  lemma {:induction false} RestoredTopic(msgs: seq<Message>, name: string)
    ensures name in Restored(msgs) <==> ForTopic(msgs, name) != []
    ensures TopicIn(Restored(msgs), name) == NewTopic().PublishAll(ForTopic(msgs, name))
  {
    hide NewTopic;
    if msgs != [] {
      var before, m := msgs[..|msgs| - 1], msgs[|msgs| - 1];
      RestoredTopic(before, name);
      var ms := ForTopic(before, name);
      assert (ms + [m])[..|ms|] == ms;
      assert ms + [] == ms;
    }
  }

  /** Each recovered queue holds that topic's messages in log order: all of them, or the newest
      16,777,216 when there are more. */
  lemma RecoveredQueueIsLogOrder(msgs: seq<Message>, name: string)
    ensures name in Restored(msgs) <==> ForTopic(msgs, name) != []
    ensures name in Restored(msgs) ==>
              Restored(msgs)[name].ring.items == Newest(ForTopic(msgs, name), 16_777_216)
  {
    hide Restored, ForTopic, PushAll, Newest;
    var ms := ForTopic(msgs, name);
    RestoredTopic(msgs, name);
    PublishAllPushes(NewTopic(), ms);
    CapacityOfTopic();
    PushAllKeepsNewest(Empty<Message>(TOPIC_CAPACITY), 17, ms);
    assert [] + ms == ms;
  }

  lemma CapacityOfTopic()
    ensures IsRingCapacity(17, TOPIC_CAPACITY)
  {
    assert Pow2(8) == 256;
    Pow2Add(8, 8);
    assert Pow2(17) == 2 * Pow2(16);
  }

  /** The messages among the events, in order; acknowledgements take nothing back. */
  function MessagesIn(es: seq<Event>): seq<Message> {
    if es == [] then []
    else
      var e := es[|es| - 1];
      MessagesIn(es[..|es| - 1]) + if e.Published? then [e.msg] else []
  }

  /** Every published message comes back from its encoding. */
  ghost predicate Decodes(es: seq<Event>, encode: Message -> seq<byte>, decode: seq<byte> -> Option<Message>) {
    forall i :: 0 <= i < |es| && es[i].Published? ==> decode(encode(es[i].msg)) == Some(es[i].msg)
  }

  lemma {:induction false} ReplayFindsPublished(es: seq<Event>, encode: Message -> seq<byte>,
                                                decode: seq<byte> -> Option<Message>)
    requires Decodes(es, encode, decode)
    ensures R.Publishes(RecordsOf(encode, es), decode) == MessagesIn(es)
  {
    if es != [] {
      var n := |es| - 1;
      ReplayFindsPublished(es[..n], encode, decode);
      assert RecordsOf(encode, es)[..n] == RecordsOf(encode, es[..n]);
    }
  }

  lemma {:induction false} RecordsOfPrefix(encode: Message -> seq<byte>, es: seq<Event>, k: nat)
    requires k <= |es|
    ensures RecordsOf(encode, es)[..k] == RecordsOf(encode, es[..k])
    decreases |es|
  {
    if k < |es| {
      var n := |es| - 1;
      RecordsOfPrefix(encode, es[..n], k);
      assert es[..n][..k] == es[..k];
      assert RecordsOf(encode, es)[..k] == RecordsOf(encode, es[..n])[..k];
    } else {
      assert es[..k] == es;
    }
  }

  /** The topics are those of `es`, and each queue holds the newest of its messages in log order. */
  ghost predicate RebuiltFrom(topics: map<string, TopicState>, es: seq<Event>) {
    forall name ::
      && (name in topics <==> ForTopic(MessagesIn(es), name) != [])
      && (name in topics ==> topics[name].ring.items == Newest(ForTopic(MessagesIn(es), name), 16_777_216))
  }

  /** After any crash that leaves fewer than a million segments, recovery rebuilds the queues from a
      prefix of what the broker logged, and that prefix contains everything that had become
      permanent. */
  lemma CrashRecovery(es: seq<Event>, encode: Message -> seq<byte>, decode: seq<byte> -> Option<Message>,
                      files: seq<Segment>, buffer: seq<byte>, log: seq<seq<F.Record>>, image: seq<seq<byte>>)
    requires Consistent(files, buffer, log) && |log| < D.FEW && Flat(log) == RecordsOf(encode, es)
    requires R.CrashImage(files, image) && Decodes(es, encode, decode)
    ensures var found := R.ReadDirectory(D.Holding(image));
            && R.Permanent(files, log) <= |found| <= |es|
            && RebuiltFrom(Restored(R.Publishes(found, decode)), es[..|found|])
  {
    hide Consistent, R.ReadDirectory, D.Holding, RecordsOf, R.Publishes, Flat, Restored, MessagesIn, ForTopic;
    R.CrashLeavesAPrefix(files, buffer, log, image);
    var found := R.ReadDirectory(D.Holding(image));
    var k := |found|;
    assert found == RecordsOf(encode, es)[..k];
    RecordsOfPrefix(encode, es, k);
    ReplayFindsPublished(es[..k], encode, decode);
    var msgs := MessagesIn(es[..k]);
    forall name
      ensures name in Restored(msgs) <==> ForTopic(msgs, name) != []
      ensures name in Restored(msgs) ==> Restored(msgs)[name].ring.items == Newest(ForTopic(msgs, name), 16_777_216)
    {
      RecoveredQueueIsLogOrder(msgs, name);
    }
  }

  /** When everything logged was durable, recovery rebuilds the queues from all of it. */
  lemma DurableRecovery(es: seq<Event>, encode: Message -> seq<byte>, decode: seq<byte> -> Option<Message>,
                        files: seq<Segment>, buffer: seq<byte>, log: seq<seq<F.Record>>, image: seq<seq<byte>>)
    requires Consistent(files, buffer, log) && |log| < D.FEW && Flat(log) == RecordsOf(encode, es)
    requires Durable(files, buffer) && R.CrashImage(files, image) && Decodes(es, encode, decode)
    ensures RebuiltFrom(Restored(R.Publishes(R.ReadDirectory(D.Holding(image)), decode)), es)
  {
    hide R.ReadDirectory, D.Holding, RecordsOf, R.Publishes, Flat, Restored, RebuiltFrom;
    R.DurableSurvivesCrash(files, buffer, log, image);
    CrashRecovery(es, encode, decode, files, buffer, log, image);
    assert es[..|es|] == es;
  }

  /** For a broker in any state with fewer than a million segments: whatever a crash leaves of its
      log, recovery rebuilds the queues from a prefix of its events with everything permanent in it,
      and from all of them when the log syncs always or is closed. */
  lemma BrokerSurvivesCrash(b: Broker, decode: seq<byte> -> Option<Message>, image: seq<seq<byte>>)
    requires b.wal != null && b.Valid() && |b.wal.files| < D.FEW
    requires R.CrashImage(b.wal.files, image) && Decodes(b.events, b.encode, decode)
    ensures var found := R.ReadDirectory(D.Holding(image));
            && R.Permanent(b.wal.files, b.wal.log) <= |found| <= |b.events|
            && RebuiltFrom(Restored(R.Publishes(found, decode)), b.events[..|found|])
            && (b.wal.policy == Always || b.wal.closed ==> RebuiltFrom(Restored(R.Publishes(found, decode)), b.events))
  {
    hide R.ReadDirectory, D.Holding, R.Publishes, R.CrashImage, RecordsOf, Flat, Restored, RebuiltFrom;
    hide Consistent, Durable, Covered, Decodes;
    LogIsConsistent(b.wal);
    CrashRecovery(b.events, b.encode, decode, b.wal.files, b.wal.buffer, b.wal.log, image);
    if b.wal.policy == Always || b.wal.closed {
      DurableRecovery(b.events, b.encode, decode, b.wal.files, b.wal.buffer, b.wal.log, image);
    }
  }

  lemma LogIsConsistent(wal: WAL)
    requires wal.Valid()
    ensures Consistent(wal.files, wal.buffer, wal.log) && wal.files != []
    ensures |wal.files| == |wal.log| && F.AllEncodable(wal.log[|wal.log| - 1])
    ensures wal.policy == Always || wal.closed ==> Durable(wal.files, wal.buffer)
  {
  }
}
