/** A client of the topic object: two messages are published, one is checked out and times out, the
    other is checked out and acknowledged. */
module Lifecycle {
  import opened Ring
  import opened Wheel
  import opened Sums
  import G = Group
  import opened Machine = Topic
  import opened TopicMemory
  import opened TopicRuns
  import opened TopicCalls
  import opened TopicFiles
  import opened TopicObject

  /** No call is under way, and this is the time. */
  ghost predicate Quiet(r: Run, now: int) {
    |r.trace| == |r.steps| + 1 && Last(r).calls == map[] && Last(r).now == now
  }

  lemma StillQuiet(r: Run, r': Run, steps: seq<Step>, now: int, now': int)
    requires Quiet(r, now) && Continued(r, r', steps, now')
    ensures Quiet(r', now')
  {
  }

  /** An open topic with these messages in its ring, and nothing else going on. */
  ghost predicate Holding(m: Memory, items: seq<Id>, published: nat) {
    && m.ring.items == items && m.ring.capacity >= MIN_CAPACITY && !m.ring.closed && !m.closed
    && m.groups == map[] && m.dlq == [] && m.published == published && m.consumed == 0
    && m.acked == 0 && m.nacked == 0 && m.deadLettered == 0
  }

  lemma OneMorePublished(m: Memory, items: seq<Id>, n: nat, id: Id, maxRetries: int)
    requires Holding(m, items, n) && |items| < MIN_CAPACITY
    ensures var m' := PublishedTo(m, id, maxRetries, false);
            Holding(m', items + [id], n + 1) && m'.store == m.store[id := Info(0, maxRetries)] && m'.wheel == m.wheel
  {
  }

  lemma FreshIsEmpty(capacity: nat, slots: nat, dlqMax: nat, now: int)
    requires capacity >= MIN_CAPACITY
    ensures Holding(MemoryOf(Start(capacity, slots, dlqMax, now)), [], 0)
    ensures MemoryOf(Start(capacity, slots, dlqMax, now)).store == map[]
    ensures Quiet(Run([Start(capacity, slots, dlqMax, now)], []), now)
  {
  }

  method PublishOne(t: TopicObject.Topic, id: Id, ghost items: seq<Id>, ghost n: nat, ghost now: int)
    requires t.Valid() && Quiet(t.run, now) && Holding(t.InMemory(), items, n) && |items| < MIN_CAPACITY
    requires id !in t.InMemory().store
    modifies t.Footprint()
    ensures t.Valid() && fresh(t.Footprint() - old(t.Footprint())) && Quiet(t.run, now)
    ensures Holding(t.InMemory(), items + [id], n + 1)
    ensures t.InMemory().store == old(t.InMemory()).store[id := Info(0, 3)]
  {
    hide TopicObject.Topic.Parts, TopicObject.Topic.InMemory, TopicObject.Topic.Footprint;
    hide Continued, PublishedTo, PublishSteps, Holding, Laws, IsRun, Sound;
    ghost var run, m := t.run, t.InMemory();
    OneMorePublished(m, items, n, id, 3);
    var _ := t.Publish(id, 3, false, 0);
    StillQuiet(run, t.run, PublishSteps(m, 0, id, 3, false), now, now);
  }

  method NewTopic() returns (t: TopicObject.Topic)
    ensures t.Valid() && fresh(t.Footprint()) && Quiet(t.run, 0)
    ensures Holding(t.InMemory(), [], 0) && t.InMemory().store == map[]
  {
    hide TopicObject.Topic.Parts, TopicObject.Topic.InMemory, TopicObject.Topic.Footprint;
    hide Holding, Laws, IsRun, Sound, Start, MemoryOf;
    t := new TopicObject.Topic(1024, 0);
    FreshIsEmpty(t.ring.capacity, 3600, 50000, 0);
  }

  /** One message is with a consumer until `deadline`, the other waits. */
  ghost predicate OneOut(m: Memory, deadline: int) {
    && m.ring.items == ["b"] && m.groups == map["g" := map["a" := G.Lease("w", 0, deadline)]]
    && m.store == map["a" := Info(0, 3), "b" := Info(0, 3)]
    && m.published == 2 && m.consumed == 1 && m.acked == 0 && m.nacked == 0 && m.deadLettered == 0
  }

  /** The one that timed out has failed once and is nowhere pending; the other still waits. */
  ghost predicate OneFailed(m: Memory) {
    && m.ring.items == ["b"] && m.groups == map["g" := map[]]
    && m.store == map["a" := Info(1, 3), "b" := Info(0, 3)]
    && m.published == 2 && m.consumed == 1 && m.acked == 0 && m.nacked == 0 && m.deadLettered == 0
  }

  ghost predicate OneSettled(m: Memory) {
    && m.ring.items == [] && m.groups == map["g" := map[]]
    && m.store == map["a" := Info(1, 3), "b" := Info(0, 3)]
    && m.published == 2 && m.consumed == 2 && m.acked == 1 && m.nacked == 0 && m.deadLettered == 0
  }

  lemma FirstIsOut(m: Memory)
    requires Holding(m, ["a", "b"], 2) && m.store == map["a" := Info(0, 3), "b" := Info(0, 3)]
    ensures var m1 := JoinedBy(m, "g");
            m1.ring.items == ["a", "b"] && OneOut(LeasedTo(m1, "g", "w", 0), G.VISIBILITY)
  {
    assert ["a", "b"][1..] == ["b"];
    assert map["g" := map[]]["g" := map["a" := G.Lease("w", 0, G.VISIBILITY)]] ==
           map["g" := map["a" := G.Lease("w", 0, G.VISIBILITY)]];
  }

  lemma OverdueIsFirst(ids: seq<Id>)
    requires Lists(ids, G.Overdue(map["a" := G.Lease("w", 0, G.VISIBILITY)], G.VISIBILITY))
    ensures ids == ["a"]
  {
    var pel := map["a" := G.Lease("w", 0, G.VISIBILITY)];
    assert "a" in G.Overdue(pel, G.VISIBILITY) && "a" in ids;
    forall i | 0 <= i < |ids|
      ensures ids[i] == "a"
    {
      assert ids[i] in ids;
    }
    assert G.Overdue(pel, G.VISIBILITY) == {"a"};
    SizeOfList(ids, {"a"});
  }

  lemma {:induction false} SizeOfList(ids: seq<Id>, all: set<Id>)
    requires Lists(ids, all)
    ensures |ids| == |all|
  {
    if ids == [] {
      assert all == {};
    } else {
      var n := |ids| - 1;
      assert forall id :: id in ids[..n] ==> id in ids && id != ids[n];
      assert forall id :: id in ids && id != ids[n] ==> id in ids[..n];
      SizeOfList(ids[..n], all - {ids[n]});
    }
  }

  lemma FirstFails(m: Memory)
    requires Sane(m) && OneOut(m, G.VISIBILITY) && InStore(m, ["a"])
    ensures OneFailed(SweptBy(m, "g", ["a"], G.VISIBILITY))
  {
    hide Wheel.Valid, Wheel.Add, Ticks;
    var pel := map["a" := G.Lease("w", 0, G.VISIBILITY)];
    assert G.Overdue(pel, G.VISIBILITY) == {"a"};
    assert pel - {"a"} == map[];
    var m1 := m.(groups := m.groups["g" := map[]]);
    assert m1.groups == map["g" := map[]];
    assert ["a"][1..] == [];
    assert RouteAfter(Info(0, 3), false) == G.ToWheel(G.SWEEP_DELAY);
    assert ResolvedAll(m1, ["a"]) == ResolvedAll(Resolved(m1, "a", false), []);
    assert m.store["a" := Info(1, 3)] == map["a" := Info(1, 3), "b" := Info(0, 3)];
  }

  lemma SweepFindsFirst(m: Memory, visits: seq<Visit>)
    requires OneOut(m, G.VISIBILITY) && |visits| == 1 && Visits(m, visits, [G.VISIBILITY])
    ensures FoundIn(visits) == 1 && OneFailed(SweptAll(m, visits))
  {
    hide Wheel.Valid, SweptBy, G.Overdue;
    var v := visits[0];
    assert v.group == "g";
    OverdueIsFirst(v.ids);
    assert visits[..0] == [];
    FirstFails(m);
  }

  lemma SecondIsSettled(m: Memory, now: int)
    requires OneFailed(m)
    ensures JoinedBy(m, "g") == m
    ensures var m1 := LeasedTo(m, "g", "w", now);
            Pending(m1, "g", "b") && OneSettled(AckedBy(m1, "g", "b"))
  {
    var lease := G.Lease("w", now, now + G.VISIBILITY);
    assert ["b"][1..] == [];
    assert map["g" := map[]]["g" := map["b" := lease]] == map["g" := map["b" := lease]];
    assert map["b" := lease] - {"b"} == map[];
    assert map["g" := map["b" := lease]]["g" := map[]] == map["g" := map[]];
  }

  method CheckOutFirst(t: TopicObject.Topic)
    requires t.Valid() && Quiet(t.run, 0) && Holding(t.InMemory(), ["a", "b"], 2)
    requires t.InMemory().store == map["a" := Info(0, 3), "b" := Info(0, 3)]
    modifies t.Footprint()
    ensures t.Valid() && fresh(t.Footprint() - old(t.Footprint())) && Quiet(t.run, 0)
    ensures OneOut(t.InMemory(), G.VISIBILITY)
  {
    hide TopicObject.Topic.Parts, TopicObject.Topic.InMemory, TopicObject.Topic.Footprint;
    hide Continued, LeasedTo, LeaseSteps, Holding, OneOut, Laws, IsRun, Sound;
    ghost var run, m := t.run, t.InMemory();
    FirstIsOut(m);
    var r := t.ConsumeGroup("g", "w", 0, 0);
    ghost var joining := if "g" in m.groups then [] else [CreateGroup("g")];
    StillQuiet(run, t.run, joining + LeaseSteps(JoinedBy(m, "g"), 0, "g", "w", 0), 0, 0);
  }

  method TimeOutFirst(t: TopicObject.Topic) returns (swept: nat)
    requires t.Valid() && Quiet(t.run, 0) && OneOut(t.InMemory(), G.VISIBILITY)
    modifies t.Footprint()
    ensures t.Valid() && fresh(t.Footprint() - old(t.Footprint())) && Quiet(t.run, G.VISIBILITY)
    ensures swept == 1 && OneFailed(t.InMemory())
  {
    hide TopicObject.Topic.Parts, TopicObject.Topic.InMemory, TopicObject.Topic.Footprint;
    hide Continued, SweptAll, AllSweepSteps, OneFailed, Visiting, CanVisit, Laws, IsRun, Sound;
    ghost var run, m := t.run, t.InMemory();
    ghost var visits;
    swept, visits := t.SweepConsumerTimeouts([G.VISIBILITY], 0);
    SweepFindsFirst(m, visits);
    StillQuiet(run, t.run, AllSweepSteps(m, 0, visits), 0, G.VISIBILITY);
  }

  method SettleSecond(t: TopicObject.Topic, now: int) returns (ok: bool)
    requires t.Valid() && Quiet(t.run, now) && OneFailed(t.InMemory())
    modifies t.Footprint()
    ensures t.Valid() && fresh(t.Footprint() - old(t.Footprint()))
    ensures ok && OneSettled(t.InMemory())
  {
    hide TopicObject.Topic.Parts, TopicObject.Topic.InMemory, TopicObject.Topic.Footprint;
    hide Continued, LeasedTo, LeaseSteps, OneSettled, AckedBy, Pending, Laws, IsRun, Sound;
    ghost var run, m := t.run, t.InMemory();
    SecondIsSettled(m, now);
    var r := t.ConsumeGroup("g", "w", now, 0);
    ghost var joining := if "g" in m.groups then [] else [CreateGroup("g")];
    StillQuiet(run, t.run, joining + LeaseSteps(m, 0, "g", "w", now), now, now);
    ok := t.Ack("g", "b", 0);
  }

  /** Two messages are published and one is checked out; thirty seconds later the sweep takes back
      exactly that one, and the other can be checked out and acknowledged. */
  method OneTimesOutOneIsAcknowledged(t: TopicObject.Topic) returns (swept: nat, ok: bool)
    requires t.Valid() && Quiet(t.run, 0) && Holding(t.InMemory(), [], 0) && t.InMemory().store == map[]
    modifies t.Footprint()
    ensures t.Valid() && swept == 1 && ok && OneSettled(t.InMemory())
  {
    hide TopicObject.Topic.Valid, TopicObject.Topic.InMemory, TopicObject.Topic.Parts;
    hide Holding, OneOut, OneFailed, OneSettled, Quiet;
    ghost var a: seq<Id> := ["a"];
    assert [] + ["a"] == a && a + ["b"] == ["a", "b"];
    PublishOne(t, "a", [], 0, 0);
    PublishOne(t, "b", a, 1, 0);
    CheckOutFirst(t);
    swept := TimeOutFirst(t);
    ok := SettleSecond(t, G.VISIBILITY);
  }
}
