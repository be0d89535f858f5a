/** Every message submitted to a topic is, after every step of every interleaving, in exactly one
    place. */
module Conservation {
  import opened Ring
  import opened Wheel
  import DL = DeadLetters
  import G = Group
  import opened Sums
  import opened Topic

  /** What can be counted about the calls in progress. */
  datatype Measure =
    | Held(query: Query)
    | OnLease(id: Id)
    | OwesPublished
    | OwesConsumed
    | OwesAcked
    | OwesNacked
    | OwesDead
    | InFlight
    | ToRoute

  /** The messages in the hands of a call. */
  function Hands(call: Call): seq<Id> {
    match call
    case Publishing(id, _) => [id]
    case Delaying(id, _) => [id]
    case Popped(id) => [id]
    case CheckingOut(id, _, _) => [id]
    case Routing(ids, _, _) => ids
    case Expiring(ids) => ids
    case Replaying(id) => [id]
    case _ => []
  }

  function Weigh(call: Call, m: Measure): nat {
    match m
    case Held(q) => Count(Hands(call), q)
    case OnLease(id) => if call.Routing? then Count(call.ids, Only(id)) else 0
    case OwesPublished => if call.Published? then 1 else 0
    case OwesConsumed => if call.Popped? || call.CheckingOut? || call.CheckedOut? then 1 else 0
    case OwesAcked => if call.AckDone? then 1 else 0
    case OwesNacked => if call.Routing? && call.byNack then 1 else 0
    case OwesDead => if call.Routing? && call.owesDead then 1 else 0
    case InFlight => if call.Delaying? || call.Expiring? || call.Replaying? then |Hands(call)| else 0
    case ToRoute => if call.Routing? then |call.ids| else 0
  }

  ghost function Weights(calls: map<nat, Call>, m: Measure): map<nat, nat> {
    map c | c in calls :: Weigh(calls[c], m)
  }

  ghost function InCalls(calls: map<nat, Call>, m: Measure): nat {
    Total(Weights(calls, m))
  }

  lemma CallsUpdate(calls: map<nat, Call>, c: nat, call: Call, m: Measure)
    ensures InCalls(calls[c := call], m) ==
            InCalls(calls, m) - (if c in calls then Weigh(calls[c], m) else 0) + Weigh(call, m)
  {
    hide Total, Weigh;
    TotalUpdate(Weights(calls, m), c, Weigh(call, m));
    assert Weights(calls[c := call], m) == Weights(calls, m)[c := Weigh(call, m)];
  }

  lemma CallsRemove(calls: map<nat, Call>, c: nat, m: Measure)
    requires c in calls
    ensures InCalls(calls - {c}, m) == InCalls(calls, m) - Weigh(calls[c], m)
  {
    hide Total, Weigh;
    TotalPick(Weights(calls, m), c);
    assert Weights(calls - {c}, m) == Weights(calls, m) - {c};
  }

  lemma CallAtMostTotal(calls: map<nat, Call>, c: nat, m: Measure)
    requires c in calls
    ensures Weigh(calls[c], m) <= InCalls(calls, m)
  {
    hide Total, Weigh;
    TotalPick(Weights(calls, m), c);
  }

  function Fated(fate: map<Id, Fate>, q: Query): nat {
    match q
    case All => |fate|
    case Only(id) => if id in fate then 1 else 0
  }

  function Submitted(store: map<Id, Info>, q: Query): nat {
    match q
    case All => |store|
    case Only(id) => if id in store then 1 else 0
  }

  /** How many copies of a message there are, counting every place a message can be in. */
  ghost function Copies(s: State, q: Query): nat {
    Count(s.ring.items, q) + InBuckets(s.wheel.buckets, q) + InPels(s.groups, q) +
    InLetters(s.dlq, q) + InCalls(s.calls, Held(q)) + Fated(s.fate, q)
  }

  /** Everything is accounted for, once the messages in `loose` are put somewhere. */
  ghost predicate Conserved(s: State, loose: seq<Id>) {
    forall q: Query :: Copies(s, q) + Count(loose, q) == Submitted(s.store, q)
  }

  lemma FateGrows(fate: map<Id, Fate>, id: Id, f: Fate, q: Query)
    requires id !in fate
    ensures Fated(fate[id := f], q) == Fated(fate, q) + Hit(q, id)
  {
    assert fate[id := f].Keys == fate.Keys + {id};
  }

  lemma StoreGrows(store: map<Id, Info>, id: Id, info: Info, q: Query)
    ensures Submitted(store[id := info], q) == Submitted(store, q) + if id in store then 0 else Hit(q, id)
  {
    if id in store {
      assert store[id := info].Keys == store.Keys;
    } else {
      assert store[id := info].Keys == store.Keys + {id};
    }
  }

  /** A message that is loose, or in the ring, has no fate yet and is nowhere else. */
  lemma LooseHasNoFate(s: State, loose: seq<Id>, id: Id)
    requires Conserved(s, loose)
    requires Count(loose, Only(id)) + Count(s.ring.items, Only(id)) + InLetters(s.dlq, Only(id)) +
             InCalls(s.calls, Held(Only(id))) + InPels(s.groups, Only(id)) > 0
    ensures id !in s.fate && id in s.store
  {
    hide Count, InBuckets, InPels, InLetters, InCalls;
    assert Copies(s, Only(id)) + Count(loose, Only(id)) == Submitted(s.store, Only(id));
  }

  /** Conservation does not look at the history, the counters or the flags. */
  lemma ConservedFrame(s: State, s': State, loose: seq<Id>)
    requires Conserved(s, loose)
    requires s'.ring.items == s.ring.items && s'.wheel.buckets == s.wheel.buckets
    requires s'.groups == s.groups && s'.dlq == s.dlq && s'.calls == s.calls
    requires s'.fate == s.fate && s'.store == s.store
    ensures Conserved(s', loose)
  {
    hide Count, InBuckets, InPels, InLetters, InCalls;
    forall q: Query
      ensures Copies(s', q) + Count(loose, q) == Submitted(s'.store, q)
    {
      assert Copies(s, q) + Count(loose, q) == Submitted(s.store, q);
    }
  }

  /** Settling the fate of a loose message puts it somewhere. */
  lemma FateConserves(s: State, id: Id, f: Fate)
    requires Conserved(s, [id])
    ensures Conserved(s.(fate := s.fate[id := f]), [])
  {
    hide Count, InBuckets, InPels, InLetters, InCalls;
    CountOne(id, Only(id));
    LooseHasNoFate(s, [id], id);
    var s' := s.(fate := s.fate[id := f]);
    forall q: Query
      ensures Copies(s', q) + Count([], q) == Submitted(s.store, q)
    {
      FateGrows(s.fate, id, f, q);
      CountOne(id, q);
      CountNone(q);
      assert Copies(s, q) + Count([id], q) == Submitted(s.store, q);
    }
  }

  lemma LoseConserves(s: State, id: Id, cause: Cause)
    requires Conserved(s, [id])
    ensures Conserved(Lose(s, id, cause), [])
  {
    hide Conserved;
    FateConserves(s, id, Lost(cause));
    ConservedFrame(s.(fate := s.fate[id := Lost(cause)]), Lose(s, id, cause), []);
  }

  lemma CountNone(q: Query)
    ensures Count([], q) == 0
  {
  }

  lemma PushCounts(d: Deque<Id>, id: Id, front: bool, q: Query)
    requires d.Valid() && !d.closed
    ensures var d' := if front then d.PushFront(id) else d.Push(id);
            Count(d'.items, q) + Count(Victims(d, front), q) == Count(d.items, q) + Hit(q, id)
  {
    hide Count;
    var gone := Victims(d, front);
    CountOne(id, q);
    CountNone(q);
    if front {
      var room := if gone == [] then d.items else d.items[..|d.items| - 1];
      CountConcat([id], room, q);
      CountConcat(room, gone, q);
      assert room + gone == d.items;
    } else {
      var room := if gone == [] then d.items else d.items[1..];
      CountConcat(room, [id], q);
      CountConcat(gone, room, q);
      assert gone + room == d.items;
    }
  }

  /** Whatever the state of the ring, a loose message that is enqueued is accounted for again. */
  lemma EnqueueConserves(s: State, id: Id, front: bool)
    requires Conserved(s, [id]) && s.ring.Valid()
    ensures Conserved(Enqueue(s, id, front), [])
  {
    hide Count, InBuckets, InPels, InLetters, InCalls;
    if s.ring.closed {
      LoseConserves(s, id, RingClosed);
    } else {
      var s' := s.(ring := if front then s.ring.PushFront(id) else s.ring.Push(id));
      var gone := Victims(s.ring, front);
      forall q: Query
        ensures Copies(s', q) + Count(gone, q) == Submitted(s.store, q)
      {
        PushCounts(s.ring, id, front, q);
        CountOne(id, q);
        assert Copies(s, q) + Count([id], q) == Submitted(s.store, q);
      }
      if gone != [] {
        assert gone == [gone[0]];
        LoseConserves(s', gone[0], Saturated);
      }
    }
  }

  lemma ScheduleConserves(s: State, id: Id, delay: int)
    requires Conserved(s, [id]) && s.ring.Valid() && s.wheel.Valid()
    ensures Conserved(Schedule(s, id, delay), [])
  {
    hide Count, InBuckets, InPels, InLetters, InCalls, Enqueue, Lose;
    if delay <= 0 {
      EnqueueConserves(s, id, false);
    } else if s.wheel.closed {
      LoseConserves(s, id, WheelClosed);
    } else {
      forall q: Query
        ensures Copies(Schedule(s, id, delay), q) + Count([], q) == Submitted(s.store, q)
      {
        WheelAdd(s.wheel, id, Ticks(delay, TICK), q);
        CountOne(id, q);
        CountNone(q);
        assert Copies(s, q) + Count([id], q) == Submitted(s.store, q);
      }
    }
  }

  lemma LoseOldestConserves(s: State, loose: seq<Id>, cause: Cause)
    requires Conserved(s, loose) && s.dlq != []
    ensures Conserved(LoseOldestLetter(s, cause), loose)
  {
    hide Count, InBuckets, InPels, InLetters, InCalls;
    var id := s.dlq[0].0;
    LettersEvict(s.dlq, Only(id));
    LooseHasNoFate(s, loose, id);
    forall q: Query
      ensures Copies(LoseOldestLetter(s, cause), q) + Count(loose, q) == Submitted(s.store, q)
    {
      LettersEvict(s.dlq, q);
      FateGrows(s.fate, id, Lost(cause), q);
      assert Copies(s, q) + Count(loose, q) == Submitted(s.store, q);
    }
  }

  /** A loose message is in no dead letter queue. */
  lemma LooseIsNoLetter(s: State, id: Id)
    requires Conserved(s, [id])
    ensures InLetters(s.dlq, Only(id)) == 0
  {
    hide Count, InBuckets, InPels, InLetters, InCalls;
    CountOne(id, Only(id));
    assert Copies(s, Only(id)) + Count([id], Only(id)) == Submitted(s.store, Only(id));
  }

  lemma BuryConserves(s: State, id: Id, attempts: int)
    requires Conserved(s, [id])
    ensures Conserved(Bury(s, id, attempts), [])
  {
    hide Count, InBuckets, InPels, InLetters, InCalls;
    var room := if |s.dlq| >= s.dlqMax && s.dlq != [] then LoseOldestLetter(s, Evicted) else s;
    if |s.dlq| >= s.dlqMax && s.dlq != [] {
      LoseOldestConserves(s, [id], Evicted);
    }
    assert Conserved(room, [id]) && room.dlq == DL.Evicted(s.dlq, s.dlqMax);
    LooseIsNoLetter(s, id);
    forall q: Query
      ensures Copies(Bury(s, id, attempts), q) + Count([], q) == Submitted(s.store, q)
    {
      LettersPut(s.dlq, s.dlqMax, id, attempts, q);
      CountOne(id, q);
      CountNone(q);
      assert Copies(room, q) + Count([id], q) == Submitted(room.store, q);
    }
  }

  lemma {:induction false} PurgeConserves(s: State)
    requires Conserved(s, [])
    ensures Conserved(PurgeAll(s), [])
    decreases |s.dlq|
  {
    hide Conserved;
    if s.dlq != [] {
      LoseOldestConserves(s, [], Purged);
      PurgeConserves(LoseOldestLetter(s, Purged));
    }
  }

  lemma PelRemove(pel: G.Pel<Id>, id: Id, q: Query)
    requires id in pel
    ensures InPel(pel - {id}, q) == InPel(pel, q) - Hit(q, id)
  {
    assert pel.Keys == (pel - {id}).Keys + {id};
  }

  lemma PelInsert(pel: G.Pel<Id>, id: Id, lease: G.Lease, q: Query)
    requires id !in pel
    ensures InPel(pel[id := lease], q) == InPel(pel, q) + Hit(q, id)
  {
    assert pel[id := lease].Keys == pel.Keys + {id};
  }

  /** Taking a message out of a pending list makes it loose. */
  lemma UnleaseConserves(s: State, g: string, id: Id)
    requires Conserved(s, []) && g in s.groups && id in s.groups[g]
    ensures Conserved(s.(groups := s.groups[g := s.groups[g] - {id}]), [id])
  {
    hide Count, InBuckets, InPels, InLetters, InCalls, InPel;
    var s' := s.(groups := s.groups[g := s.groups[g] - {id}]);
    forall q: Query
      ensures Copies(s', q) + Count([id], q) == Submitted(s.store, q)
    {
      PelsUpdate(s.groups, g, s.groups[g] - {id}, q);
      PelRemove(s.groups[g], id, q);
      CountOne(id, q);
      CountNone(q);
      assert Copies(s, q) + Count([], q) == Submitted(s.store, q);
    }
  }

  /** Giving a call other hands: what it no longer holds is loose, what it newly holds was. */
  lemma HandsConserve(s: State, before: seq<Id>, c: nat, call: Call, after: seq<Id>)
    requires Conserved(s, before)
    requires forall q: Query :: Count(after, q) + Count(Hands(call), q) ==
                                Count(before, q) + if c in s.calls then Count(Hands(s.calls[c]), q) else 0
    ensures Conserved(s.(calls := s.calls[c := call]), after)
  {
    hide Count, InBuckets, InPels, InLetters, InCalls, Hands;
    var s' := s.(calls := s.calls[c := call]);
    forall q: Query
      ensures Copies(s', q) + Count(after, q) == Submitted(s.store, q)
    {
      CallsUpdate(s.calls, c, call, Held(q));
      assert Count(after, q) + Count(Hands(call), q) ==
             Count(before, q) + if c in s.calls then Count(Hands(s.calls[c]), q) else 0;
      assert Copies(s, q) + Count(before, q) == Submitted(s.store, q);
    }
  }

  /** A call that ends leaves what it held loose. */
  lemma EndConserves(s: State, c: nat)
    requires Conserved(s, []) && c in s.calls
    ensures Conserved(s.(calls := s.calls - {c}), Hands(s.calls[c]))
  {
    hide Count, InBuckets, InPels, InLetters, InCalls, Hands;
    var s' := s.(calls := s.calls - {c});
    forall q: Query
      ensures Copies(s', q) + Count(Hands(s.calls[c]), q) == Submitted(s.store, q)
    {
      CallsRemove(s.calls, c, Held(q));
      CountNone(q);
      assert Copies(s, q) + Count([], q) == Submitted(s.store, q);
    }
  }

  lemma SubmitConserves(s: State, id: Id, info: Info)
    requires Conserved(s, []) && id !in s.store
    ensures Conserved(s.(store := s.store[id := info]), [id])
  {
    hide Count, InBuckets, InPels, InLetters, InCalls;
    var s' := s.(store := s.store[id := info]);
    forall q: Query
      ensures Copies(s', q) + Count([id], q) == Submitted(s'.store, q)
    {
      StoreGrows(s.store, id, info, q);
      CountOne(id, q);
      CountNone(q);
      assert Copies(s, q) + Count([], q) == Submitted(s.store, q);
    }
  }

  lemma RestoreConserves(s: State, id: Id, info: Info, loose: seq<Id>)
    requires Conserved(s, loose) && id in s.store
    ensures Conserved(s.(store := s.store[id := info]), loose)
  {
    hide Count, InBuckets, InPels, InLetters, InCalls;
    var s' := s.(store := s.store[id := info]);
    forall q: Query
      ensures Copies(s', q) + Count(loose, q) == Submitted(s'.store, q)
    {
      StoreGrows(s.store, id, info, q);
      assert Copies(s, q) + Count(loose, q) == Submitted(s.store, q);
    }
  }

  /** Popping the ring makes its head loose. */
  lemma PopConserves(s: State)
    requires Conserved(s, []) && s.ring.items != []
    ensures Conserved(s.(ring := s.ring.Drop(1)), [s.ring.items[0]])
  {
    hide Count, InBuckets, InPels, InLetters, InCalls;
    var s' := s.(ring := s.ring.Drop(1));
    forall q: Query
      ensures Copies(s', q) + Count([s.ring.items[0]], q) == Submitted(s.store, q)
    {
      CountHead(s.ring.items, q);
      CountOne(s.ring.items[0], q);
      CountNone(q);
      assert Copies(s, q) + Count([], q) == Submitted(s.store, q);
    }
  }

  /** A new call takes what is loose into its hands. */
  lemma GrabConserves(s: State, c: nat, call: Call)
    requires Conserved(s, Hands(call)) && c !in s.calls
    ensures Conserved(s.(calls := s.calls[c := call]), [])
  {
    HandsConserve(s, Hands(call), c, call, []);
  }

  /** A call goes on without the messages it held. */
  lemma ReleaseConserves(s: State, c: nat, call: Call)
    requires Conserved(s, []) && c in s.calls && Hands(call) == []
    ensures Conserved(s.(calls := s.calls[c := call]), Hands(s.calls[c]))
  {
    HandsConserve(s, [], c, call, Hands(s.calls[c]));
  }

  /** A call lets go of the first message in its hands. */
  lemma ReleaseFirstConserves(s: State, c: nat, call: Call)
    requires Conserved(s, []) && c in s.calls
    requires Hands(s.calls[c]) != [] && Hands(call) == Hands(s.calls[c])[1..]
    ensures Conserved(s.(calls := s.calls[c := call]), [Hands(s.calls[c])[0]])
  {
    hide Conserved, Hands;
    var ids := Hands(s.calls[c]);
    forall q: Query
      ensures Count([ids[0]], q) + Count(Hands(call), q) == Count([], q) + Count(ids, q)
    {
      CountHead(ids, q);
      CountOne(ids[0], q);
    }
    HandsConserve(s, [], c, call, [ids[0]]);
  }

  lemma LeaseConserves(s: State, g: string, id: Id, lease: G.Lease)
    requires Conserved(s, [id]) && g in s.groups
    ensures id !in s.groups[g]
    ensures Conserved(s.(groups := s.groups[g := s.groups[g][id := lease]]), [])
  {
    hide Count, InBuckets, InPels, InLetters, InCalls, InPels;
    var s' := s.(groups := s.groups[g := s.groups[g][id := lease]]);
    PelAtMostTotal(s.groups, g, Only(id));
    CountOne(id, Only(id));
    assert Copies(s, Only(id)) + Count([id], Only(id)) == Submitted(s.store, Only(id));
    assert InPel(s.groups[g], Only(id)) == 0;
    hide InPel;
    forall q: Query
      ensures Copies(s', q) + Count([], q) == Submitted(s.store, q)
    {
      PelsUpdate(s.groups, g, s.groups[g][id := lease], q);
      PelInsert(s.groups[g], id, lease, q);
      CountOne(id, q);
      CountNone(q);
      assert Copies(s, q) + Count([id], q) == Submitted(s.store, q);
    }
  }

  lemma CreateGroupConserves(s: State, g: string)
    requires Conserved(s, []) && g !in s.groups
    ensures Conserved(s.(groups := s.groups[g := map[]]), [])
  {
    hide Count, InBuckets, InPels, InLetters, InCalls;
    var s' := s.(groups := s.groups[g := map[]]);
    forall q: Query
      ensures Copies(s', q) + Count([], q) == Submitted(s.store, q)
    {
      PelsUpdate(s.groups, g, map[], q);
      assert Copies(s, q) + Count([], q) == Submitted(s.store, q);
    }
  }

  lemma AdvanceConserves(s: State)
    requires Conserved(s, []) && s.wheel.Valid()
    ensures Conserved(s.(wheel := s.wheel.Advance()), s.wheel.Due())
  {
    hide Count, InBuckets, InPels, InLetters, InCalls;
    var s' := s.(wheel := s.wheel.Advance());
    forall q: Query
      ensures Copies(s', q) + Count(s.wheel.Due(), q) == Submitted(s.store, q)
    {
      WheelAdvance(s.wheel, q);
      CountNone(q);
      assert Copies(s, q) + Count([], q) == Submitted(s.store, q);
    }
  }

  lemma ExhumeConserves(s: State, id: Id)
    requires Conserved(s, []) && DL.Has(s.dlq, id)
    ensures Conserved(s.(dlq := DL.Drop(s.dlq, id)), [id])
  {
    hide Count, InBuckets, InPels, InLetters, InCalls;
    var s' := s.(dlq := DL.Drop(s.dlq, id));
    forall q: Query
      ensures Copies(s', q) + Count([id], q) == Submitted(s.store, q)
    {
      LettersDrop(s.dlq, id, q);
      CountOne(id, q);
      CountNone(q);
      assert Copies(s, q) + Count([], q) == Submitted(s.store, q);
    }
  }

  lemma TakeOverdueConserves(s: State, c: nat, g: string, id: Id)
    requires Conserved(s, [])
    requires g in s.groups && id in s.groups[g] && c in s.calls && s.calls[c].Routing?
    ensures Conserved(TakeOverdue(s, c, g, id), [])
  {
    hide Conserved;
    var s1 := s.(groups := s.groups[g := s.groups[g] - {id}]);
    var call := s.calls[c].(ids := s.calls[c].ids + [id]);
    UnleaseConserves(s, g, id);
    forall q: Query
      ensures Count([], q) + Count(Hands(call), q) == Count([id], q) + Count(Hands(s.calls[c]), q)
    {
      CountConcat(s.calls[c].ids, [id], q);
    }
    HandsConserve(s1, [id], c, call, []);
    ConservedFrame(s1.(calls := s.calls[c := call]), TakeOverdue(s, c, g, id), []);
  }

  lemma {:induction false} TakeAllConserves(s: State, c: nat, g: string, ids: seq<Id>)
    requires Conserved(s, []) && CanTake(s, c, g, ids)
    ensures Conserved(TakeAllOverdue(s, c, g, ids), [])
    decreases |ids|
  {
    hide Conserved;
    if ids != [] {
      assert ids[0] in ids;
      assert forall i :: 0 <= i < |ids[1..]| ==> ids[1..][i] == ids[i + 1];
      TakeOverdueConserves(s, c, g, ids[0]);
      TakeAllConserves(TakeOverdue(s, c, g, ids[0]), c, g, ids[1..]);
    }
  }

  lemma RouteConserves(s: State, c: nat)
    requires Conserved(s, []) && s.ring.Valid() && s.wheel.Valid()
    requires c in s.calls && s.calls[c].Routing? && s.calls[c].ids != [] && s.calls[c].ids[0] in s.store
    ensures Conserved(RouteNext(s, c), [])
  {
    hide Conserved;
    var call := s.calls[c];
    var id := call.ids[0];
    var info := Failed(s.store[id]);
    var route := RouteAfter(s.store[id], call.byNack);
    var call' := Routing(call.ids[1..], call.byNack, route.ToDeadLetters?);
    ReleaseFirstConserves(s, c, call');
    var s1 := s.(calls := s.calls[c := call']);
    RestoreConserves(s1, id, info, [id]);
    var s2 := s.(store := s.store[id := info], calls := s.calls[c := call']);
    assert s2 == s1.(store := s1.store[id := info]);
    match route
    case ToDeadLetters => BuryConserves(s2, id, info.retry);
    case ToWheel(delay) =>
      ConservedFrame(s2, Log(s2, Retried(id)), [id]);
      ScheduleConserves(Log(s2, Retried(id)), id, delay);
  }

  // ---- one lemma per kind of call ----

  lemma PublishingConserves(s: State, step: Step)
    requires Sound(s) && Enabled(s, step) && Conserved(s, [])
    requires step.BeginPublish? || step.PushPublished? || step.BeginDelayed? || step.AddDelayed?
    ensures Conserved(Next(s, step), [])
  {
    hide Conserved, Enqueue, Schedule;
    match step
    case BeginPublish(c, id, maxRetries, front) =>
      var s1 := s.(store := s.store[id := Info(0, maxRetries)]);
      SubmitConserves(s, id, Info(0, maxRetries));
      if s.closed {
        FateConserves(s1, id, Refused);
      } else {
        GrabConserves(s1, c, Publishing(id, front));
      }
    case PushPublished(c) =>
      var call := s.calls[c];
      if s.ring.closed {
        EndConserves(s, c);
        FateConserves(s.(calls := s.calls - {c}), call.id, Refused);
      } else {
        ReleaseConserves(s, c, Published);
        var s1 := s.(calls := s.calls[c := Published]);
        ConservedFrame(s1, Log(s1, Entered(call.id)), [call.id]);
        EnqueueConserves(Log(s1, Entered(call.id)), call.id, call.front);
      }
    case BeginDelayed(c, id, maxRetries, delay) =>
      var s1 := s.(store := s.store[id := Info(0, maxRetries)]);
      SubmitConserves(s, id, Info(0, maxRetries));
      GrabConserves(s1, c, Delaying(id, delay));
      ConservedFrame(s1.(calls := s.calls[c := Delaying(id, delay)]), Next(s, step), []);
    case AddDelayed(c) =>
      EndConserves(s, c);
      ScheduleConserves(s.(calls := s.calls - {c}), s.calls[c].id, s.calls[c].delay);
  }

  lemma ConsumingConserves(s: State, step: Step)
    requires Sound(s) && Enabled(s, step) && Conserved(s, [])
    requires step.Pop? || step.CountConsumed? || step.CreateGroup? || step.PopForGroup? || step.Checkout?
    ensures Conserved(Next(s, step), [])
  {
    hide Conserved;
    match step
    case Pop(c) =>
      var s1, call := s.(ring := s.ring.Drop(1)), Popped(s.ring.items[0]);
      PopConserves(s);
      GrabConserves(s1, c, call);
      ConservedFrame(s1.(calls := s.calls[c := call]), Next(s, step), []);
    case CountConsumed(c) =>
      EndConserves(s, c);
      var s1 := s.(calls := s.calls - {c});
      if s.calls[c].Popped? {
        FateConserves(s1, s.calls[c].id, Consumed);
        ConservedFrame(s1.(fate := s.fate[s.calls[c].id := Consumed]), Next(s, step), []);
      } else {
        ConservedFrame(s1, Next(s, step), []);
      }
    case CreateGroup(g) => CreateGroupConserves(s, g);
    case PopForGroup(c, g, consumer) =>
      var s1, call := s.(ring := s.ring.Drop(1)), CheckingOut(s.ring.items[0], g, consumer);
      PopConserves(s);
      GrabConserves(s1, c, call);
      ConservedFrame(s1.(calls := s.calls[c := call]), Next(s, step), []);
    case Checkout(c) =>
      var call := s.calls[c];
      var lease := G.Lease(call.consumer, s.now, s.now + G.VISIBILITY);
      ReleaseConserves(s, c, CheckedOut);
      var s1 := s.(calls := s.calls[c := CheckedOut]);
      LeaseConserves(s1, call.group, call.id, lease);
      ConservedFrame(s1.(groups := s.groups[call.group := s.groups[call.group][call.id := lease]]), Next(s, step), []);
  }

  lemma AckConserves(s: State, c: nat, g: string, id: Id)
    requires Conserved(s, []) && c !in s.calls && g in s.groups && id in s.groups[g]
    ensures Conserved(DoAck(s, c, g, id), [])
  {
    hide Conserved;
    var s1 := s.(groups := s.groups[g := s.groups[g] - {id}]);
    UnleaseConserves(s, g, id);
    FateConserves(s1, id, Settled);
    var s2 := s1.(fate := s.fate[id := Settled]);
    GrabConserves(s2, c, AckDone);
    ConservedFrame(s2.(calls := s.calls[c := AckDone]), DoAck(s, c, g, id), []);
  }

  lemma NackConserves(s: State, c: nat, g: string, id: Id)
    requires Conserved(s, []) && c !in s.calls && g in s.groups && id in s.groups[g]
    ensures Conserved(DoNack(s, c, g, id), [])
  {
    hide Conserved;
    var s1, call := s.(groups := s.groups[g := s.groups[g] - {id}]), Routing([id], true, false);
    UnleaseConserves(s, g, id);
    GrabConserves(s1, c, call);
    ConservedFrame(s1.(calls := s.calls[c := call]), DoNack(s, c, g, id), []);
  }

  lemma SettlingConserves(s: State, step: Step)
    requires Sound(s) && Enabled(s, step) && Conserved(s, [])
    requires step.Ack? || step.Nack? || step.Sweep? || step.CountDead? || step.FinishRouting?
    ensures Conserved(Next(s, step), [])
  {
    hide Conserved, DoAck, DoNack, TakeAllOverdue;
    match step
    case Ack(c, g, id) => AckConserves(s, c, g, id);
    case Nack(c, g, id) => NackConserves(s, c, g, id);
    case Sweep(c, g, ids) =>
      GrabConserves(s, c, Routing([], false, false));
      TakeAllConserves(s.(calls := s.calls[c := Routing([], false, false)]), c, g, ids);
    case CountDead(c) =>
      var call := s.calls[c].(owesDead := false);
      HandsConserve(s, [], c, call, []);
      ConservedFrame(s.(calls := s.calls[c := call]), Next(s, step), []);
    case FinishRouting(c) =>
      EndConserves(s, c);
      ConservedFrame(s.(calls := s.calls - {c}), Next(s, step), []);
  }

  lemma ReturningConserves(s: State, step: Step)
    requires Sound(s) && Enabled(s, step) && Conserved(s, [])
    requires step.Advance? || step.Expire? || step.Replay? || step.PushReplayed?
    ensures Conserved(Next(s, step), [])
  {
    hide Conserved, Enqueue, Wheel.Due, Wheel.Advance;
    match step
    case Advance(c) =>
      var s1, call := s.(wheel := s.wheel.Advance()), Expiring(s.wheel.Due());
      AdvanceConserves(s);
      GrabConserves(s1, c, call);
    case Expire(c) =>
      var ids := s.calls[c].ids;
      if ids == [] {
        EndConserves(s, c);
      } else {
        ReleaseFirstConserves(s, c, Expiring(ids[1..]));
        EnqueueConserves(s.(calls := s.calls[c := Expiring(ids[1..])]), ids[0], false);
      }
    case Replay(c, id) =>
      var info := s.store[id].(retry := 0);
      var s1 := s.(dlq := DL.Drop(s.dlq, id));
      ExhumeConserves(s, id);
      RestoreConserves(s1, id, info, [id]);
      var s2 := s1.(store := s.store[id := info]);
      GrabConserves(s2, c, Replaying(id));
      ConservedFrame(s2.(calls := s.calls[c := Replaying(id)]), Next(s, step), []);
    case PushReplayed(c) =>
      EndConserves(s, c);
      EnqueueConserves(s.(calls := s.calls - {c}), s.calls[c].id, false);
  }

  lemma BookkeepingConserves(s: State, step: Step)
    requires Sound(s) && Enabled(s, step) && Conserved(s, [])
    requires step.CountPublished? || step.CountAcked? || step.BeginClose? || step.CloseRing? ||
             step.StopWheel? || step.Clock?
    ensures Conserved(Next(s, step), [])
  {
    hide Conserved, Sound;
    match step
    case CountPublished(c) =>
      EndConserves(s, c);
      ConservedFrame(s.(calls := s.calls - {c}), Next(s, step), []);
    case CountAcked(c) =>
      EndConserves(s, c);
      ConservedFrame(s.(calls := s.calls - {c}), Next(s, step), []);
    case BeginClose(c) =>
      GrabConserves(s, c, Closing(false));
      ConservedFrame(s.(calls := s.calls[c := Closing(false)]), Next(s, step), []);
    case CloseRing(c) =>
      HandsConserve(s, [], c, Closing(true), []);
      ConservedFrame(s.(calls := s.calls[c := Closing(true)]), Next(s, step), []);
    case StopWheel(c) =>
      EndConserves(s, c);
      ConservedFrame(s.(calls := s.calls - {c}), Next(s, step), []);
    case Clock(_) => ConservedFrame(s, Next(s, step), []);
  }

  /** No step of any call creates, duplicates or forgets a message. */
  lemma StepConserves(s: State, step: Step)
    requires Sound(s) && Enabled(s, step) && Conserved(s, [])
    ensures Conserved(Next(s, step), [])
  {
    hide Conserved;
    if step.BeginPublish? || step.PushPublished? || step.BeginDelayed? || step.AddDelayed? {
      PublishingConserves(s, step);
    } else if step.Pop? || step.CountConsumed? || step.CreateGroup? || step.PopForGroup? || step.Checkout? {
      ConsumingConserves(s, step);
    } else if step.Ack? || step.Nack? || step.Sweep? || step.CountDead? || step.FinishRouting? {
      SettlingConserves(s, step);
    } else if step.Advance? || step.Expire? || step.Replay? || step.PushReplayed? {
      ReturningConserves(s, step);
    } else if step.Route? {
      RouteConserves(s, step.call);
    } else if step.Purge? {
      PurgeConserves(s);
    } else {
      BookkeepingConserves(s, step);
    }
  }
}
