/** What the laws of a topic mean, said about the messages themselves. */
module TopicTheorems {
  import opened Wheel
  import DL = DeadLetters
  import G = Group
  import opened Sums
  import opened Topic
  import opened Conservation
  import opened Accounting
  import opened Delivery
  import opened Leases
  import opened TopicRuns
  import opened Fates

  /** Where a message can be. */
  datatype Place = InRing | InWheel | PendingIn(group: string) | DeadLetter | InHands(call: nat) | AtItsEnd

  ghost predicate Scheduled(bs: seq<seq<Timer<Id>>>, id: Id) {
    exists b, i :: 0 <= b < |bs| && 0 <= i < |bs[b]| && bs[b][i].msg == id
  }

  ghost predicate At(s: State, id: Id, p: Place) {
    match p
    case InRing => id in s.ring.items
    case InWheel => Scheduled(s.wheel.buckets, id)
    case PendingIn(g) => g in s.groups && id in s.groups[g]
    case DeadLetter => DL.Has(s.dlq, id)
    case InHands(c) => c in s.calls && id in Hands(s.calls[c])
    case AtItsEnd => id in s.fate
  }

  lemma {:induction false} InBucketWitness(b: seq<Timer<Id>>, id: Id)
    ensures InBucket(b, Only(id)) > 0 <==> exists i :: 0 <= i < |b| && b[i].msg == id
  {
    if b != [] {
      InBucketWitness(b[..|b| - 1], id);
      if exists i :: 0 <= i < |b| && b[i].msg == id {
        var i :| 0 <= i < |b| && b[i].msg == id;
        assert i < |b| - 1 ==> b[..|b| - 1][i].msg == id;
      }
    }
  }

  lemma {:induction false} InBucketsWitness(bs: seq<seq<Timer<Id>>>, id: Id)
    ensures InBuckets(bs, Only(id)) > 0 <==> Scheduled(bs, id)
  {
    if bs != [] {
      var front, last := bs[..|bs| - 1], bs[|bs| - 1];
      InBucketsWitness(front, id);
      InBucketWitness(last, id);
      if Scheduled(bs, id) {
        var b, i :| 0 <= b < |bs| && 0 <= i < |bs[b]| && bs[b][i].msg == id;
        assert b < |bs| - 1 ==> front[b][i].msg == id;
      }
      if Scheduled(front, id) {
        var b, i :| 0 <= b < |front| && 0 <= i < |front[b]| && front[b][i].msg == id;
        assert bs[b][i].msg == id;
      }
      if exists i :: 0 <= i < |last| && last[i].msg == id {
        var i :| 0 <= i < |last| && last[i].msg == id;
        assert bs[|bs| - 1][i].msg == id;
      }
    }
  }

  lemma {:induction false} LettersWitness(l: DL.Letters<Id, int>, id: Id)
    requires InLetters(l, Only(id)) > 0
    ensures DL.Has(l, id)
  {
    var front, last := l[..|l| - 1], l[|l| - 1];
    if last.0 != id {
      LettersWitness(front, id);
      var i := DL.Find(front, id);
      assert l[i].0 == id && DL.Find(l, id) <= i;
    } else {
      assert DL.Find(l, id) <= |l| - 1;
    }
  }

  lemma {:induction false} TotalWitness<K(!new)>(m: map<K, nat>) returns (k: K)
    requires Total(m) > 0
    ensures k in m && m[k] > 0
    decreases |m|
  {
    k :| k in m && Total(m) == m[k] + Total(m - {k});
    if m[k] == 0 {
      k := TotalWitness(m - {k});
    }
  }

  lemma TwoOfATotal<K(!new)>(m: map<K, nat>, j: K, k: K)
    requires j in m && k in m && j != k
    ensures m[j] + m[k] <= Total(m)
  {
    TotalPick(m, j);
    TotalPick(m - {j}, k);
  }

  /** Being in a place is being counted there. */
  ghost function CountAt(s: State, id: Id, p: Place): nat {
    match p
    case InRing => Count(s.ring.items, Only(id))
    case InWheel => InBuckets(s.wheel.buckets, Only(id))
    case PendingIn(_) => InPels(s.groups, Only(id))
    case DeadLetter => InLetters(s.dlq, Only(id))
    case InHands(_) => InCalls(s.calls, Held(Only(id)))
    case AtItsEnd => Fated(s.fate, Only(id))
  }

  lemma AtIsCounted(s: State, id: Id, p: Place)
    requires At(s, id, p)
    ensures CountAt(s, id, p) > 0
  {
    hide Count, InBuckets, InPels, InLetters, InCalls, Scheduled;
    match p
    case InRing => CountMember(s.ring.items, id);
    case InWheel => InBucketsWitness(s.wheel.buckets, id);
    case PendingIn(g) => PelAtMostTotal(s.groups, g, Only(id));
    case DeadLetter => LettersHas(s.dlq, id);
    case InHands(c) =>
      CallAtMostTotal(s.calls, c, Held(Only(id)));
      CountMember(Hands(s.calls[c]), id);
    case AtItsEnd =>
  }

  lemma SamePlace(s: State, id: Id, p: Place, p': Place)
    requires Conserved(s, []) && At(s, id, p) && At(s, id, p')
    ensures p == p'
  {
    hide Count, InBuckets, InLetters, Scheduled, Conserved, Total, InPel;
    OnePlace(s, id);
    AtIsCounted(s, id, p);
    AtIsCounted(s, id, p');
    if p.PendingIn? && p'.PendingIn? && p.group != p'.group {
      assert InPel(s.groups[p.group], Only(id)) == 1 && InPel(s.groups[p'.group], Only(id)) == 1 by {
        PelHolds(s.groups[p.group], id);
        PelHolds(s.groups[p'.group], id);
      }
      TwoOfATotal(PelWeights(s.groups, Only(id)), p.group, p'.group);
    } else if p.InHands? && p'.InHands? && p.call != p'.call {
      CountMember(Hands(s.calls[p.call]), id);
      CountMember(Hands(s.calls[p'.call]), id);
      TwoOfATotal(Weights(s.calls, Held(Only(id))), p.call, p'.call);
    }
  }

  lemma PelHolds(pel: G.Pel<Id>, id: Id)
    requires id in pel
    ensures InPel(pel, Only(id)) == 1
  {
  }

  lemma SomePlace(s: State, id: Id) returns (p: Place)
    requires Conserved(s, []) && id in s.store
    ensures At(s, id, p)
  {
    hide Count, InBuckets, InLetters, Scheduled, Conserved, Total;
    OnePlace(s, id);
    if Count(s.ring.items, Only(id)) > 0 {
      CountMember(s.ring.items, id);
      p := InRing;
    } else if InBuckets(s.wheel.buckets, Only(id)) > 0 {
      InBucketsWitness(s.wheel.buckets, id);
      p := InWheel;
    } else if InPels(s.groups, Only(id)) > 0 {
      var g := TotalWitness(PelWeights(s.groups, Only(id)));
      p := PendingIn(g);
    } else if InLetters(s.dlq, Only(id)) > 0 {
      LettersWitness(s.dlq, id);
      p := DeadLetter;
    } else if InCalls(s.calls, Held(Only(id))) > 0 {
      var c := TotalWitness(Weights(s.calls, Held(Only(id))));
      CountMember(Hands(s.calls[c]), id);
      p := InHands(c);
    } else {
      p := AtItsEnd;
    }
  }

  /** In every state of every run, a message that was submitted is in exactly one place, and there
      once: the ring, the wheel, one group's pending list, the dead letters, the hands of one call,
      or at its end; and one that was not submitted is in none. */
  lemma EveryMessageInOnePlace(trace: seq<State>, steps: seq<Step>, i: nat, id: Id)
    requires IsRun(trace, steps) && i < |trace|
    ensures (exists p :: At(trace[i], id, p)) <==> id in trace[i].store
    ensures forall p, p' :: At(trace[i], id, p) && At(trace[i], id, p') ==> p == p'
    ensures forall p :: At(trace[i], id, p) ==> CountAt(trace[i], id, p) == 1
  {
    hide At, CountAt, Conserved, IsRun;
    var s := trace[i];
    EveryRunKeepsTheLaws(trace, steps, i);
    forall p, p' | At(s, id, p) && At(s, id, p')
      ensures p == p'
    {
      SamePlace(s, id, p, p');
    }
    forall p | At(s, id, p)
      ensures CountAt(s, id, p) == 1
    {
      AtIsCounted(s, id, p);
      CountedOnce(s, id, p);
    }
    if id in s.store {
      var p := SomePlace(s, id);
    }
    if exists p :: At(s, id, p) {
      var p :| At(s, id, p);
      AtIsCounted(s, id, p);
      PlaceIsKnown(s, id, p);
    }
  }

  lemma CountedOnce(s: State, id: Id, p: Place)
    requires Conserved(s, []) && CountAt(s, id, p) > 0
    ensures CountAt(s, id, p) == 1
  {
    hide Count, InBuckets, InPels, InLetters, InCalls, Conserved;
    OnePlace(s, id);
  }

  lemma PlaceIsKnown(s: State, id: Id, p: Place)
    requires Conserved(s, []) && CountAt(s, id, p) > 0
    ensures id in s.store
  {
    hide Count, InBuckets, InPels, InLetters, InCalls, Conserved;
    OnePlace(s, id);
  }

  /** What waits in the ring is a message of the topic. */
  lemma RingIsKnown(s: State)
    requires Laws(s)
    ensures forall id :: id in s.ring.items ==> id in s.store
  {
    hide Sound, Conserved, Books, Budget, Orderly, CountAt;
    forall id | id in s.ring.items
      ensures id in s.store
    {
      AtIsCounted(s, id, InRing);
      PlaceIsKnown(s, id, InRing);
    }
  }

  // ---- deliveries ----

  /** A message is never delivered more often than its limit between two replays, and it is in the
      dead letter queue only after exactly that many deliveries. */
  lemma DeliveriesAreBounded(trace: seq<State>, steps: seq<Step>, i: nat, id: Id)
    requires IsRun(trace, steps) && i < |trace| && id in trace[i].store
    ensures var s := trace[i];
            var limit := MaxDeliveries(s.store[id].maxRetries);
            && Deliveries(s.history, id) <= limit
            && (At(s, id, DeadLetter) ==> Deliveries(s.history, id) == limit == s.store[id].retry)
            && (At(s, id, InRing) || At(s, id, InWheel) ==>
                  Deliveries(s.history, id) == s.store[id].retry < limit)
            && (forall g :: At(s, id, PendingIn(g)) ==>
                  Deliveries(s.history, id) == s.store[id].retry + 1 <= limit)
            && (id in s.fate && s.fate[id].Settled? ==> Deliveries(s.history, id) == s.store[id].retry + 1)
  {
    hide IsRun, Deliveries, Count, InBuckets, InPels, InLetters, InCalls, Scheduled, Sound, Books, Orderly;
    var s := trace[i];
    EveryRunKeepsTheLaws(trace, steps, i);
    assert Balanced(LedgerOf(s, id));
    OnePlace(s, id);
    OnLeaseIsHeld(s.calls, id);
    if At(s, id, DeadLetter) { AtIsCounted(s, id, DeadLetter); }
    if At(s, id, InRing) { AtIsCounted(s, id, InRing); }
    if At(s, id, InWheel) { AtIsCounted(s, id, InWheel); }
    forall g | At(s, id, PendingIn(g))
      ensures InPels(s.groups, Only(id)) > 0
    {
      AtIsCounted(s, id, PendingIn(g));
    }
  }

  /** An acknowledged message is gone for good: in no later state of the run is it in the ring, the
      wheel, a pending list, the dead letters or the hands of a call. */
  lemma AcknowledgedIsGone(trace: seq<State>, steps: seq<Step>, i: nat, j: nat, id: Id, p: Place)
    requires IsRun(trace, steps) && i <= j < |trace|
    requires id in trace[i].fate && trace[i].fate[id] == Settled
    requires At(trace[j], id, p)
    ensures p == AtItsEnd && trace[j].fate[id] == Settled
  {
    FateIsFinal(trace, steps, i, j, id);
    hide IsRun, Scheduled;
    EveryMessageInOnePlace(trace, steps, j, id);
    assert At(trace[j], id, AtItsEnd);
  }

  // ---- checkouts ----

  /** In every state, the checkouts of a message by a group that have begun are those that have
      ended and the one that is pending, if it is; and none has ended in a sweep before its
      deadline, thirty seconds after it began. */
  lemma CheckoutsEndOnceAndNotEarly(trace: seq<State>, steps: seq<Step>, i: nat)
    requires IsRun(trace, steps) && i < |trace|
    ensures var s := trace[i];
            && (forall g, id :: Begun(s.history, g, id) ==
                  Ended(s.history, g, id) + if g in s.groups && id in s.groups[g] then 1 else 0)
            && (forall e :: e in s.history && e.TimedOut? ==>
                  e.at >= e.lease.deliveredAt + G.VISIBILITY && Leased(e.group, e.id, e.lease) in s.history)
  {
    hide IsRun, Begun, Ended, Conserved, Books, Budget, Sound;
    EveryRunKeepsTheLaws(trace, steps, i);
    var s := trace[i];
    forall g, id
      ensures Begun(s.history, g, id) ==
              Ended(s.history, g, id) + if g in s.groups && id in s.groups[g] then 1 else 0
    {
      assert Begun(s.history, g, id) == Ended(s.history, g, id) + Pending(s, g, id);
    }
  }

  // ---- accounts ----

  /** Whenever no call is in progress, the public counters balance: what was published, retried and
      replayed was consumed, waits in the ring or the wheel, or was lost; checkouts were
      acknowledged, rejected, swept or are pending; failures were retried or dead-lettered; dead
      letters are still there, were replayed or were lost. */
  lemma AccountsBalanceWhenQuiet(trace: seq<State>, steps: seq<Step>, i: nat)
    requires IsRun(trace, steps) && i < |trace| && trace[i].calls == map[]
    ensures var s := trace[i];
            var n := Tally(s.history);
            && s.published + n.retries + n.replays ==
               s.consumed + |s.ring.items| + InBuckets(s.wheel.buckets, All) + n.flightLosses
            && n.leases == s.acked + s.nacked + n.timeouts + InPels(s.groups, All)
            && s.nacked + n.timeouts == n.retries + s.deadLettered
            && s.deadLettered == |s.dlq| + n.replays + n.letterLosses
  {
    hide IsRun, Tally, InBuckets, InPels, Conserved, Budget, Orderly, Sound;
    EveryRunKeepsTheLaws(trace, steps, i);
    forall m: Measure
      ensures InCalls(map[], m) == 0
    {
      assert Weights(map[], m) == map[];
    }
  }
}
