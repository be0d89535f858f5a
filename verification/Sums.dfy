/** Counting: how often an ID, or any ID, occurs in the collections that can hold messages. */
module Sums {
  import opened Wheel
  import opened DeadLetters
  import opened Group

  type Id = string

  /** Count one ID, or count everything. */
  datatype Query = All | Only(id: Id)

  function Hit(q: Query, id: Id): nat {
    if q.All? || q.id == id then 1 else 0
  }

  /** The sum of the values of a map. */
  ghost function Total<K(!new)>(m: map<K, nat>): nat
    decreases |m|
  {
    if m == map[] then 0
    else
      var k :| k in m;
      m[k] + Total(m - {k})
  }

  lemma {:induction false} TotalPick<K(!new)>(m: map<K, nat>, k: K)
    requires k in m
    ensures Total(m) == m[k] + Total(m - {k})
    decreases |m|
  {
    var j :| j in m && Total(m) == m[j] + Total(m - {j});
    if j != k {
      TotalPick(m - {j}, k);
      TotalPick(m - {k}, j);
      assert (m - {j}) - {k} == (m - {k}) - {j};
    }
  }

  lemma TotalUpdate<K(!new)>(m: map<K, nat>, k: K, v: nat)
    ensures Total(m[k := v]) == Total(m) - (if k in m then m[k] else 0) + v
  {
    TotalPick(m[k := v], k);
    assert m[k := v] - {k} == m - {k};
    if k in m {
      TotalPick(m, k);
    } else {
      assert m - {k} == m;
    }
  }

  lemma {:induction false} TotalMonotone<K(!new)>(m: map<K, nat>, n: map<K, nat>)
    requires m.Keys == n.Keys && forall k :: k in m ==> m[k] <= n[k]
    ensures Total(m) <= Total(n)
    decreases |m|
  {
    if m == map[] {
      assert n == map[];
    } else {
      var k :| k in m;
      TotalPick(m, k);
      TotalPick(n, k);
      TotalMonotone(m - {k}, n - {k});
    }
  }

  function Count(xs: seq<Id>, q: Query): nat {
    if xs == [] then 0 else Count(xs[..|xs| - 1], q) + Hit(q, xs[|xs| - 1])
  }

  lemma {:induction false} CountConcat(xs: seq<Id>, ys: seq<Id>, q: Query)
    ensures Count(xs + ys, q) == Count(xs, q) + Count(ys, q)
    decreases |ys|
  {
    if ys == [] {
      assert xs + ys == xs;
    } else {
      CountConcat(xs, ys[..|ys| - 1], q);
      assert (xs + ys)[..|xs + ys| - 1] == xs + ys[..|ys| - 1];
    }
  }

  lemma CountOne(x: Id, q: Query)
    ensures Count([x], q) == Hit(q, x)
  {
    assert [x][..0] == [];
  }

  lemma CountHead(xs: seq<Id>, q: Query)
    requires xs != []
    ensures Count(xs, q) == Hit(q, xs[0]) + Count(xs[1..], q)
  {
    CountConcat([xs[0]], xs[1..], q);
    CountOne(xs[0], q);
    assert [xs[0]] + xs[1..] == xs;
  }

  lemma {:induction false} CountAll(xs: seq<Id>)
    ensures Count(xs, All) == |xs|
  {
    if xs != [] {
      CountAll(xs[..|xs| - 1]);
    }
  }

  lemma {:induction false} CountMember(xs: seq<Id>, id: Id)
    ensures Count(xs, Only(id)) > 0 <==> id in xs
  {
    if xs != [] {
      CountMember(xs[..|xs| - 1], id);
      assert xs == xs[..|xs| - 1] + [xs[|xs| - 1]];
    }
  }

  // ---- the timing wheel ----

  function InBucket(b: seq<Timer<Id>>, q: Query): nat {
    if b == [] then 0 else InBucket(b[..|b| - 1], q) + Hit(q, b[|b| - 1].msg)
  }

  function InBuckets(bs: seq<seq<Timer<Id>>>, q: Query): nat {
    if bs == [] then 0 else InBuckets(bs[..|bs| - 1], q) + InBucket(bs[|bs| - 1], q)
  }

  lemma {:induction false} BucketsUpdate(bs: seq<seq<Timer<Id>>>, s: nat, b: seq<Timer<Id>>, q: Query)
    requires s < |bs|
    ensures InBuckets(bs[s := b], q) == InBuckets(bs, q) - InBucket(bs[s], q) + InBucket(b, q)
  {
    var bs' := bs[s := b];
    if s < |bs| - 1 {
      BucketsUpdate(bs[..|bs| - 1], s, b, q);
      assert bs'[..|bs| - 1] == bs[..|bs| - 1][s := b];
    } else {
      assert bs'[..|bs| - 1] == bs[..|bs| - 1];
    }
  }

  lemma BucketAppend(b: seq<Timer<Id>>, t: Timer<Id>, q: Query)
    ensures InBucket(b + [t], q) == InBucket(b, q) + Hit(q, t.msg)
  {
    assert (b + [t])[..|b|] == b;
  }

  lemma {:induction false} BucketSplits(b: seq<Timer<Id>>, n: nat, q: Query)
    requires n <= |b|
    ensures InBucket(b[..n], q) + InBucket(Retained(b, n), q) + Count(Expired(b, n), q) == InBucket(b, q)
    decreases |b| - n
  {
    hide Expired, Retained;
    SplitNone(b);
    if n == |b| {
      assert b[..n] == b;
    } else {
      BucketSplits(b, n + 1, q);
      SplitStep(b, n);
      assert b[..n + 1] == b[..n] + [b[n]];
      BucketAppend(b[..n], b[n], q);
      if b[n].rounds == 0 {
        CountConcat(Expired(b, n + 1), [b[n].msg], q);
        CountOne(b[n].msg, q);
      } else {
        BucketAppend(Retained(b, n + 1), Timer(b[n].msg, b[n].rounds - 1), q);
      }
    }
  }

  /** Scheduling puts one message in the wheel, unless the wheel is stopped. */
  lemma WheelAdd(w: Wheel<Id>, id: Id, ticks: nat, q: Query)
    requires w.Valid()
    ensures InBuckets(w.Add(id, ticks).buckets, q) ==
            InBuckets(w.buckets, q) + if w.closed then 0 else Hit(q, id)
  {
    hide Target, Rounds;
    if !w.closed {
      var s := Target(w.current, ticks, |w.buckets|);
      var t := Timer(id, Rounds(ticks, |w.buckets|));
      BucketsUpdate(w.buckets, s, w.buckets[s] + [t], q);
      BucketAppend(w.buckets[s], t, q);
    }
  }

  /** Advancing takes exactly the messages that are due out of the wheel. */
  lemma WheelAdvance(w: Wheel<Id>, q: Query)
    requires w.Valid()
    ensures InBuckets(w.Advance().buckets, q) + Count(w.Due(), q) == InBuckets(w.buckets, q)
  {
    var b := w.buckets[w.current];
    BucketsUpdate(w.buckets, w.current, Retained(b, 0), q);
    BucketSplits(b, 0, q);
    assert b[..0] == [];
  }

  // ---- the dead letter queue ----

  function InLetters<E>(l: Letters<Id, E>, q: Query): nat {
    if l == [] then 0 else InLetters(l[..|l| - 1], q) + Hit(q, l[|l| - 1].0)
  }

  lemma {:induction false} LettersConcat<E>(k: Letters<Id, E>, l: Letters<Id, E>, q: Query)
    ensures InLetters(k + l, q) == InLetters(k, q) + InLetters(l, q)
    decreases |l|
  {
    if l == [] {
      assert k + l == k;
    } else {
      LettersConcat(k, l[..|l| - 1], q);
      assert (k + l)[..|k + l| - 1] == k + l[..|l| - 1];
    }
  }

  lemma LettersOne<E>(x: (Id, E), q: Query)
    ensures InLetters([x], q) == Hit(q, x.0)
  {
    assert [x][..0] == [];
  }

  lemma LettersAt<E>(l: Letters<Id, E>, i: nat, q: Query)
    requires i < |l|
    ensures InLetters(l, q) == InLetters(l[..i], q) + Hit(q, l[i].0) + InLetters(l[i + 1..], q)
  {
    hide InLetters;
    LettersConcat(l[..i], [l[i]], q);
    LettersConcat(l[..i] + [l[i]], l[i + 1..], q);
    LettersOne(l[i], q);
    assert l[..i] + [l[i]] + l[i + 1..] == l;
  }

  lemma LettersHas<E>(l: Letters<Id, E>, id: Id)
    requires Has(l, id)
    ensures InLetters(l, Only(id)) > 0
  {
    LettersAt(l, Find(l, id), Only(id));
  }

  lemma LettersEvict<E>(l: Letters<Id, E>, q: Query)
    requires l != []
    ensures InLetters(l, q) == Hit(q, l[0].0) + InLetters(l[1..], q)
  {
    LettersConcat([l[0]], l[1..], q);
    LettersOne(l[0], q);
    assert [l[0]] + l[1..] == l;
  }

  /** A new dead letter is one more, less the one evicted. */
  lemma LettersPut<E>(l: Letters<Id, E>, max: nat, id: Id, e: E, q: Query)
    requires InLetters(l, Only(id)) == 0
    ensures InLetters(Put(l, max, id, e), q) == InLetters(Evicted(l, max), q) + Hit(q, id)
  {
    var room := Evicted(l, max);
    if l != [] {
      LettersEvict(l, Only(id));
    }
    if Has(room, id) {
      LettersHas(room, id);
    }
    LettersConcat(room, [(id, e)], q);
    LettersOne((id, e), q);
  }

  lemma LettersDrop<E>(l: Letters<Id, E>, id: Id, q: Query)
    requires Has(l, id)
    ensures InLetters(Drop(l, id), q) == InLetters(l, q) - Hit(q, id)
  {
    var i := Find(l, id);
    LettersAt(l, i, q);
    LettersConcat(l[..i], l[i + 1..], q);
  }

  // ---- the pending entries lists ----

  function InPel(pel: Pel<Id>, q: Query): nat {
    match q
    case All => |pel|
    case Only(id) => if id in pel then 1 else 0
  }

  ghost function PelWeights(groups: map<string, Pel<Id>>, q: Query): map<string, nat> {
    map g | g in groups :: InPel(groups[g], q)
  }

  ghost function InPels(groups: map<string, Pel<Id>>, q: Query): nat {
    Total(PelWeights(groups, q))
  }

  lemma PelsUpdate(groups: map<string, Pel<Id>>, g: string, pel: Pel<Id>, q: Query)
    ensures InPels(groups[g := pel], q) ==
            InPels(groups, q) - (if g in groups then InPel(groups[g], q) else 0) + InPel(pel, q)
  {
    hide Total, InPel;
    TotalUpdate(PelWeights(groups, q), g, InPel(pel, q));
    assert PelWeights(groups[g := pel], q) == PelWeights(groups, q)[g := InPel(pel, q)];
  }

  lemma PelAtMostTotal(groups: map<string, Pel<Id>>, g: string, q: Query)
    requires g in groups
    ensures InPel(groups[g], q) <= InPels(groups, q)
  {
    TotalPick(PelWeights(groups, q), g);
  }
}
