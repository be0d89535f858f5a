/** What the timing wheel promises: it is a bag of (message, ticks left), and a timer set for n
    ticks fires once, on the (n + 1)-th advance after it, whatever else happens to the wheel. */
module WheelTime {
  import opened Bits
  import opened Wheel

  /** How many copies of `msg` have exactly n more advances to sit out. */
  ghost function Waiting<T>(w: Wheel<T>, msg: T, n: nat): nat
    requires w.Valid()
  {
    multiset(w.buckets[Target(w.current, n, |w.buckets|)])[Timer(msg, Rounds(n, |w.buckets|))]
  }

  lemma TargetShape(current: nat, n: nat, slots: nat)
    requires slots > 0 && current < slots
    ensures Target(current, n, slots) ==
            if current + n % slots < slots then current + n % slots else current + n % slots - slots
  {
    var y := current + n % slots;
    if y < slots {
      DivModUnique(y, slots, 0, y);
    } else {
      DivModUnique(y, slots, 1, y - slots);
    }
  }

  /** Slot and rounds together determine the number of ticks. */
  lemma PlaceIsInjective(current: nat, n: nat, n': nat, slots: nat)
    requires slots > 0 && current < slots
    requires Target(current, n, slots) == Target(current, n', slots)
    requires Rounds(n, slots) == Rounds(n', slots)
    ensures n == n'
  {
    TargetShape(current, n, slots);
    TargetShape(current, n', slots);
    assert n % slots == n' % slots;
    assert n == Rounds(n, slots) * slots + n % slots;
    assert n' == Rounds(n', slots) * slots + n' % slots;
  }

  lemma NextTick(n: nat, slots: nat)
    requires slots > 0
    ensures n % slots == slots - 1 ==> (n + 1) % slots == 0 && (n + 1) / slots == n / slots + 1
    ensures n % slots < slots - 1 ==> (n + 1) % slots == n % slots + 1 && (n + 1) / slots == n / slots
  {
    var q, r := n / slots, n % slots;
    assert n == q * slots + r;
    if r == slots - 1 {
      assert n + 1 == (q + 1) * slots + 0;
      DivModUnique(n + 1, slots, q + 1, 0);
    } else {
      DivModUnique(n + 1, slots, q, r + 1);
    }
  }

  lemma CountAppend<X>(xs: seq<X>, y: X, x: X)
    ensures multiset(xs + [y])[x] == multiset(xs)[x] + if x == y then 1 else 0
  {
  }

  lemma CountFrom<X>(xs: seq<X>, n: nat, x: X)
    requires n < |xs|
    ensures multiset(xs[n..])[x] == multiset(xs[n + 1..])[x] + if x == xs[n] then 1 else 0
  {
    assert xs[n..] == [xs[n]] + xs[n + 1..];
  }

  lemma {:induction false} ExpiredAreZeroRounds<T>(b: seq<Timer<T>>, n: nat, msg: T)
    requires n <= |b|
    ensures multiset(Expired(b, n))[msg] == multiset(b[n..])[Timer(msg, 0)]
    decreases |b| - n
  {
    hide Expired;
    SplitNone(b);
    if n < |b| {
      ExpiredAreZeroRounds(b, n + 1, msg);
      CountFrom(b, n, Timer(msg, 0));
      SplitStep(b, n);
      CountAppend(Expired(b, n + 1), b[n].msg, msg);
    }
  }

  lemma {:induction false} RetainedLoseARound<T>(b: seq<Timer<T>>, n: nat, msg: T, r: nat)
    requires n <= |b|
    ensures multiset(Retained(b, n))[Timer(msg, r)] == multiset(b[n..])[Timer(msg, r + 1)]
    decreases |b| - n
  {
    hide Retained;
    SplitNone(b);
    if n < |b| {
      RetainedLoseARound(b, n + 1, msg, r);
      CountFrom(b, n, Timer(msg, r + 1));
      SplitStep(b, n);
      if b[n].rounds > 0 {
        CountAppend(Retained(b, n + 1), Timer(b[n].msg, b[n].rounds - 1), Timer(msg, r));
      }
    }
  }

  /** The ticks a timer in bucket `slot` has left. */
  function TicksLeft<T>(w: Wheel<T>, slot: nat, rounds: nat): nat
    requires w.Valid() && slot < |w.buckets|
  {
    rounds * |w.buckets| + if slot >= w.current then slot - w.current else slot + |w.buckets| - w.current
  }

  /** The bag leaves out no timer of any bucket. */
  lemma EveryTimerWaits<T>(w: Wheel<T>, slot: nat, t: Timer<T>)
    requires w.Valid() && slot < |w.buckets|
    ensures multiset(w.buckets[slot])[t] == Waiting(w, t.msg, TicksLeft(w, slot, t.rounds))
  {
    var slots := |w.buckets|;
    var ahead := if slot >= w.current then slot - w.current else slot + slots - w.current;
    var n := TicksLeft(w, slot, t.rounds);
    DivModUnique(n, slots, t.rounds, ahead);
    TargetShape(w.current, n, slots);
  }

  /** Adding puts one copy in the bag, at exactly the requested number of ticks. */
  lemma AddWaits<T>(w: Wheel<T>, msg: T, ticks: nat, msg': T, n: nat)
    requires w.Valid()
    ensures Waiting(w.Add(msg, ticks), msg', n) ==
            Waiting(w, msg', n) + if !w.closed && msg == msg' && ticks == n then 1 else 0
  {
    var slots := |w.buckets|;
    hide Target, Rounds;
    if Target(w.current, ticks, slots) == Target(w.current, n, slots) &&
       Rounds(ticks, slots) == Rounds(n, slots)
    {
      PlaceIsInjective(w.current, ticks, n, slots);
    }
  }

  /** After an advance, n ticks lead to the place that n + 1 ticks led to before; it is the bucket
      just visited exactly when a round was used up. */
  lemma AdvancePlaces(cur: nat, n: nat, slots: nat)
    requires cur < slots
    ensures Target((cur + 1) % slots, n, slots) == Target(cur, n + 1, slots)
    ensures Target(cur, n + 1, slots) == cur ==> Rounds(n + 1, slots) == Rounds(n, slots) + 1
    ensures Target(cur, n + 1, slots) != cur ==> Rounds(n + 1, slots) == Rounds(n, slots)
  {
    NextTick(n, slots);
    if cur + 1 < slots {
      DivModUnique(cur + 1, slots, 0, cur + 1);
    } else {
      DivModUnique(cur + 1, slots, 1, 0);
    }
    TargetShape((cur + 1) % slots, n, slots);
    TargetShape(cur, n + 1, slots);
  }

  /** Advancing takes one tick off every timer that has one left. */
  lemma AdvanceTicks<T>(w: Wheel<T>, msg: T, n: nat)
    requires w.Valid()
    ensures Waiting(w.Advance(), msg, n) == Waiting(w, msg, n + 1)
  {
    hide Target, Rounds, Retained;
    var slots, cur := |w.buckets|, w.current;
    AdvancePlaces(cur, n, slots);
    RetainedLoseARound(w.buckets[cur], 0, msg, Rounds(n, slots));
    assert w.buckets[cur][0..] == w.buckets[cur];
  }

  /** What fires is what had no tick left. */
  lemma DueIsZeroTicks<T>(w: Wheel<T>, msg: T)
    requires w.Valid()
    ensures multiset(w.Due())[msg] == Waiting(w, msg, 0)
  {
    var b := w.buckets[w.current];
    TargetShape(w.current, 0, |w.buckets|);
    DivModUnique(0, |w.buckets|, 0, 0);
    ExpiredAreZeroRounds(b, 0, msg);
    assert b[0..] == b;
  }

  datatype Op<T> = Add(msg: T, delay: int) | Advance | Stop

  function Next<T>(w: Wheel<T>, op: Op<T>, interval: int): (w': Wheel<T>)
    requires w.Valid() && interval > 0
    ensures w'.Valid()
  {
    match op
    case Add(msg, delay) => if delay <= 0 then w else w.Add(msg, Ticks(delay, interval))
    case Advance => w.Advance()
    case Stop => w.Stop()
  }

  /** The batches handed to the expiry callback, one per advance. */
  function Fired<T>(w: Wheel<T>, ops: seq<Op<T>>, interval: int): seq<seq<T>>
    requires w.Valid() && interval > 0
    decreases |ops|
  {
    if ops == [] then []
    else (if ops[0].Advance? then [w.Due()] else []) + Fired(Next(w, ops[0], interval), ops[1..], interval)
  }

  predicate Adds<T(==)>(ops: seq<Op<T>>, msg: T) {
    exists i :: 0 <= i < |ops| && ops[i].Add? && ops[i].msg == msg
  }

  /** The k-th batch from now fires a message as often as it waits for k ticks, no matter what
      other messages are added in between and whether the wheel is stopped to new ones. */
  lemma {:induction false} FiresWhenWaiting<T>(w: Wheel<T>, ops: seq<Op<T>>, interval: int, msg: T, k: nat)
    requires w.Valid() && interval > 0 && !Adds(ops, msg)
    requires k < |Fired(w, ops, interval)|
    ensures multiset(Fired(w, ops, interval)[k])[msg] == Waiting(w, msg, k)
    decreases |ops|
  {
    var w', rest := Next(w, ops[0], interval), ops[1..];
    assert !Adds(rest, msg) by {
      assert forall i :: 0 <= i < |rest| ==> rest[i] == ops[i + 1];
    }
    match ops[0]
    case Add(m, delay) =>
      FiresWhenWaiting(w', rest, interval, msg, k);
      if delay > 0 {
        AddWaits(w, m, Ticks(delay, interval), msg, k);
      }
    case Stop =>
      FiresWhenWaiting(w', rest, interval, msg, k);
    case Advance =>
      if k == 0 {
        DueIsZeroTicks(w, msg);
      } else {
        FiresWhenWaiting(w', rest, interval, msg, k - 1);
        AdvanceTicks(w, msg, k - 1);
      }
  }

  lemma PositiveQuotient(x: int, d: int)
    requires 0 < d <= x
    ensures x / d >= 1
  {
    assert x == (x / d) * d + x % d;
  }

  lemma TicksAre(delay: int, interval: int)
    requires interval > 0 && delay > 0
    ensures Ticks(delay, interval) == if delay < interval then 1 else delay / interval
  {
    if delay < interval {
      DivModUnique(delay, interval, 0, delay);
    } else {
      PositiveQuotient(delay, interval);
    }
  }

  /** A message that is not in the wheel, added once to an open wheel with a positive delay, fires
      exactly once: on advance number max(1, delay / interval) + 1. */
  lemma AddedFiresExactlyOnce<T>(w: Wheel<T>, msg: T, delay: int, interval: int, ops: seq<Op<T>>, k: nat)
    requires w.Valid() && !w.closed && interval > 0 && delay > 0
    requires forall n :: Waiting(w, msg, n) == 0
    requires !Adds(ops, msg)
    requires k < |Fired(Next(w, Op.Add(msg, delay), interval), ops, interval)|
    ensures multiset(Fired(Next(w, Op.Add(msg, delay), interval), ops, interval)[k])[msg] ==
            if k == (if delay < interval then 1 else delay / interval) then 1 else 0
  {
    var ticks := Ticks(delay, interval);
    TicksAre(delay, interval);
    FiresWhenWaiting(w.Add(msg, ticks), ops, interval, msg, k);
    AddWaits(w, msg, ticks, msg, k);
  }
}
