/** The order in which timers that are due at the same tick fire. */
module WheelOrder {
  import opened Bits
  import opened Wheel
  import opened WheelTime

  /** In the list, x comes before y. */
  ghost predicate Before<T>(s: seq<T>, x: T, y: T) {
    exists i, j :: 0 <= i < j < |s| && s[i] == x && s[j] == y
  }

  lemma BeforeInPrefix<T>(s: seq<T>, t: seq<T>, x: T, y: T)
    requires Before(s, x, y)
    ensures Before(s + t, x, y)
  {
    var i, j :| 0 <= i < j < |s| && s[i] == x && s[j] == y;
    assert (s + t)[i] == x && (s + t)[j] == y;
  }

  lemma BeforeLast<T>(s: seq<T>, x: T, y: T)
    requires x in s
    ensures Before(s + [y], x, y)
  {
    var i :| 0 <= i < |s| && s[i] == x;
    assert (s + [y])[i] == x && (s + [y])[|s|] == y;
  }

  lemma BeforeInTail<T>(s: seq<T>, n: nat, x: T, y: T)
    requires n < |s| && Before(s[n..], x, y) && !(s[n] == x && y in s[n + 1..])
    ensures Before(s[n + 1..], x, y)
  {
    var i, j :| 0 <= i < j < |s[n..]| && s[n..][i] == x && s[n..][j] == y;
    assert s[n + 1..][j - 1] == y;
    assert i > 0 ==> s[n + 1..][i - 1] == x;
  }

  lemma {:induction false} ExpiredHas<T>(b: seq<Timer<T>>, n: nat, x: T)
    requires n <= |b| && Timer(x, 0) in b[n..]
    ensures x in Expired(b, n)
    decreases |b| - n
  {
    if b[n] != Timer(x, 0) {
      assert b[n..] == [b[n]] + b[n + 1..];
      ExpiredHas(b, n + 1, x);
    }
  }

  lemma {:induction false} RetainedHas<T>(b: seq<Timer<T>>, n: nat, x: T, r: nat)
    requires n <= |b| && Timer(x, r + 1) in b[n..]
    ensures Timer(x, r) in Retained(b, n)
    decreases |b| - n
  {
    if b[n] != Timer(x, r + 1) {
      assert b[n..] == [b[n]] + b[n + 1..];
      RetainedHas(b, n + 1, x, r);
    }
  }

  /** The walk starts at the head, which is written last: what fires does so in the opposite order of
      linking. */
  lemma {:induction false} ExpiredInWalkingOrder<T>(b: seq<Timer<T>>, n: nat, x: T, y: T)
    requires n <= |b| && Before(b[n..], Timer(x, 0), Timer(y, 0))
    ensures Before(Expired(b, n), y, x)
    decreases |b| - n
  {
    hide Expired;
    SplitNone(b);
    SplitStep(b, n);
    if b[n] == Timer(x, 0) && Timer(y, 0) in b[n + 1..] {
      ExpiredHas(b, n + 1, y);
      BeforeLast(Expired(b, n + 1), y, x);
    } else {
      BeforeInTail(b, n, Timer(x, 0), Timer(y, 0));
      ExpiredInWalkingOrder(b, n + 1, x, y);
      BeforeInPrefix(Expired(b, n + 1), if b[n].rounds == 0 then [b[n].msg] else [], y, x);
      assert b[n].rounds != 0 ==> Expired(b, n + 1) + [] == Expired(b, n + 1);
    }
  }

  /** What stays is turned round. */
  lemma {:induction false} RetainedTurnsRound<T>(b: seq<Timer<T>>, n: nat, x: T, y: T, r: nat)
    requires n <= |b| && Before(b[n..], Timer(x, r + 1), Timer(y, r + 1))
    ensures Before(Retained(b, n), Timer(y, r), Timer(x, r))
    decreases |b| - n
  {
    hide Retained;
    SplitNone(b);
    SplitStep(b, n);
    var more := if b[n].rounds == 0 then [] else [Timer(b[n].msg, b[n].rounds - 1)];
    if b[n] == Timer(x, r + 1) && Timer(y, r + 1) in b[n + 1..] {
      RetainedHas(b, n + 1, y, r);
      BeforeLast(Retained(b, n + 1), Timer(y, r), Timer(x, r));
    } else {
      BeforeInTail(b, n, Timer(x, r + 1), Timer(y, r + 1));
      RetainedTurnsRound(b, n + 1, x, y, r);
      BeforeInPrefix(Retained(b, n + 1), more, Timer(y, r), Timer(x, r));
      assert Retained(b, n + 1) + [] == Retained(b, n + 1);
    }
  }

  /** Both have n ticks left, and y is nearer to the head of their bucket. */
  ghost predicate Paired<T>(w: Wheel<T>, x: T, y: T, n: nat)
    requires w.Valid()
  {
    var r := Rounds(n, |w.buckets|);
    Before(w.buckets[Target(w.current, n, |w.buckets|)], Timer(x, r), Timer(y, r))
  }

  lemma AddKeepsPair<T>(w: Wheel<T>, msg: T, ticks: nat, x: T, y: T, n: nat)
    requires w.Valid() && Paired(w, x, y, n)
    ensures Paired(w.Add(msg, ticks), x, y, n)
  {
    hide Target, Rounds, Before;
    var slots := |w.buckets|;
    var s, r := Target(w.current, n, slots), Rounds(n, slots);
    BeforeInPrefix(w.buckets[s], [Timer(msg, Rounds(ticks, slots))], Timer(x, r), Timer(y, r));
  }

  lemma AddingBothPairs<T>(w: Wheel<T>, x: T, y: T, ticks: nat)
    requires w.Valid() && !w.closed
    ensures Paired(w.Add(x, ticks).Add(y, ticks), x, y, ticks)
  {
    hide Target, Rounds, Before;
    var slots := |w.buckets|;
    var s, r := Target(w.current, ticks, slots), Rounds(ticks, slots);
    var b := w.buckets[s] + [Timer(x, r)];
    assert b[|w.buckets[s]|] == Timer(x, r);
    BeforeLast(b, Timer(x, r), Timer(y, r));
  }

  /** An advance that visits their bucket and lets them stay turns the two round. */
  lemma AdvanceOfPair<T>(w: Wheel<T>, x: T, y: T, n: nat)
    requires w.Valid() && Paired(w, x, y, n + 1)
    ensures var even := Rounds(n + 1, |w.buckets|) == Rounds(n, |w.buckets|);
            Paired(w.Advance(), if even then x else y, if even then y else x, n)
  {
    var slots, cur := |w.buckets|, w.current;
    AdvancePlaces(cur, n, slots);
    hide Target, Rounds, Retained, Before;
    var b := w.buckets[cur];
    if Target(cur, n + 1, slots) == cur {
      assert b[0..] == b;
      RetainedTurnsRound(b, 0, x, y, Rounds(n, slots));
    }
  }

  lemma DueOfPair<T>(w: Wheel<T>, x: T, y: T)
    requires w.Valid() && Paired(w, x, y, 0)
    ensures Before(w.Due(), y, x)
  {
    TargetShape(w.current, 0, |w.buckets|);
    DivModUnique(0, |w.buckets|, 0, 0);
    hide Expired, Before;
    assert w.buckets[w.current][0..] == w.buckets[w.current];
    ExpiredInWalkingOrder(w.buckets[w.current], 0, x, y);
  }

  lemma FiredUnfold<T>(w: Wheel<T>, ops: seq<Op<T>>, interval: int)
    requires w.Valid() && interval > 0
    ensures ops == [] ==> Fired(w, ops, interval) == []
    ensures ops != [] ==>
              Fired(w, ops, interval) ==
              (if ops[0].Advance? then [w.Due()] else []) + Fired(Next(w, ops[0], interval), ops[1..], interval)
  {
  }

  /** Whatever else happens to the wheel in between, the pair fires in this order. */
  lemma {:induction false} PairFires<T>(w: Wheel<T>, ops: seq<Op<T>>, interval: int, x: T, y: T, k: nat)
    requires w.Valid() && interval > 0 && Paired(w, x, y, k) && k < |Fired(w, ops, interval)|
    ensures var even := Rounds(k, |w.buckets|) % 2 == 0;
            Before(Fired(w, ops, interval)[k], if even then y else x, if even then x else y)
    decreases |ops|
  {
    hide Paired, Before, Rounds, Wheel.Due, Wheel.Add, Wheel.Advance, Ticks, Fired;
    FiredUnfold(w, ops, interval);
    var w', rest := Next(w, ops[0], interval), ops[1..];
    match ops[0]
    case Add(m, delay) =>
      if delay > 0 {
        AddKeepsPair(w, m, Ticks(delay, interval), x, y, k);
      }
      PairFires(w', rest, interval, x, y, k);
    case Stop =>
      StopKeepsPair(w, x, y, k);
      PairFires(w', rest, interval, x, y, k);
    case Advance =>
      if k == 0 {
        NoRounds(|w.buckets|);
        DueOfPair(w, x, y);
      } else {
        AdvanceOfPair(w, x, y, k - 1);
        RoundsFall(w, k - 1);
        var same := Rounds(k, |w.buckets|) == Rounds(k - 1, |w.buckets|);
        PairFires(w', rest, interval, if same then x else y, if same then y else x, k - 1);
      }
  }

  lemma StopKeepsPair<T>(w: Wheel<T>, x: T, y: T, k: nat)
    requires w.Valid() && Paired(w, x, y, k)
    ensures Paired(w.Stop(), x, y, k)
  {
  }

  lemma NoRounds(slots: nat)
    requires slots > 0
    ensures Rounds(0, slots) == 0
  {
    DivModUnique(0, slots, 0, 0);
  }

  lemma RoundsFall<T>(w: Wheel<T>, n: nat)
    requires w.Valid()
    ensures Rounds(n, |w.buckets|) <= Rounds(n + 1, |w.buckets|) <= Rounds(n, |w.buckets|) + 1
  {
    AdvancePlaces(w.current, n, |w.buckets|);
  }

  /** Of two messages that are scheduled one after the other with the same delay, the later one fires
      first, unless their timers are passed over an odd number of times: every time turns them round. */
  lemma LaterFiresFirst<T>(w: Wheel<T>, x: T, y: T, delay: int, interval: int, ops: seq<Op<T>>)
    requires w.Valid() && !w.closed && interval > 0 && delay > 0
    requires var ticks := if delay < interval then 1 else delay / interval;
             var all := [Op.Add(x, delay), Op.Add(y, delay)] + ops;
             ticks >= 0 && ticks < |Fired(w, all, interval)|
    ensures var ticks := if delay < interval then 1 else delay / interval;
            var batch := Fired(w, [Op.Add(x, delay), Op.Add(y, delay)] + ops, interval)[ticks];
            if ticks / |w.buckets| % 2 == 0 then Before(batch, y, x) else Before(batch, x, y)
  {
    var ticks := Ticks(delay, interval);
    TicksAre(delay, interval);
    var all := [Op.Add(x, delay), Op.Add(y, delay)] + ops;
    var w1 := w.Add(x, ticks);
    var w2 := w1.Add(y, ticks);
    hide Before, Ticks, Target;
    assert all[1..] == [Op.Add(y, delay)] + ops && all[1..][1..] == ops;
    assert Fired(w, all, interval) == Fired(w1, all[1..], interval) == Fired(w2, ops, interval);
    AddingBothPairs(w, x, y, ticks);
    PairFires(w2, ops, interval, x, y, ticks);
  }
}
