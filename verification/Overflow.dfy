/** A run in which the retry delay overflows: with 39 retries allowed, the 38th rejection sends the
    message straight back to the ring. */
module Overflow {
  import opened Ring
  import opened Wheel
  import W = WheelTime
  import opened Backoff
  import opened Sums
  import G = Group
  import opened Machine = Topic
  import opened TopicMemory
  import opened TopicRuns
  import opened TopicCalls

  const LIMIT: int := 39

  /** An open topic with one group and the one message, which has failed k times. */
  ghost predicate Only1(m: Memory, k: nat) {
    && m.ring.capacity >= MIN_CAPACITY && !m.ring.closed && !m.closed && m.wheel.Valid() && !m.wheel.closed
    && m.dlqMax > 0 && m.store == map["m" := Info(k, LIMIT)]
  }

  ghost predicate Idle(w: Wheel<Id>)
    requires w.Valid()
  {
    forall id: Id, n: nat :: W.Waiting(w, id, n) == 0
  }

  /** The wheel has the one timer, with n ticks left. */
  ghost predicate Solo(w: Wheel<Id>, n: nat)
    requires w.Valid()
  {
    forall id: Id, n': nat :: W.Waiting(w, id, n') == if id == "m" && n' == n then 1 else 0
  }

  ghost predicate InRing(m: Memory, k: nat) {
    Only1(m, k) && m.ring.items == ["m"] && m.groups == map["g" := map[]] && Idle(m.wheel)
  }

  ghost predicate Out(m: Memory, k: nat) {
    Only1(m, k) && m.ring.items == [] && Idle(m.wheel) && Pending(m, "g", "m") && m.groups.Keys == {"g"} &&
    m.groups["g"].Keys == {"m"}
  }

  ghost predicate InWheel(m: Memory, k: nat, n: nat) {
    Only1(m, k) && m.ring.items == [] && m.groups == map["g" := map[]] && Solo(m.wheel, n)
  }

  // ---- the wheel with one timer ----

  lemma DueOfSolo(w: Wheel<Id>, n: nat)
    requires w.Valid() && Solo(w, n)
    ensures w.Due() == if n == 0 then ["m"] else []
  {
    hide W.Waiting, Wheel.Due;
    var due := w.Due();
    forall id: Id
      ensures multiset(due)[id] == if id == "m" && n == 0 then 1 else 0
    {
      W.DueIsZeroTicks(w, id);
    }
    forall i | 0 <= i < |due|
      ensures due[i] == "m" && n == 0
    {
      assert due[i] in multiset(due);
    }
    CountSame(due, "m");
  }

  lemma {:induction false} CountSame(xs: seq<Id>, x: Id)
    requires forall i :: 0 <= i < |xs| ==> xs[i] == x
    ensures multiset(xs)[x] == |xs|
  {
    if xs != [] {
      var n := |xs| - 1;
      CountSame(xs[..n], x);
      assert xs == xs[..n] + [xs[n]];
    }
  }

  lemma AdvanceOfSolo(w: Wheel<Id>, n: nat)
    requires w.Valid() && Solo(w, n)
    ensures n == 0 ==> Idle(w.Advance())
    ensures n > 0 ==> Solo(w.Advance(), n - 1)
  {
    hide W.Waiting, Wheel.Advance;
    forall id: Id, n': nat
      ensures W.Waiting(w.Advance(), id, n') == if id == "m" && n' + 1 == n then 1 else 0
    {
      W.AdvanceTicks(w, id, n');
    }
  }

  lemma AddToIdle(w: Wheel<Id>, ticks: nat)
    requires w.Valid() && Idle(w) && !w.closed
    ensures Solo(w.Add("m", ticks), ticks)
  {
    hide W.Waiting, Wheel.Add;
    forall id: Id, n': nat
      ensures W.Waiting(w.Add("m", ticks), id, n') == if id == "m" && n' == ticks then 1 else 0
    {
      W.AddWaits(w, "m", ticks, id, n');
    }
  }

  // ---- what the calls make of it ----

  lemma Leased(m: Memory, k: nat, now: int)
    requires InRing(m, k)
    ensures Out(LeasedTo(m, "g", "w", now), k)
  {
    hide Idle;
    assert ["m"][1..] == [];
  }

  lemma Rejected(m: Memory, k: nat)
    requires Out(m, k) && k + 1 <= 37
    ensures Sane(m) && Delay(k + 1) > 0 && InWheel(NackedBy(m, "g", "m"), k + 1, Ticks(Delay(k + 1), TICK))
  {
    hide Idle, Solo, Delay, Ticks, Target, Rounds;
    NoOverflow(k + 1);
    AddToIdle(m.wheel, Ticks(Delay(k + 1), TICK));
    assert m.groups["g"] - {"m"} == map[];
    assert m.groups["g" := map[]] == map["g" := map[]];
    assert RouteAfter(Info(k, LIMIT), true) == G.ToWheel(Delay(k + 1));
  }

  lemma NoOverflow(retry: nat)
    requires 1 <= retry <= 37
    ensures Delay(retry) > 0
  {
    DelayIsAsIntended(retry);
  }

  lemma Ticked(m: Memory, k: nat, n: nat)
    requires InWheel(m, k, n)
    ensures n > 0 ==> InWheel(TickedOn(m), k, n - 1)
    ensures n == 0 ==> InRing(TickedOn(m), k)
  {
    hide Idle, Solo, Wheel.Due, Retained;
    DueOfSolo(m.wheel, n);
    AdvanceOfSolo(m.wheel, n);
    assert ["m"][1..] == [];
  }

  // ---- the run ----

  /** The run goes on from `r`, with no call under way. */
  ghost predicate From(r: Run, r': Run) {
    Ongoing(r') && Last(r').calls == map[] && r.trace <= r'.trace && r.steps <= r'.steps
  }

  lemma {:induction false} ComesBack(r: Run, k: nat, n: nat) returns (r': Run)
    requires Ongoing(r) && Last(r).calls == map[] && InWheel(MemoryOf(Last(r)), k, n)
    ensures From(r, r') && InRing(MemoryOf(Last(r')), k)
    decreases n
  {
    hide IsRun, Laws, Sound, MemoryOf, Solo, Idle, Wheel.Valid, TickSteps, TickedOn;
    Ticked(MemoryOf(Last(r)), k, n);
    r' := TickRun(r, 0) by { WheelIsValid(Last(r), k, n); }
    if n > 0 {
      r' := ComesBack(r', k, n - 1);
    }
  }

  lemma WheelIsValid(s: State, k: nat, n: nat)
    requires InWheel(MemoryOf(s), k, n)
    ensures s.wheel.Valid()
  {
  }

  lemma FailsOnceMore(r: Run, k: nat) returns (r': Run)
    requires Ongoing(r) && Last(r).calls == map[] && InRing(MemoryOf(Last(r)), k) && k + 1 <= 37
    ensures From(r, r') && InRing(MemoryOf(Last(r')), k + 1)
  {
    hide IsRun, Laws, Sound, Solo, Idle, Wheel.Valid, LeaseSteps, LeasedTo, NackSteps, NackedBy, Delay, Ticks;
    var m, now := MemoryOf(Last(r)), Last(r).now;
    Leased(m, k, now);
    r' := LeaseRun(r, 0, "g", "w", now);
    Rejected(LeasedTo(m, "g", "w", now), k);
    r' := NackRun(r', 0, "g", "m");
    r' := ComesBack(r', k + 1, Ticks(Delay(k + 1), TICK));
  }

  lemma {:induction false} FailsOften(r: Run, k: nat) returns (r': Run)
    requires Ongoing(r) && Last(r).calls == map[] && InRing(MemoryOf(Last(r)), 0) && k <= 37
    ensures From(r, r') && InRing(MemoryOf(Last(r')), k)
    decreases k
  {
    hide IsRun, Laws, Sound, MemoryOf, InRing;
    r' := r;
    if k > 0 {
      r' := FailsOften(r, k - 1);
      r' := FailsOnceMore(r', k - 1);
    }
  }

  /** From the 37th retry on: the next rejection is routed straight to the ring. */
  lemma GoesStraight(r: Run) returns (r': Run, i: nat)
    requires Ongoing(r) && Last(r).calls == map[] && Out(MemoryOf(Last(r)), 37)
    ensures Ongoing(r') && i < |r'.steps| && |r'.trace| == |r'.steps| + 1 && r'.steps[i] == Route(0)
    ensures var s := r'.trace[i];
            && 0 in s.calls && s.calls[0] == Routing(["m"], true, false) && s.store == map["m" := Info(37, LIMIT)]
            && s.ring.items == [] && r'.trace[i + 1].ring.items == ["m"] && r'.trace[i + 1].wheel == s.wheel
  {
    hide IsRun, Laws, Sound, Does, Delay;
    var s := Last(r);
    var m := MemoryOf(s);
    var m1 := m.(groups := m.groups["g" := m.groups["g"] - {"m"}]);
    NackDoes(s, 0, "g", "m");
    var r1 := TakeStep(r, Nack(0, "g", "m"), m1, s.calls[0 := Routing(["m"], true, false)]);
    RouteDoes(Last(r1), 0, ["m"], true);
    FirstOverflow();
    assert RouteAfter(Info(37, LIMIT), true) == G.ToWheel(Delay(38));
    i := |r1.steps|;
    r' := TakeStep(r1, Route(0), Routed(m1, "m", true), Last(r1).calls[0 := Routing(["m"][1..], true, false)]);
    assert r'.trace[i] == Last(r1) && r'.trace[i + 1] == Last(r');
  }

  /** With 39 retries allowed there is a run in which a rejected message, instead of waiting for ten
      seconds, is back in the ring as soon as it is routed. */
  lemma RetryThirtyEightIsNotDelayed() returns (trace: seq<State>, steps: seq<Step>, i: nat)
    ensures IsRun(trace, steps) && i < |steps| && steps[i] == Route(0)
    ensures var s := trace[i];
            && 0 in s.calls && s.calls[0] == Routing(["m"], true, false) && s.store == map["m" := Info(37, LIMIT)]
            && s.ring.items == [] && trace[i + 1].ring.items == ["m"] && trace[i + 1].wheel == s.wheel
  {
    hide IsRun, Laws, Sound, Solo, Idle, LeaseSteps, LeasedTo, PublishSteps, PublishedTo, Start, Out, InRing, MemoryOf;
    var r := Run([Start(MIN_CAPACITY, 3600, 50000, 0)], []);
    StartGoesOn(MIN_CAPACITY, 3600, 50000, 0);
    Begin();
    r := PublishRun(r, 0, "m", LIMIT, false);
    r := JoinRun(r, "g");
    r := FailsOften(r, 37);
    var m, now := MemoryOf(Last(r)), Last(r).now;
    Leased(m, 37, now);
    GroupIsThere(Last(r), 37);
    r := LeaseRun(r, 0, "g", "w", now);
    r, i := GoesStraight(r);
    trace, steps := r.trace, r.steps;
  }

  lemma GroupIsThere(s: State, k: nat)
    requires InRing(MemoryOf(s), k)
    ensures "g" in s.groups
  {
    hide Idle;
  }

  lemma Begin()
    ensures var s := Start(MIN_CAPACITY, 3600, 50000, 0);
            && s.calls == map[] && s.store == map[]
            && InRing(JoinedBy(PublishedTo(MemoryOf(s), "m", LIMIT, false), "g"), 0)
  {
    var w: Wheel<Id> := Wheel(0, seq(3600, _ => []), false);
    assert Idle(w) by {
      hide Target, Rounds;
    }
    hide Idle;
    assert [] + ["m"] == ["m"];
  }
}
