/** The waiting protocol of `PopWait`: producers signal, late timers and `Close` broadcast, and
    consumers go to sleep only inside the critical section that found the ring empty.

    Every section of internal/queue/ring.go that runs under the ring's mutex is one step. */
module PopWait {
  import opened Ring

  /** One blocked call; only a call with a non-zero timeout is bounded. */
  datatype Waiter = Waiter(id: nat, bounded: bool)

  /** `asleep` waits on the condition variable; `woken` was notified and has yet to get the
      mutex back. `pushed` and `departed` record the past: what was
      accepted, and what left, taken by a consumer or dropped by saturation. */
  datatype Monitor<T> = Monitor(
    ring: Deque<T>,
    asleep: set<Waiter>,
    woken: set<Waiter>,
    pushed: seq<T>,
    departed: seq<T>)

  datatype Step<T> =
    | Push(item: T, wake: Waiter)
    | PushFront(item: T, wake: Waiter)
    | Pop
    | PopBatch(max: int)
    | Enter(waiter: Waiter, expired: bool)
    | Resume(waiter: Waiter, expired: bool)
    | TimerFires
    | Close

  function Start<T>(capacity: nat): Monitor<T> {
    Monitor(Empty(capacity), {}, {}, [], [])
  }

  predicate Enabled<T>(m: Monitor<T>, s: Step<T>) {
    match s
    case Push(_, wake) => m.asleep != {} ==> wake in m.asleep
    case PushFront(_, wake) => m.asleep != {} ==> wake in m.asleep
    case Enter(w, expired) => w !in m.asleep && w !in m.woken && (expired ==> w.bounded)
    case Resume(w, expired) => w in m.woken && (expired ==> w.bounded)
    case _ => true
  }

  function Signal<T>(m: Monitor<T>, wake: Waiter): Monitor<T> {
    if m.asleep == {} then m
    else m.(asleep := m.asleep - {wake}, woken := m.woken + {wake})
  }

  function Broadcast<T>(m: Monitor<T>): Monitor<T> {
    m.(asleep := {}, woken := m.woken + m.asleep)
  }

  function Take<T>(m: Monitor<T>, n: nat): Monitor<T>
    requires n <= |m.ring.items|
  {
    m.(ring := m.ring.Drop(n), departed := m.departed + m.ring.items[..n])
  }

  /** One pass through the loop by a waiter that holds the mutex and is on neither list. */
  function Pass<T>(m: Monitor<T>, w: Waiter, expired: bool): Monitor<T> {
    match m.ring.WaitPass(expired)
    case Got(_) => Take(m, 1)
    case GiveUp => m
    case Sleep => m.(asleep := m.asleep + {w})
  }

  function Next<T>(m: Monitor<T>, s: Step<T>): Monitor<T> {
    match s
    case Push(x, wake) =>
      if m.ring.closed then m
      else
        var dropped := if m.ring.Saturated() then [m.ring.items[0]] else [];
        Signal(m.(ring := m.ring.Push(x), pushed := m.pushed + [x], departed := m.departed + dropped), wake)
    case PushFront(x, wake) =>
      if m.ring.closed then m
      else
        var dropped := if m.ring.Saturated() then [m.ring.items[|m.ring.items| - 1]] else [];
        Signal(m.(ring := m.ring.PushFront(x), pushed := m.pushed + [x], departed := m.departed + dropped), wake)
    case Pop => if m.ring.items == [] then m else Take(m, 1)
    case PopBatch(max) =>
      if max <= 0 then m
      else Take(m, if max < |m.ring.items| then max else |m.ring.items|)
    case Enter(w, expired) => Pass(m, w, expired)
    case Resume(w, expired) => Pass(m.(woken := m.woken - {w}), w, expired)
    case TimerFires => Broadcast(m)
    case Close => Broadcast(m.(ring := m.ring.Close()))
  }

  function Run<T>(m: Monitor<T>, steps: seq<Step<T>>): Monitor<T> {
    if steps == [] then m else Next(Run(m, steps[..|steps| - 1]), steps[|steps| - 1])
  }

  predicate Legal<T>(m: Monitor<T>, steps: seq<Step<T>>) {
    steps == [] ||
    (Legal(m, steps[..|steps| - 1]) && Enabled(Run(m, steps[..|steps| - 1]), steps[|steps| - 1]))
  }

  /** A sleeper never coexists with more messages than there are wake-ups on their way. */
  predicate NoLostWakeUp<T>(m: Monitor<T>) {
    m.asleep != {} ==> |m.ring.items| <= |m.woken|
  }

  predicate Inv<T>(m: Monitor<T>) {
    && m.ring.Valid()
    && m.asleep !! m.woken
    && NoLostWakeUp(m)
    && (m.ring.closed ==> m.asleep == {})
  }

  lemma SignalKeepsInv<T>(m: Monitor<T>, pushed: Monitor<T>, wake: Waiter)
    requires Inv(m) && !m.ring.closed && (m.asleep != {} ==> wake in m.asleep)
    requires pushed.asleep == m.asleep && pushed.woken == m.woken
    requires pushed.ring.Valid() && !pushed.ring.closed
    requires |pushed.ring.items| <= |m.ring.items| + 1
    ensures Inv(Signal(pushed, wake))
  {
    if m.asleep != {} {
      assert |m.woken + {wake}| == |m.woken| + 1;
    }
  }

  lemma ResumeKeepsInv<T>(m: Monitor<T>, w: Waiter, expired: bool)
    requires Inv(m) && w in m.woken
    ensures Inv(Pass(m.(woken := m.woken - {w}), w, expired))
  {
    assert |m.woken - {w}| == |m.woken| - 1;
  }

  lemma StepKeepsInv<T>(m: Monitor<T>, s: Step<T>)
    requires Inv(m) && Enabled(m, s)
    ensures Inv(Next(m, s))
  {
    match s
    case Push(x, wake) =>
      if !m.ring.closed {
        SignalKeepsInv(m, m.(ring := m.ring.Push(x)), wake);
      }
    case PushFront(x, wake) =>
      if !m.ring.closed {
        SignalKeepsInv(m, m.(ring := m.ring.PushFront(x)), wake);
      }
    case Resume(w, expired) => ResumeKeepsInv(m, w, expired);
    case _ =>
  }

  /** Whatever producers, bounded and unbounded waiters, timers and `Close` do and in whatever
      order, no wake-up is lost, and a closed ring has no sleeper. */
  lemma {:induction false} NoWakeUpIsLost<T>(capacity: nat, steps: seq<Step<T>>)
    requires capacity >= MIN_CAPACITY && Legal(Start(capacity), steps)
    ensures Inv(Run(Start(capacity), steps))
    decreases |steps|
  {
    if steps != [] {
      NoWakeUpIsLost(capacity, steps[..|steps| - 1]);
      StepKeepsInv(Run(Start(capacity), steps[..|steps| - 1]), steps[|steps| - 1]);
    }
  }

  /** `steps` resumes each waiter of `waiters` once. */
  ghost predicate ResumesAll<T>(waiters: set<Waiter>, steps: seq<Step<T>>) {
    if steps == [] then waiters == {}
    else
      && steps[0].Resume?
      && steps[0].waiter in waiters
      && (steps[0].expired ==> steps[0].waiter.bounded)
      && ResumesAll(waiters - {steps[0].waiter}, steps[1..])
  }

  function RunFrom<T>(m: Monitor<T>, steps: seq<Step<T>>): Monitor<T>
    decreases |steps|
  {
    if steps == [] then m else RunFrom(Next(m, steps[0]), steps[1..])
  }

  lemma SliceOfRest<T>(xs: seq<T>, j: nat, k: nat)
    requires j + k <= |xs|
    ensures xs[j..][k..] == xs[j + k..]
    ensures forall a: seq<T> :: (a + xs[..j]) + xs[j..][..k] == a + xs[..j + k]
  {
  }

  lemma OneResume<T>(m: Monitor<T>, s: Step<T>)
    requires s.Resume? && s.waiter in m.woken
    ensures Next(m, s).woken == m.woken - {s.waiter} && |Next(m, s).woken| == |m.woken| - 1
    ensures m.ring.items == [] ==> Next(m, s).ring == m.ring && Next(m, s).departed == m.departed
    ensures m.ring.items != [] ==> Next(m, s).ring == m.ring.Drop(1) &&
                                   Next(m, s).departed == m.departed + m.ring.items[..1]
  {
  }

  /** Once the waiters already notified have run, in any order and with no further signal, they
      have taken one message each or emptied the ring. */
  lemma {:induction false} WokenWaitersTake<T>(m: Monitor<T>, steps: seq<Step<T>>)
    requires ResumesAll(m.woken, steps)
    ensures var n := if |m.woken| < |m.ring.items| then |m.woken| else |m.ring.items|;
            RunFrom(m, steps).ring == m.ring.Drop(n) &&
            RunFrom(m, steps).departed == m.departed + m.ring.items[..n]
    decreases |steps|
  {
    if steps != [] {
      var xs := m.ring.items;
      OneResume(m, steps[0]);
      WokenWaitersTake(Next(m, steps[0]), steps[1..]);
      if xs != [] {
        SliceOfRest(xs, 1, if |m.woken| < |xs| then |m.woken| - 1 else |xs| - 1);
      }
    }
  }

  /** So in every reachable state where somebody sleeps, the wake-ups on their way are enough to
      hand out every message: nobody is left asleep beside a message. */
  lemma NobodySleepsBesideMessages<T>(capacity: nat, steps: seq<Step<T>>, resumes: seq<Step<T>>)
    requires capacity >= MIN_CAPACITY && Legal(Start(capacity), steps)
    requires var m := Run(Start(capacity), steps);
             m.asleep != {} && ResumesAll(m.woken, resumes)
    ensures var m := Run(Start(capacity), steps);
            RunFrom(m, resumes).ring.items == [] &&
            RunFrom(m, resumes).departed == m.departed + m.ring.items
  {
    var m := Run(Start(capacity), steps);
    NoWakeUpIsLost(capacity, steps);
    WokenWaitersTake(m, resumes);
    assert m.ring.items[..|m.ring.items|] == m.ring.items;
  }

  /** Every step but a successful push takes some number of messages from the head. */
  lemma OtherStepsTake<T>(m: Monitor<T>, s: Step<T>) returns (k: nat)
    requires m.ring.closed || !(s.Push? || s.PushFront?)
    ensures k <= |m.ring.items|
    ensures Next(m, s).ring.items == m.ring.items[k..]
    ensures Next(m, s).departed == m.departed + m.ring.items[..k]
    ensures Next(m, s).pushed == m.pushed
    ensures Next(m, s).ring.capacity == m.ring.capacity
    ensures m.ring.closed ==> Next(m, s).ring.closed
  {
    k := |m.ring.items| - |Next(m, s).ring.items|;
    if k == 0 {
      assert m.ring.items[..0] == [];
    }
  }

  /** After `Close` nothing enters and what was left drains in order. */
  lemma {:induction false} ClosedRingDrainsInOrder<T>(m: Monitor<T>, steps: seq<Step<T>>) returns (k: nat)
    requires m.ring.closed
    ensures k <= |m.ring.items|
    ensures Run(m, steps).ring == m.ring.Drop(k)
    ensures Run(m, steps).departed == m.departed + m.ring.items[..k]
    decreases |steps|
  {
    if steps == [] {
      k := 0;
    } else {
      k := ClosedRingDrainsInOrder(m, steps[..|steps| - 1]);
      var m', s := Run(m, steps[..|steps| - 1]), steps[|steps| - 1];
      var left := OtherStepsTake(m', s);
      SliceOfRest(m.ring.items, k, left);
      k := k + left;
    }
  }

  /** A push appends, and what it drops it drops from the head. */
  lemma PushAppends<T>(m: Monitor<T>, s: Step<T>) returns (gone: seq<T>)
    requires m.ring.Valid() && !m.ring.closed && s.Push?
    ensures Next(m, s).departed == m.departed + gone
    ensures Next(m, s).pushed == m.pushed + [s.item]
    ensures gone + Next(m, s).ring.items == m.ring.items + [s.item]
  {
    gone := if m.ring.Saturated() then [m.ring.items[0]] else [];
  }

  /** A front push prepends, and what it drops it drops from the tail. */
  lemma PushFrontPrepends<T>(m: Monitor<T>, s: Step<T>) returns (gone: seq<T>)
    requires m.ring.Valid() && !m.ring.closed && s.PushFront?
    ensures Next(m, s).departed == m.departed + gone
    ensures Next(m, s).pushed == m.pushed + [s.item]
    ensures Next(m, s).ring.items + gone == [s.item] + m.ring.items
  {
    gone := if m.ring.Saturated() then [m.ring.items[|m.ring.items| - 1]] else [];
  }

  lemma Regroup3<T>(a: seq<T>, b: seq<T>, c: seq<T>)
    ensures (a + b) + c == a + (b + c)
  {
  }

  lemma StepKeepsOrder<T>(m: Monitor<T>, s: Step<T>)
    requires m.ring.Valid() && !s.PushFront?
    requires m.departed + m.ring.items == m.pushed
    ensures Next(m, s).departed + Next(m, s).ring.items == Next(m, s).pushed
  {
    var m' := Next(m, s);
    if s.Push? && !m.ring.closed {
      var gone := PushAppends(m, s);
      Regroup3(m.departed, gone, m'.ring.items);
      Regroup3(m.departed, m.ring.items, [s.item]);
    } else {
      var left := OtherStepsTake(m, s);
      Regroup3(m.departed, m.ring.items[..left], m'.ring.items);
      assert m.ring.items[..left] + m'.ring.items == m.ring.items;
    }
  }

  /** Without `PushFront` the ring is first in, first out: what left it, whoever took it and
      whatever saturation dropped, followed by what is still there, is what was pushed, in order. */
  lemma {:induction false} FirstInFirstOut<T>(capacity: nat, steps: seq<Step<T>>)
    requires capacity >= MIN_CAPACITY && Legal(Start(capacity), steps)
    requires forall i :: 0 <= i < |steps| ==> !steps[i].PushFront?
    ensures var m := Run(Start(capacity), steps);
            m.departed + m.ring.items == m.pushed
    decreases |steps|
  {
    if steps != [] {
      var before := steps[..|steps| - 1];
      FirstInFirstOut(capacity, before);
      NoWakeUpIsLost(capacity, before);
      StepKeepsOrder(Run(Start(capacity), before), steps[|steps| - 1]);
    }
  }

  /** Messages that left together with messages still there. */
  ghost function Accounted<T>(m: Monitor<T>): multiset<T> {
    multiset(m.departed) + multiset(m.ring.items)
  }

  lemma BagOfConcat<T>(a: seq<T>, b: seq<T>)
    ensures multiset(a + b) == multiset(a) + multiset(b) == multiset(b) + multiset(a)
  {
  }

  lemma Balance<T>(departed: seq<T>, gone: seq<T>, ring: seq<T>, ring': seq<T>, pushed: seq<T>, added: seq<T>)
    requires multiset(departed) + multiset(ring) == multiset(pushed)
    requires multiset(gone) + multiset(ring') == multiset(ring) + multiset(added)
    ensures multiset(departed + gone) + multiset(ring') == multiset(pushed + added)
  {
    BagOfConcat(departed, gone);
    BagOfConcat(pushed, added);
    calc {
      multiset(departed) + multiset(gone) + multiset(ring');
      multiset(departed) + (multiset(gone) + multiset(ring'));
      multiset(departed) + (multiset(ring) + multiset(added));
      multiset(departed) + multiset(ring) + multiset(added);
    }
  }

  lemma StepConserves<T>(m: Monitor<T>, s: Step<T>)
    requires m.ring.Valid()
    requires Accounted(m) == multiset(m.pushed)
    ensures Accounted(Next(m, s)) == multiset(Next(m, s).pushed)
  {
    var m' := Next(m, s);
    var gone, added := StepBalances(m, s);
    Balance(m.departed, gone, m.ring.items, m'.ring.items, m.pushed, added);
  }

  lemma StepBalances<T>(m: Monitor<T>, s: Step<T>) returns (gone: seq<T>, added: seq<T>)
    requires m.ring.Valid()
    ensures Next(m, s).departed == m.departed + gone && Next(m, s).pushed == m.pushed + added
    ensures multiset(gone) + multiset(Next(m, s).ring.items) == multiset(m.ring.items) + multiset(added)
  {
    var before, after := m.ring.items, Next(m, s).ring.items;
    if m.ring.closed || !(s.Push? || s.PushFront?) {
      var k := OtherStepsTake(m, s);
      gone, added := before[..k], [];
      assert gone + after == before + added;
    } else if s.Push? {
      gone := PushAppends(m, s);
      added := [s.item];
    } else {
      gone := PushFrontPrepends(m, s);
      added := [s.item];
      BagOfConcat(after, gone);
      BagOfConcat(added, before);
      return;
    }
    BagOfConcat(gone, after);
    BagOfConcat(before, added);
  }

  /** With every operation allowed, no message is delivered twice, invented or forgotten. */
  lemma {:induction false} EveryMessageOnce<T>(capacity: nat, steps: seq<Step<T>>)
    requires capacity >= MIN_CAPACITY && Legal(Start(capacity), steps)
    ensures var m := Run(Start(capacity), steps);
            Accounted(m) == multiset(m.pushed)
    decreases |steps|
  {
    if steps != [] {
      var before := steps[..|steps| - 1];
      EveryMessageOnce(capacity, before);
      NoWakeUpIsLost(capacity, before);
      StepConserves(Run(Start(capacity), before), steps[|steps| - 1]);
    }
  }

  // ---- who sleeps, who gets a message, who gives up ----

  /** The step is a pass of this waiter through its loop. */
  predicate Passes<T>(s: Step<T>, w: Waiter) {
    (s.Enter? || s.Resume?) && s.waiter == w
  }

  /** On an empty ring a waiter goes to sleep exactly when the ring is open and its time is not up;
      otherwise it leaves with nothing, and in neither case does anything else happen. */
  lemma EmptyRingPutsToSleep<T>(m: Monitor<T>, s: Step<T>, w: Waiter)
    requires Inv(m) && Enabled(m, s) && Passes(s, w) && m.ring.items == []
    ensures var m' := Next(m, s);
            && (w in m'.asleep <==> !m.ring.closed && !s.expired)
            && m'.asleep - {w} == m.asleep && m'.woken == m.woken - {w}
            && m'.ring == m.ring && m'.departed == m.departed && m'.pushed == m.pushed
  {
  }

  /** On a ring with messages, open or closed and in time or not, a waiter takes the first of them. */
  lemma WaiterTakesFirst<T>(m: Monitor<T>, s: Step<T>, w: Waiter)
    requires Inv(m) && Enabled(m, s) && Passes(s, w) && m.ring.items != []
    ensures var m' := Next(m, s);
            && w !in m'.asleep && w !in m'.woken && m'.asleep == m.asleep && m'.woken == m.woken - {w}
            && m'.ring.items == m.ring.items[1..] && m'.ring.closed == m.ring.closed
            && m'.departed == m.departed + [m.ring.items[0]] && m'.pushed == m.pushed
  {
    assert m.ring.items[..1] == [m.ring.items[0]];
  }

  predicate Waits<T>(m: Monitor<T>, w: Waiter) {
    w in m.asleep || w in m.woken
  }

  /** In this step the waiter gets the first message of the ring. */
  predicate Gets<T(==)>(m: Monitor<T>, s: Step<T>, w: Waiter) {
    && Passes(s, w) && m.ring.items != []
    && Next(m, s).ring.items == m.ring.items[1..] && Next(m, s).departed == m.departed + [m.ring.items[0]]
  }

  lemma UnboundedStays<T>(m: Monitor<T>, s: Step<T>, w: Waiter)
    requires Inv(m) && Enabled(m, s) && !w.bounded && (Waits(m, w) || Passes(s, w))
    requires !Next(m, s).ring.closed
    ensures Waits(Next(m, s), w) || Gets(m, s, w)
  {
    if Passes(s, w) {
      if m.ring.items == [] {
        EmptyRingPutsToSleep(m, s, w);
      } else {
        WaiterTakesFirst(m, s, w);
      }
    } else if s.Enter? || s.Resume? {
      if m.ring.items == [] {
        EmptyRingPutsToSleep(m, s, s.waiter);
      } else {
        WaiterTakesFirst(m, s, s.waiter);
      }
    }
  }

  lemma StepStaysClosed<T>(m: Monitor<T>, s: Step<T>)
    requires m.ring.closed
    ensures Next(m, s).ring.closed
  {
  }

  lemma {:induction false} ClosedStays<T>(m: Monitor<T>, steps: seq<Step<T>>, k: nat)
    requires k <= |steps| && Run(m, steps[..k]).ring.closed
    ensures Run(m, steps).ring.closed
    decreases |steps|
  {
    hide Next;
    if k < |steps| {
      var n := |steps| - 1;
      assert steps[..n][..k] == steps[..k];
      ClosedStays(m, steps[..n], k);
      StepStaysClosed(Run(m, steps[..n]), steps[n]);
    } else {
      assert steps[..k] == steps;
    }
  }

  /** `PopWait(0)`: in every run, as long as the ring is open, a call without a time limit waits until
      it gets a message; it never comes back without one. */
  lemma {:induction false} UnboundedWaitEndsWithMessage<T>(capacity: nat, steps: seq<Step<T>>, i: nat, w: Waiter)
    requires capacity >= MIN_CAPACITY && Legal(Start(capacity), steps) && i < |steps|
    requires Passes(steps[i], w) && !w.bounded && !Run(Start(capacity), steps).ring.closed
    ensures Waits(Run(Start(capacity), steps), w) ||
            exists k :: i <= k < |steps| && Gets(Run(Start(capacity), steps[..k]), steps[k], w)
    decreases |steps|
  {
    var n := |steps| - 1;
    var before := steps[..n];
    var m := Run(Start(capacity), before);
    NoWakeUpIsLost(capacity, before);
    if i < n {
      if m.ring.closed {
        ClosedStays(Start(capacity), steps, n);
      }
      UnboundedWaitEndsWithMessage(capacity, before, i, w);
      if !Waits(m, w) {
        var k :| i <= k < n && Gets(Run(Start(capacity), before[..k]), before[k], w);
        assert before[..k] == steps[..k];
        assert Gets(Run(Start(capacity), steps[..k]), steps[k], w);
      } else {
        UnboundedStays(m, steps[n], w);
      }
    } else {
      UnboundedStays(m, steps[n], w);
    }
  }

  /** Once closed, a ring stays closed, takes nothing and lets nobody sleep. */
  lemma {:induction false} ClosedForGood<T>(capacity: nat, steps: seq<Step<T>>, i: nat)
    requires capacity >= MIN_CAPACITY && Legal(Start(capacity), steps) && i < |steps| && steps[i] == Step.Close
    ensures var m := Run(Start(capacity), steps);
            m.ring.closed && m.asleep == {} && m.pushed == Run(Start(capacity), steps[..i]).pushed
    decreases |steps|
  {
    var n := |steps| - 1;
    NoWakeUpIsLost(capacity, steps);
    if i < n {
      assert steps[..n][..i] == steps[..i];
      ClosedForGood(capacity, steps[..n], i);
    }
  }

  /** Sleeping and being on the way happen: two wait, one message comes. */
  lemma SomeSleepSomeWake<T>(x: T) returns (steps: seq<Step<T>>)
    ensures Legal(Start(MIN_CAPACITY), steps)
    ensures var m := Run(Start(MIN_CAPACITY), steps);
            m.asleep != {} && m.woken != {} && m.ring.items == [x]
  {
    var a, b := Waiter(1, false), Waiter(2, true);
    var m0: Monitor<T> := Start(MIN_CAPACITY);
    var s1: seq<Step<T>> := [Enter(a, false)];
    var s2: seq<Step<T>> := [Enter(a, false), Enter(b, false)];
    steps := [Enter(a, false), Enter(b, false), Step.Push(x, a)];
    assert s1[..0] == [] && s2[..1] == s1 && steps[..2] == s2;
    assert Run(m0, s1) == m0.(asleep := {a});
    assert Run(m0, s2) == m0.(asleep := {a, b});
    assert Legal(m0, []) && Legal(m0, s1) && Legal(m0, s2);
    assert [] + [x] == [x];
    assert {a, b} - {a} == {b};
  }
}
