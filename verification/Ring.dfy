/** The growable circular deque of internal/queue/ring.go.

    `Deque` is the plain sequence a caller reasons with; `RingBuffer` is the array with
    wrapping 64-bit cursors and masked indices that has to behave like it. */
module Ring {
  import opened Options
  import opened Bits

  /** The ring stops doubling here and starts dropping instead. */
  const SATURATION: nat := 16777216

  const MIN_CAPACITY: nat := 1024

  /** What one lock-protected pass through the loop of `PopWait` decides. */
  datatype Wait<+T> = Got(item: T) | Sleep | GiveUp

  datatype Deque<T> = Deque(items: seq<T>, capacity: nat, closed: bool) {

    /** Full, and already too large to double. */
    predicate Saturated() {
      |items| >= capacity >= SATURATION
    }

    function Grown(): nat {
      if |items| >= capacity && capacity < SATURATION then capacity * 2 else capacity
    }

    function Push(x: T): Deque<T> {
      if closed then this
      else if Saturated() then Deque(items[1..] + [x], capacity, closed)
      else Deque(items + [x], Grown(), closed)
    }

    function PushFront(x: T): Deque<T> {
      if closed then this
      else if Saturated() then Deque([x] + items[..|items| - 1], capacity, closed)
      else Deque([x] + items, Grown(), closed)
    }

    function Drop(n: nat): Deque<T>
      requires n <= |items|
    {
      Deque(items[n..], capacity, closed)
    }

    function Close(): Deque<T> {
      Deque(items, capacity, true)
    }

    predicate Valid() {
      |items| <= capacity && capacity >= MIN_CAPACITY
    }

    /** What the next pass of a waiting consumer does; `expired` says its deadline is over. */
    function WaitPass(expired: bool): Wait<T> {
      if items != [] then Got(items[0])
      else if closed || expired then GiveUp
      else Sleep
    }
  }

  function Empty<T>(capacity: nat): Deque<T> {
    Deque([], capacity, false)
  }

  /** Position i of a window that starts at `start` and wraps round at `capacity`. */
  function Slot(start: nat, i: nat, capacity: nat): (r: nat)
    requires start < capacity && i <= capacity
    ensures i < capacity ==> r < capacity
  {
    if start + i < capacity then start + i else start + i - capacity
  }

  /** x % d by repeated subtraction: where a cursor points in an array of d slots. */
  ghost function Residue(x: nat, d: nat): (r: nat)
    requires d > 0
    ensures r < d
  {
    if x < d then x else Residue(x - d, d)
  }

  lemma {:induction false} ResidueIsMod(x: nat, d: nat)
    requires d > 0
    ensures Residue(x, d) == x % d
  {
    if x >= d {
      ResidueIsMod(x - d, d);
      DivModUnique(x, d, (x - d) / d + 1, (x - d) % d);
    } else {
      DivModUnique(x, d, 0, x);
    }
  }

  predicate IsRingCapacity(k: nat, capacity: nat) {
    k <= 63 && capacity == Pow2(k)
  }

  lemma Regroup(a: nat, b: nat)
    ensures a * (2 * b) == 2 * (a * b)
  {
  }

  /** 2^64 is a multiple of every ring capacity. */
  lemma CapacityDividesWord(k: nat, capacity: nat) returns (q: nat)
    requires IsRingCapacity(k, capacity)
    ensures q > 0 && capacity < WORD && capacity * q == WORD
  {
    Pow2Add(k, 63 - k);
    Pow2Of63();
    q := 2 * Pow2(63 - k);
    Pow2Monotone(k, 63);
    Regroup(capacity, Pow2(63 - k));
    assert capacity * q == 2 * (Pow2(k) * Pow2(63 - k));
  }

  lemma ModShift(x: nat, i: nat, d: nat)
    requires d > 0 && i < d
    ensures (x + i) % d == Slot(x % d, i, d)
  {
    var q, r := x / d, x % d;
    if r + i < d {
      DivModUnique(x + i, d, q, r + i);
    } else {
      assert x + i == (q + 1) * d + (r + i - d);
      DivModUnique(x + i, d, q + 1, r + i - d);
    }
  }

  /** Masked indexing of a wrapped cursor is a position in the circular window. */
  lemma CursorSlot(head: u64, i: u64, k: nat, capacity: nat)
    requires IsRingCapacity(k, capacity) && i < capacity
    ensures And(Add64(head, i), capacity - 1) == Slot(Residue(head, capacity), i, capacity)
  {
    ResidueIsMod(head, capacity);
    U64IsModular(head, i);
    var q := CapacityDividesWord(k, capacity);
    AndMask(Add64(head, i), k);
    ModOfMod(head + i, capacity, q);
    ModShift(head, i, capacity);
  }

  /** Moving the head cursor forward by one moves the window by one slot, even across 2^64. */
  lemma CursorForward(head: u64, k: nat, capacity: nat)
    requires IsRingCapacity(k, capacity) && capacity > 1
    ensures Residue(Add64(head, 1), capacity) == Slot(Residue(head, capacity), 1, capacity)
  {
    ResidueIsMod(head, capacity);
    ResidueIsMod(Add64(head, 1), capacity);
    U64IsModular(head, 1);
    var q := CapacityDividesWord(k, capacity);
    ModOfMod(head + 1, capacity, q);
    ModShift(head, 1, capacity);
  }

  /** Moving the head cursor back by one, from 0 to 2^64 - 1 too, moves the window back. */
  lemma CursorBackward(head: u64, k: nat, capacity: nat)
    requires IsRingCapacity(k, capacity) && capacity > 1
    ensures Residue(Sub64(head, 1), capacity) ==
            Slot(Residue(head, capacity), capacity - 1, capacity)
  {
    var before := Sub64(head, 1);
    assert Add64(before, 1) == head;
    CursorForward(before, k, capacity);
  }

  /** The `len` slots from `start` on hold messages and every other slot is nil. */
  ghost predicate IsWindow<T>(nodes: seq<Option<T>>, start: nat, len: nat) {
    && start < |nodes| && len <= |nodes|
    && (forall i :: 0 <= i < len ==> nodes[Slot(start, i, |nodes|)].Some?)
    && (forall i :: len <= i < |nodes| ==> nodes[Slot(start, i, |nodes|)].None?)
  }

  ghost function Window<T>(nodes: seq<Option<T>>, start: nat, len: nat): (s: seq<T>)
    requires IsWindow(nodes, start, len)
    ensures |s| == len
  {
    seq(len, i requires 0 <= i < len => nodes[Slot(start, i, |nodes|)].value)
  }

  lemma WindowAppend<T>(nodes: seq<Option<T>>, start: nat, len: nat, x: T)
    requires IsWindow(nodes, start, len) && len < |nodes|
    ensures var nodes' := nodes[Slot(start, len, |nodes|) := Some(x)];
            IsWindow(nodes', start, len + 1) &&
            Window(nodes', start, len + 1) == Window(nodes, start, len) + [x]
  {
  }

  lemma WindowDropFirst<T>(nodes: seq<Option<T>>, start: nat, len: nat)
    requires IsWindow(nodes, start, len) && len > 0 && |nodes| > 1
    ensures var nodes' := nodes[start := None];
            var start' := Slot(start, 1, |nodes|);
            IsWindow(nodes', start', len - 1) &&
            Window(nodes', start', len - 1) == Window(nodes, start, len)[1..]
  {
    var nodes' := nodes[start := None];
    var start' := Slot(start, 1, |nodes|);
    forall i | 0 <= i < |nodes|
      ensures i < len - 1 ==> nodes'[Slot(start', i, |nodes|)] == nodes[Slot(start, i + 1, |nodes|)] &&
                              nodes[Slot(start, i + 1, |nodes|)].Some?
      ensures i >= len - 1 ==> nodes'[Slot(start', i, |nodes|)].None?
    {
      if i < |nodes| - 1 {
        assert Slot(start', i, |nodes|) == Slot(start, i + 1, |nodes|) != start;
      } else {
        assert Slot(start', i, |nodes|) == start;
      }
    }
  }

  lemma WindowPrepend<T>(nodes: seq<Option<T>>, start: nat, len: nat, x: T)
    requires IsWindow(nodes, start, len) && len < |nodes| && |nodes| > 1
    ensures var start' := Slot(start, |nodes| - 1, |nodes|);
            var nodes' := nodes[start' := Some(x)];
            IsWindow(nodes', start', len + 1) &&
            Window(nodes', start', len + 1) == [x] + Window(nodes, start, len)
  {
    var start' := Slot(start, |nodes| - 1, |nodes|);
    var nodes' := nodes[start' := Some(x)];
    forall i | 0 < i < |nodes|
      ensures i <= len ==> nodes'[Slot(start', i, |nodes|)] == nodes[Slot(start, i - 1, |nodes|)] &&
                           nodes[Slot(start, i - 1, |nodes|)].Some?
      ensures i > len ==> nodes'[Slot(start', i, |nodes|)].None?
    {
      assert Slot(start', i, |nodes|) == Slot(start, i - 1, |nodes|) != start';
    }
  }

  lemma WindowDropLast<T>(nodes: seq<Option<T>>, start: nat, len: nat)
    requires IsWindow(nodes, start, len) && len > 0
    ensures var nodes' := nodes[Slot(start, len - 1, |nodes|) := None];
            IsWindow(nodes', start, len - 1) &&
            Window(nodes', start, len - 1) == Window(nodes, start, len)[..len - 1]
  {
  }

  lemma CopiedWindow<T>(nodes: seq<Option<T>>, items: seq<T>)
    requires 0 < |nodes| && |items| <= |nodes|
    requires forall j :: 0 <= j < |items| ==> nodes[j] == Some(items[j])
    requires forall j :: |items| <= j < |nodes| ==> nodes[j] == None
    ensures IsWindow(nodes, 0, |items|) && Window(nodes, 0, |items|) == items
  {
  }

  /** The least power of two that is at least `requested`, and at least 1024. */
  method RoundUp(requested: nat) returns (c: u64, ghost k: nat)
    requires requested <= WORD / 2
    ensures IsRingCapacity(k, c) && c >= requested && c >= 1024
    ensures c == 1024 || c < 2 * requested
  {
    c, k := 1, 0;
    while c < requested
      invariant IsRingCapacity(k, c)
      invariant c == 1 || c < 2 * requested
      decreases WORD - c
    {
      DoublingFits(k, c);
      c, k := Add64(c, c), k + 1;
    }
    if c < MIN_CAPACITY {
      assert Pow2(10) == MIN_CAPACITY;
      c, k := MIN_CAPACITY, 10;
    }
  }

  class RingBuffer<T> {
    var nodes: array<Option<T>>
    var head: u64
    var tail: u64
    var mask: u64
    var capacity: u64
    var closed: bool
    ghost var order: nat   // capacity == 2^order

    /** tail - head in uint64 arithmetic. */
    function Length(): u64
      reads this
    {
      Sub64(tail, head)
    }

    ghost predicate Shape()
      reads this
    {
      && IsRingCapacity(order, capacity)
      && capacity >= MIN_CAPACITY
      && mask == capacity - 1
      && nodes.Length == capacity
    }

    /** Every slot of the live window holds a message and every other slot is nil. */
    ghost predicate Valid()
      reads this, nodes
    {
      && Shape()
      && IsWindow(nodes[..], Residue(head, capacity), Length())
    }

    ghost function View(): (d: Deque<T>)
      requires Valid()
      reads this, nodes
      ensures d.Valid() && d.closed == closed
    {
      Deque(Window(nodes[..], Residue(head, capacity), Length()), capacity, closed)
    }

    /** Rounds the requested capacity up to a power of two, at least 1024. */
    constructor (requested: nat)
      requires requested <= WORD / 2
      ensures Valid() && fresh(nodes)
      ensures View() == Empty(capacity)
      ensures capacity >= requested && capacity >= MIN_CAPACITY
      ensures capacity == MIN_CAPACITY || capacity < 2 * requested
    {
      var c, k := RoundUp(requested);
      nodes := new Option<T>[c](_ => None);
      head, tail, mask, capacity, closed := 0, 0, c - 1, c, false;
      order := k;
    }

    method Len() returns (n: nat)
      requires Valid()
      ensures n == |View().items|
    {
      n := Sub64(tail, head);
    }

    /** A new array with the live window laid out from index 0. */
    method Unrolled(newCap: nat) returns (newNodes: array<Option<T>>)
      requires Valid() && newCap >= capacity
      ensures fresh(newNodes) && newNodes.Length == newCap
      ensures forall j :: 0 <= j < |View().items| ==> newNodes[j] == Some(View().items[j])
      ensures forall j :: |View().items| <= j < newCap ==> newNodes[j] == None
    {
      ghost var items := View().items;
      newNodes := new Option<T>[newCap](_ => None);
      var count := Sub64(tail, head);
      var i := 0;
      while i < count
        invariant 0 <= i <= count
        invariant forall j :: 0 <= j < i ==> newNodes[j] == Some(items[j])
        invariant forall j :: i <= j < newCap ==> newNodes[j] == None
        modifies newNodes
      {
        CursorSlot(head, i, order, capacity);
        newNodes[i] := nodes[And(Add64(head, i), mask)];
        i := i + 1;
      }
    }

    /** Doubles the capacity. */
    method Grow()
      requires Valid() && capacity < SATURATION
      modifies this
      ensures Valid() && fresh(nodes)
      ensures View() == Deque(old(View()).items, 2 * old(capacity), old(closed))
    {
      ghost var items := View().items;
      var newCap := capacity * 2;
      var newNodes := Unrolled(newCap);
      var count := Sub64(tail, head);
      CopiedWindow(newNodes[..], items);
      DoubledOrder(order, capacity);
      nodes, capacity, mask := newNodes, newCap, newCap - 1;
      head, tail := 0, count;
      order := order + 1;
    }

    /** The live window of `base`, which is the array except that slot `free` counts as nil. */
    ghost predicate Free(base: seq<Option<T>>, free: nat)
      reads this, nodes
    {
      && Shape()
      && |base| == capacity && free < capacity && Length() < capacity
      && IsWindow(base, Residue(head, capacity), Length())
      && nodes[..] == base[free := nodes[free]]
    }

    method StoreLast(x: T, ghost base: seq<Option<T>>)
      requires Shape() && Length() < capacity
      requires Free(base, Slot(Residue(head, capacity), Length(), capacity))
      modifies this`tail, nodes
      ensures Valid()
      ensures View().items == old(Window(base, Residue(head, capacity), Length())) + [x]
    {
      ghost var start, len := Residue(head, capacity), Length();
      WindowAppend(base, start, len, x);
      CursorSlot(head, len, order, capacity);
      nodes[And(tail, mask)] := Some(x);
      tail := Add64(tail, 1);
      assert nodes[..] == base[Slot(start, len, capacity) := Some(x)];
    }

    method StoreFirst(x: T, ghost base: seq<Option<T>>)
      requires Shape() && Length() < capacity
      requires Free(base, Slot(Residue(head, capacity), capacity - 1, capacity))
      modifies this`head, nodes
      ensures Valid()
      ensures View().items == [x] + old(Window(base, Residue(head, capacity), Length()))
    {
      ghost var start, len := Residue(head, capacity), Length();
      WindowPrepend(base, start, len, x);
      CursorBackward(head, order, capacity);
      head := Sub64(head, 1);
      CursorSlot(head, 0, order, capacity);
      nodes[And(head, mask)] := Some(x);
      assert nodes[..] == base[Slot(start, capacity - 1, capacity) := Some(x)];
    }

    /** Makes room at the tail: drops the oldest message of a saturated ring (the slot given up
        is the one the next message is written to), doubles any other full ring. */
    method RoomLast() returns (ghost base: seq<Option<T>>)
      requires Valid()
      modifies this
      ensures Shape() && Length() < capacity && closed == old(closed)
      ensures nodes == old(nodes) || fresh(nodes)
      ensures nodes == old(nodes) ==> nodes[..] == old(nodes[..])
      ensures Free(base, Slot(Residue(head, capacity), Length(), capacity))
      ensures capacity == old(View()).Grown()
      ensures Window(base, Residue(head, capacity), Length()) ==
              if old(View()).Saturated() then old(View()).items[1..] else old(View()).items
    {
      base := nodes[..];
      if Sub64(tail, head) >= capacity {
        if capacity >= SATURATION {
          ghost var start := Residue(head, capacity);
          WindowDropFirst(base, start, Length());
          base := base[start := None];
          CursorForward(head, order, capacity);
          head := Add64(head, 1);
          assert nodes[..] == base[start := nodes[start]];
        } else {
          Grow();
          base := nodes[..];
        }
      }
    }

    /** Makes room at the head: drops the newest message of a saturated ring. */
    method RoomFirst() returns (ghost base: seq<Option<T>>)
      requires Valid()
      modifies this
      ensures Shape() && Length() < capacity && closed == old(closed)
      ensures nodes == old(nodes) || fresh(nodes)
      ensures nodes == old(nodes) ==> nodes[..] == old(nodes[..])
      ensures Free(base, Slot(Residue(head, capacity), capacity - 1, capacity))
      ensures capacity == old(View()).Grown()
      ensures Window(base, Residue(head, capacity), Length()) ==
              if old(View()).Saturated() then old(View()).items[..|old(View()).items| - 1]
              else old(View()).items
    {
      base := nodes[..];
      if Sub64(tail, head) >= capacity {
        if capacity >= SATURATION {
          ghost var last := Slot(Residue(head, capacity), capacity - 1, capacity);
          WindowDropLast(base, Residue(head, capacity), Length());
          base := base[last := None];
          tail := Sub64(tail, 1);
          assert nodes[..] == base[last := nodes[last]];
        } else {
          Grow();
          base := nodes[..];
        }
      }
    }

    /** Appends at the tail; false on a closed ring. */
    method Push(x: T) returns (ok: bool)
      requires Valid()
      modifies this, nodes
      ensures Valid() && (nodes == old(nodes) || fresh(nodes))
      ensures ok == !old(closed)
      ensures View() == old(View()).Push(x)
    {
      if closed {
        return false;
      }
      ghost var base := RoomLast();
      StoreLast(x, base);
      return true;
    }

    /** Prepends at the head; false on a closed ring. */
    method PushFront(x: T) returns (ok: bool)
      requires Valid()
      modifies this, nodes
      ensures Valid() && (nodes == old(nodes) || fresh(nodes))
      ensures ok == !old(closed)
      ensures View() == old(View()).PushFront(x)
    {
      if closed {
        return false;
      }
      ghost var base := RoomFirst();
      StoreFirst(x, base);
      return true;
    }

    /** Takes the message at the head, if there is one. */
    method Pop() returns (r: Option<T>)
      requires Valid()
      modifies this`head, nodes
      ensures Valid()
      ensures old(View()).items == [] ==> r == None && View() == old(View())
      ensures old(View()).items != [] ==>
                r == Some(old(View()).items[0]) && View() == old(View()).Drop(1)
    {
      if head == tail {
        return None;
      }
      ghost var base, start, len := nodes[..], Residue(head, capacity), Length();
      WindowDropFirst(base, start, len);
      CursorForward(head, order, capacity);
      CursorSlot(head, 0, order, capacity);
      var idx := And(head, mask);
      r := nodes[idx];
      nodes[idx] := None;
      head := Add64(head, 1);
      assert nodes[..] == base[start := None];
    }

    /** One pass of the `PopWait` loop under the lock; `expired` is only ever true for a
        bounded wait whose deadline has passed. */
    method WaitPass(expired: bool) returns (r: Wait<T>)
      requires Valid()
      modifies this`head, nodes
      ensures Valid()
      ensures r == old(View()).WaitPass(expired)
      ensures r.Got? <==> old(View()).items != []
      ensures r.Got? ==> r.item == old(View()).items[0] && View().items == old(View()).items[1..]
      ensures r.Sleep? <==> old(View()).items == [] && !old(closed) && !expired
      ensures View() == if r.Got? then old(View()).Drop(1) else old(View())
    {
      if head == tail && !closed {
        return if expired then GiveUp else Sleep;
      }
      if head == tail {
        return GiveUp;
      }
      var m := Pop();
      return Got(m.value);
    }

    /** Takes up to `max` messages in one critical section; `None` is the nil slice. */
    method PopBatch(max: int) returns (r: Option<seq<T>>)
      requires Valid()
      modifies this`head, nodes
      ensures Valid()
      ensures max <= 0 || old(View()).items == [] ==> r == None && View() == old(View())
      ensures max > 0 && old(View()).items != [] ==>
                var n := if max < |old(View()).items| then max else |old(View()).items|;
                r == Some(old(View()).items[..n]) && View() == old(View()).Drop(n)
    {
      if max <= 0 {
        return None;
      }
      var avail := Sub64(tail, head);
      if avail == 0 {
        return None;
      }
      var count := if max > avail then avail else max;
      ghost var items := View().items;
      assert |items| == avail && View() == Deque(items, capacity, closed);
      hide Valid, View;
      var batch: seq<T> := [];
      var i := 0;
      while i < count
        invariant 0 <= i <= count
        invariant Valid() && nodes == old(nodes)
        invariant View() == Deque(items[i..], old(capacity), old(closed))
        invariant batch == items[..i]
      {
        var m := Pop();
        batch := batch + [m.value];
        i := i + 1;
      }
      return Some(batch);
    }

    method Close()
      requires Valid()
      modifies this`closed
      ensures Valid() && View() == old(View()).Close()
      ensures closed && View().items == old(View()).items
    {
      closed := true;
    }
  }

  lemma DoublingFits(k: nat, c: nat)
    requires IsRingCapacity(k, c) && c < WORD / 2
    ensures IsRingCapacity(k + 1, 2 * c) && 2 * c < WORD
  {
    Pow2Of63();
  }

  lemma DoubledOrder(k: nat, capacity: nat)
    requires IsRingCapacity(k, capacity) && capacity < SATURATION
    ensures IsRingCapacity(k + 1, 2 * capacity)
  {
    Pow2Of63();
  }

  /** The capacity after k turns of the rounding loop in the constructor. */
  function Shifted(k: nat): u64
  {
    if k == 0 then 1 else Add64(Shifted(k - 1), Shifted(k - 1))
  }

  lemma {:induction false} ShiftedIsPowerOrZero(k: nat)
    ensures k <= 63 ==> Shifted(k) == Pow2(k)
    ensures k > 63 ==> Shifted(k) == 0
  {
    if 0 < k <= 63 {
      ShiftedIsPowerOrZero(k - 1);
      Pow2Of63();
      Pow2Monotone(k, 63);
      assert Pow2(k) == 2 * Pow2(k - 1);
    } else if k == 64 {
      ShiftedIsPowerOrZero(63);
      Pow2Of63();
    } else if k > 64 {
      ShiftedIsPowerOrZero(k - 1);
    }
  }

  /** Rounding up stops exactly for requests up to 2^63: beyond that the shifted value falls to
      zero and the loop never ends, which is what the constructor's precondition rules out. */
  lemma RoundingStops(requested: nat)
    ensures (exists k :: Shifted(k) >= requested) <==> requested <= WORD / 2
  {
    Pow2Of63();
    ShiftedIsPowerOrZero(63);
    forall k: nat
      ensures Shifted(k) <= WORD / 2
    {
      ShiftedIsPowerOrZero(k);
      if k <= 63 {
        Pow2Monotone(k, 63);
      }
    }
  }

  /** The longest a deque with this capacity ever gets. */
  function Limit(capacity: nat): nat {
    if capacity >= SATURATION then capacity else SATURATION
  }

  function Newest<T>(s: seq<T>, n: nat): seq<T> {
    if |s| <= n then s else s[|s| - n..]
  }

  function PushAll<T>(d: Deque<T>, xs: seq<T>): Deque<T>
    decreases |xs|
  {
    if xs == [] then d else PushAll(d.Push(xs[0]), xs[1..])
  }

  lemma DoublingReachesSaturation(k: nat, capacity: nat)
    requires IsRingCapacity(k, capacity) && capacity < SATURATION
    ensures 2 * capacity <= SATURATION
  {
    assert Pow2(8) == 256;
    Pow2Add(8, 8);
    Pow2Add(16, 8);
    if k >= 24 {
      Pow2Monotone(24, k);
    } else {
      Pow2Monotone(k + 1, 24);
    }
  }

  /** Whatever the growth and dropping on the way, pushing a series leaves the newest messages,
      in order, up to the limit. */
  lemma {:induction false} PushAllKeepsNewest<T>(d: Deque<T>, k: nat, xs: seq<T>)
    requires d.Valid() && !d.closed && IsRingCapacity(k, d.capacity)
    ensures PushAll(d, xs).items == Newest(d.items + xs, Limit(d.capacity))
    decreases |xs|
  {
    if xs == [] {
      assert d.items + xs == d.items;
    } else {
      hide Newest, Deque.Push, Limit, IsRingCapacity, Deque.Valid;
      PushKeepsNewest(d, k, xs[0]);
      var k' := if |d.items| >= d.capacity && d.capacity < SATURATION then k + 1 else k;
      PushAllKeepsNewest(d.Push(xs[0]), k', xs[1..]);
      NewestOfNewest(d.items, xs[0], xs[1..], Limit(d.capacity));
      assert [xs[0]] + xs[1..] == xs;
    }
  }

  lemma PushKeepsNewest<T>(d: Deque<T>, k: nat, x: T)
    requires d.Valid() && !d.closed && IsRingCapacity(k, d.capacity)
    ensures var d' := d.Push(x);
            && d'.Valid() && !d'.closed && Limit(d'.capacity) == Limit(d.capacity)
            && IsRingCapacity(if |d.items| >= d.capacity && d.capacity < SATURATION then k + 1 else k, d'.capacity)
            && d'.items == Newest(d.items + [x], Limit(d.capacity))
  {
    if |d.items| >= d.capacity && d.capacity < SATURATION {
      DoubledOrder(k, d.capacity);
      DoublingReachesSaturation(k, d.capacity);
    }
  }

  lemma NewestOfNewest<T>(s: seq<T>, x: T, rest: seq<T>, n: nat)
    ensures Newest(Newest(s + [x], n) + rest, n) == Newest(s + ([x] + rest), n)
  {
    hide Newest;
    assert s + ([x] + rest) == (s + [x]) + rest;
    NewestAgain(s + [x], rest, n);
  }

  lemma NewestAgain<T>(s: seq<T>, rest: seq<T>, n: nat)
    ensures Newest(Newest(s, n) + rest, n) == Newest(s + rest, n)
  {
    if |s| > n {
      var k, all := |s| - n, s + rest;
      assert all[k..] == s[k..] + rest;
      assert all[k..][|rest|..] == all[k + |rest|..];
    }
  }

  function Reversed<T>(s: seq<T>): (r: seq<T>)
    ensures |r| == |s| && forall i :: 0 <= i < |s| ==> r[i] == s[|s| - 1 - i]
  {
    if s == [] then [] else Reversed(s[1..]) + [s[0]]
  }

  function First<T>(s: seq<T>, n: nat): seq<T> {
    if |s| <= n then s else s[..n]
  }

  function PushFrontAll<T>(d: Deque<T>, xs: seq<T>): Deque<T>
    decreases |xs|
  {
    if xs == [] then d else PushFrontAll(d.PushFront(xs[0]), xs[1..])
  }

  /** Pushing a series to the front puts the last of it first: what is there then is the series
      backwards, followed by what was there before, cut off at the limit. */
  lemma {:induction false} PushFrontAllStacks<T>(d: Deque<T>, k: nat, xs: seq<T>)
    requires d.Valid() && !d.closed && IsRingCapacity(k, d.capacity)
    ensures PushFrontAll(d, xs).items == First(Reversed(xs) + d.items, Limit(d.capacity))
    decreases |xs|
  {
    if xs == [] {
      assert Reversed(xs) + d.items == d.items;
    } else {
      var d' := d.PushFront(xs[0]);
      var n := Limit(d.capacity);
      if |d.items| >= d.capacity && d.capacity < SATURATION {
        DoubledOrder(k, d.capacity);
        DoublingReachesSaturation(k, d.capacity);
        PushFrontAllStacks(d', k + 1, xs[1..]);
      } else {
        PushFrontAllStacks(d', k, xs[1..]);
      }
      assert d'.items == First([xs[0]] + d.items, n);
      assert Reversed(xs) + d.items == Reversed(xs[1..]) + ([xs[0]] + d.items);
      assert First(Reversed(xs[1..]) + d'.items, n) == First(Reversed(xs) + d.items, n);
    }
  }
}
