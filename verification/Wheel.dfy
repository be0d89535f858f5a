/** The single-level timing wheel of internal/queue/timingwheel.go.

    `Wheel` is the wheel as a value: one list of timers per slot. `TimingWheel` keeps those
    lists as doubly linked entries on the heap and relinks them in place. */
module Wheel {

  /** The tick of the topics' wheels: 50 ms, in nanoseconds. */
  const TICK: int := 50_000_000

  datatype Timer<T> = Timer(msg: T, rounds: nat)

  /** Number of ticks a positive delay is rounded to. */
  function Ticks(delay: int, interval: int): nat
    requires delay > 0 && interval > 0
  {
    var ticks := delay / interval;
    if ticks == 0 then 1 else ticks
  }

  /** The slot a timer of `ticks` ticks is put in, and the times its slot is passed over before. */
  function Target(current: nat, ticks: nat, slots: nat): (r: nat)
    requires slots > 0
    ensures r < slots
  {
    (current + ticks % slots) % slots
  }

  function Rounds(ticks: nat, slots: nat): nat
    requires slots > 0
  {
    ticks / slots
  }

  // A bucket is written from its end to its head, so that linking in front is appending.

  /** Of the timers from index n to the head, the ones that fire, in the order the walk from the
      head meets them. */
  function Expired<T>(b: seq<Timer<T>>, n: nat): seq<T>
    requires n <= |b|
    decreases |b| - n
  {
    if n == |b| then []
    else Expired(b, n + 1) + if b[n].rounds == 0 then [b[n].msg] else []
  }

  /** Of the timers from index n to the head, the ones that stay: one round less each, and in the
      opposite order, because the walk relinks each of them in front of the ones before. */
  function Retained<T>(b: seq<Timer<T>>, n: nat): seq<Timer<T>>
    requires n <= |b|
    decreases |b| - n
  {
    if n == |b| then []
    else Retained(b, n + 1) + if b[n].rounds == 0 then [] else [Timer(b[n].msg, b[n].rounds - 1)]
  }

  datatype Wheel<T> = Wheel(current: nat, buckets: seq<seq<Timer<T>>>, closed: bool) {

    predicate Valid() {
      current < |buckets|
    }

    /** Schedules `msg`; a stopped wheel forgets it. */
    function Add(msg: T, ticks: nat): (w: Wheel<T>)
      requires Valid()
      ensures w.Valid() && |w.buckets| == |buckets|
    {
      if closed then this
      else
        var slot := Target(current, ticks, |buckets|);
        this.(buckets := buckets[slot := buckets[slot] + [Timer(msg, Rounds(ticks, |buckets|))]])
    }

    function Advance(): (w: Wheel<T>)
      requires Valid()
      ensures w.Valid() && |w.buckets| == |buckets|
    {
      this.(current := (current + 1) % |buckets|,
            buckets := buckets[current := Retained(buckets[current], 0)])
    }

    /** What `Advance` hands to the expiry callback. */
    function Due(): seq<T>
      requires Valid()
    {
      Expired(buckets[current], 0)
    }

    function Stop(): Wheel<T> {
      this.(closed := true)
    }
  }

  class Entry<T> {
    var msg: T
    var rounds: int
    var next: Entry?<T>
    var prev: Entry?<T>

    constructor (msg: T, rounds: int, next: Entry?<T>)
      ensures this.msg == msg && this.rounds == rounds && this.next == next && prev == null
    {
      this.msg, this.rounds, this.next, this.prev := msg, rounds, next, null;
    }
  }

  /** `head` starts a well-formed, acyclic doubly linked list that runs through exactly the
      entries of `list`, from the last one to the first, and carries `timers`. */
  ghost predicate Chain<T>(head: Entry?<T>, list: seq<Entry<T>>, timers: seq<Timer<T>>)
    reads list
  {
    && |list| == |timers|
    && head == (if list == [] then null else list[|list| - 1])
    && (forall i, j :: 0 <= i < j < |list| ==> list[i] != list[j])
    && (forall i :: 0 <= i < |list| ==> list[i].msg == timers[i].msg)
    && (forall i :: 0 <= i < |list| ==> list[i].rounds == timers[i].rounds)
    && (forall i :: 0 <= i < |list| ==> list[i].next == After(list, i))
    && (forall i :: 0 <= i < |list| ==> list[i].prev == Before(list, i))
  }

  lemma ChainFacts<T>(head: Entry?<T>, list: seq<Entry<T>>, timers: seq<Timer<T>>)
    requires Chain(head, list, timers)
    ensures |list| == |timers|
    ensures head == if list == [] then null else list[|list| - 1]
    ensures forall i, j :: 0 <= i < j < |list| ==> list[i] != list[j]
    ensures forall i :: 0 <= i < |list| ==> list[i].msg == timers[i].msg
    ensures forall i :: 0 <= i < |list| ==> list[i].rounds == timers[i].rounds
    ensures forall i :: 0 <= i < |list| ==> list[i].next == After(list, i)
    ensures forall i :: 0 <= i < |list| ==> list[i].prev == Before(list, i)
  {
  }

  lemma ChainHead<T>(head: Entry?<T>, list: seq<Entry<T>>, timers: seq<Timer<T>>)
    requires Chain(head, list, timers)
    ensures head == if list == [] then null else list[|list| - 1]
  {
  }

  ghost function After<T>(list: seq<Entry<T>>, i: nat): Entry?<T>
    requires i < |list|
  {
    if i > 0 then list[i - 1] else null
  }

  ghost function Before<T>(list: seq<Entry<T>>, i: nat): Entry?<T>
    requires i < |list|
  {
    if i + 1 < |list| then list[i + 1] else null
  }

  lemma ChainAppend<T>(entry: Entry<T>, list: seq<Entry<T>>, timers: seq<Timer<T>>, timer: Timer<T>)
    requires |list| == |timers|
    requires forall i, j :: 0 <= i < j < |list| ==> list[i] != list[j]
    requires forall i :: 0 <= i < |list| ==> list[i] != entry
    requires forall i :: 0 <= i < |list| ==> list[i].msg == timers[i].msg
    requires forall i :: 0 <= i < |list| ==> list[i].rounds == timers[i].rounds
    requires forall i :: 0 <= i < |list| ==> list[i].next == After(list, i)
    requires forall i :: 0 <= i < |list| - 1 ==> list[i].prev == Before(list, i)
    requires list != [] ==> list[|list| - 1].prev == entry
    requires entry.msg == timer.msg && entry.rounds == timer.rounds && entry.prev == null
    requires entry.next == if list == [] then null else list[|list| - 1]
    ensures Chain(entry, list + [entry], timers + [timer])
  {
  }

  /** Links a new entry in front of a list. */
  method LinkFront<T>(head: Entry?<T>, msg: T, rounds: nat,
                      ghost list: seq<Entry<T>>, ghost timers: seq<Timer<T>>) returns (entry: Entry<T>)
    requires Chain(head, list, timers)
    modifies head
    ensures fresh(entry)
    ensures Chain(entry, list + [entry], timers + [Timer(msg, rounds)])
  {
    hide Chain;
    ChainFacts(head, list, timers);
    entry := new Entry(msg, rounds, head);
    if head != null {
      head.prev := entry;
    }
    ChainAppend(entry, list, timers, Timer(msg, rounds));
  }

  /** Moves an entry that lies outside a list to its front, one round less. */
  method Relink<T>(entry: Entry<T>, head: Entry?<T>,
                   ghost list: seq<Entry<T>>, ghost timers: seq<Timer<T>>)
    requires Chain(head, list, timers) && entry !in list && entry.rounds > 0
    modifies entry, head
    ensures Chain(entry, list + [entry], timers + [Timer(old(entry.msg), old(entry.rounds) - 1)])
  {
    hide Chain;
    ChainFacts(head, list, timers);
    assert forall i :: 0 <= i < |list| ==> list[i] in list;
    entry.rounds := entry.rounds - 1;
    entry.next := head;
    if head != null {
      head.prev := entry;
    }
    entry.prev := null;
    ChainAppend(entry, list, timers, Timer(entry.msg, entry.rounds));
  }

  lemma SplitNone<T>(b: seq<Timer<T>>)
    ensures Expired(b, |b|) == [] && Retained(b, |b|) == []
  {
  }

  lemma SplitStep<T>(b: seq<Timer<T>>, i: nat)
    requires i < |b|
    ensures b[i].rounds == 0 ==> Expired(b, i) == Expired(b, i + 1) + [b[i].msg]
    ensures b[i].rounds > 0 ==> Expired(b, i) == Expired(b, i + 1)
    ensures b[i].rounds == 0 ==> Retained(b, i) == Retained(b, i + 1)
    ensures b[i].rounds > 0 ==> Retained(b, i) == Retained(b, i + 1) + [Timer(b[i].msg, b[i].rounds - 1)]
  {
  }

  /** The walk through `list` has i entries to go; `kept` are the ones it relinked. */
  ghost predicate Walking<T>(list: seq<Entry<T>>, timers: seq<Timer<T>>, i: nat,
                             head: Entry?<T>, kept: seq<Entry<T>>)
    reads list, kept
  {
    && i <= |list| == |timers|
    && (forall j, k :: 0 <= j < k < |list| ==> list[j] != list[k])
    && (forall e :: e in kept ==> e in list)
    && (forall j :: 0 <= j < i ==> list[j] !in kept)
    && (forall j :: 0 <= j < i ==> list[j].msg == timers[j].msg)
    && (forall j :: 0 <= j < i ==> list[j].rounds == timers[j].rounds)
    && (forall j :: 0 <= j < i ==> list[j].next == After(list, j))
    && Chain(head, kept, Retained(timers, i))
  }

  lemma WalkStarts<T>(head: Entry?<T>, list: seq<Entry<T>>, timers: seq<Timer<T>>)
    requires Chain(head, list, timers)
    ensures |list| == |timers|
    ensures Walking(list, timers, |list|, null, [])
    ensures head == if list == [] then null else list[|list| - 1]
  {
  }

  lemma WalkEnds<T>(list: seq<Entry<T>>, timers: seq<Timer<T>>, head: Entry?<T>, kept: seq<Entry<T>>)
    requires Walking(list, timers, 0, head, kept)
    ensures Chain(head, kept, Retained(timers, 0)) && forall e :: e in kept ==> e in list
  {
  }

  /** One turn of the walk: the entry either fires or is relinked in front of the kept ones. */
  method WalkOne<T>(entry: Entry<T>, remainingHead: Entry?<T>,
                    ghost list: seq<Entry<T>>, ghost timers: seq<Timer<T>>, ghost i: nat, ghost kept: seq<Entry<T>>)
    returns (fires: bool, next: Entry?<T>, head: Entry?<T>, ghost kept': seq<Entry<T>>)
    requires Walking(list, timers, i + 1, remainingHead, kept) && i < |list| && entry == list[i]
    modifies list
    ensures Walking(list, timers, i, head, kept')
    ensures next == After(list, i)
    ensures entry.msg == timers[i].msg && fires == (timers[i].rounds == 0)
  {
    next := entry.next;
    SplitStep(timers, i);
    assert entry in list;
    hide Chain, Retained;
    if entry.rounds <= 0 {
      fires, head, kept' := true, remainingHead, kept;
    } else {
      ChainHead(remainingHead, kept, Retained(timers, i + 1));
      assert remainingHead != null ==> remainingHead in kept;
      Relink(entry, remainingHead, kept, Retained(timers, i + 1));
      fires, head, kept' := false, entry, kept + [entry];
    }
  }

  /** Walks a bucket, collecting the timers that fire and relinking the ones that stay. */
  method Split<T>(head: Entry?<T>, ghost list: seq<Entry<T>>, ghost timers: seq<Timer<T>>)
    returns (expired: seq<T>, remainingHead: Entry?<T>, ghost kept: seq<Entry<T>>)
    requires Chain(head, list, timers)
    modifies list
    ensures expired == Expired(timers, 0)
    ensures Chain(remainingHead, kept, Retained(timers, 0))
    ensures forall e :: e in kept ==> e in list
  {
    hide Chain, Walking, Retained;
    WalkStarts(head, list, timers);
    var entry := head;
    expired, remainingHead, kept := [], null, [];
    ghost var i := |list|;
    while entry != null
      invariant 0 <= i <= |list| && entry == (if i > 0 then list[i - 1] else null)
      invariant expired == Expired(timers, i)
      invariant Walking(list, timers, i, remainingHead, kept)
      decreases i
    {
      i := i - 1;
      SplitStep(timers, i);
      var fires, next;
      fires, next, remainingHead, kept := WalkOne(entry, remainingHead, list, timers, i, kept);
      if fires {
        expired := expired + [entry.msg];
      }
      entry := next;
    }
    WalkEnds(list, timers, remainingHead, kept);
  }

  ghost predicate Apart<T>(a: seq<Entry<T>>, b: seq<Entry<T>>) {
    forall e :: e in a ==> e !in b
  }

  /** Every bucket but `skip` is a correctly linked list of entries of the wheel, and no two of
      them share an entry. */
  ghost predicate Linked<T>(heads: seq<Entry?<T>>, lists: seq<seq<Entry<T>>>, entries: set<Entry<T>>,
                            timers: seq<seq<Timer<T>>>, skip: int)
    reads entries
  {
    && |heads| == |lists| == |timers|
    && (forall s :: 0 <= s < |lists| && s != skip ==> forall e :: e in lists[s] ==> e in entries)
    && (forall s :: 0 <= s < |lists| && s != skip ==> Chain(heads[s], lists[s], timers[s]))
    && (forall s, t :: 0 <= s < |lists| && 0 <= t < |lists| && s != t && s != skip && t != skip ==>
          Apart(lists[s], lists[t]))
  }

  lemma ReplaceBucket<T>(heads: seq<Entry?<T>>, lists: seq<seq<Entry<T>>>, entries: set<Entry<T>>,
                         timers: seq<seq<Timer<T>>>, slot: int,
                         head: Entry?<T>, list: seq<Entry<T>>, ts: seq<Timer<T>>)
    requires Linked(heads, lists, entries, timers, slot) && 0 <= slot < |lists|
    requires Chain(head, list, ts)
    requires forall s :: 0 <= s < |lists| && s != slot ==> Apart(lists[s], list)
    ensures Linked(heads[slot := head], lists[slot := list], entries + (set e | e in list),
                   timers[slot := ts], -1)
  {
  }

  /** `LinkFront` for one bucket of a wheel. */
  method LinkInto<T>(head: Entry?<T>, msg: T, rounds: nat,
                     ghost heads: seq<Entry?<T>>, ghost lists: seq<seq<Entry<T>>>, ghost entries: set<Entry<T>>,
                     ghost timers: seq<seq<Timer<T>>>, ghost slot: nat)
    returns (entry: Entry<T>)
    requires Linked(heads, lists, entries, timers, -1) && slot < |lists| && head == heads[slot]
    modifies entries
    ensures fresh(entry)
    ensures Linked(heads[slot := entry], lists[slot := lists[slot] + [entry]], entries + {entry},
                   timers[slot := timers[slot] + [Timer(msg, rounds)]], -1)
  {
    hide Chain;
    ChainHead(head, lists[slot], timers[slot]);
    assert head != null ==> head in lists[slot];
    entry := LinkFront(head, msg, rounds, lists[slot], timers[slot]);
    forall s | 0 <= s < |lists| && s != slot
      ensures Chain(heads[s], lists[s], timers[s])
    {
      assert Apart(lists[s], lists[slot]);
      assert old(Chain(heads[s], lists[s], timers[s]));
      assert forall e :: e in lists[s] ==> unchanged(e);
    }
    ReplaceBucket(heads, lists, entries, timers, slot, entry,
                  lists[slot] + [entry], timers[slot] + [Timer(msg, rounds)]);
    assert entries + (set e | e in lists[slot] + [entry]) == entries + {entry};
  }

  /** `Split` for one bucket of a wheel. */
  method SplitIn<T>(head: Entry?<T>,
                    ghost heads: seq<Entry?<T>>, ghost lists: seq<seq<Entry<T>>>, ghost entries: set<Entry<T>>,
                    ghost timers: seq<seq<Timer<T>>>, ghost slot: nat)
    returns (expired: seq<T>, remainingHead: Entry?<T>, ghost kept: seq<Entry<T>>)
    requires Linked(heads, lists, entries, timers, -1) && slot < |lists| && head == heads[slot]
    modifies entries
    ensures expired == Expired(timers[slot], 0)
    ensures Linked(heads[slot := remainingHead], lists[slot := kept], entries,
                   timers[slot := Retained(timers[slot], 0)], -1)
  {
    hide Chain, Expired, Retained;
    assert Chain(head, lists[slot], timers[slot]);
    expired, remainingHead, kept := Split(head, lists[slot], timers[slot]);
    forall s | 0 <= s < |lists| && s != slot
      ensures Chain(heads[s], lists[s], timers[s])
    {
      assert Apart(lists[s], lists[slot]);
      assert old(Chain(heads[s], lists[s], timers[s]));
      assert forall i :: 0 <= i < |lists[s]| ==> lists[s][i] in lists[s] && lists[s][i] !in lists[slot];
      assert forall i :: 0 <= i < |lists[s]| ==> unchanged(lists[s][i]);
    }
    ReplaceBucket(heads, lists, entries, timers, slot, remainingHead, kept, Retained(timers[slot], 0));
    assert entries + (set e | e in kept) == entries;
  }

  class TimingWheel<T> {
    const interval: int
    const slots: int
    const buckets: array<Entry?<T>>
    var currentSlot: int
    var closed: bool
    ghost var lists: seq<seq<Entry<T>>>   // the entries linked into each bucket
    ghost var entries: set<Entry<T>>      // all of them
    ghost var view: Wheel<T>

    /** Buckets are pairwise disjoint, acyclic, correctly linked lists. */
    ghost predicate Valid()
      reads this, buckets, entries
    {
      && interval > 0 && slots > 0
      && buckets.Length == slots == |view.buckets| == |lists|
      && 0 <= currentSlot == view.current < slots && closed == view.closed
      && Linked(buckets[..], lists, entries, view.buckets, -1)
    }

    constructor (interval: int, slots: int)
      ensures Valid() && fresh(buckets) && entries == {}
      ensures this.interval == if interval <= 0 then 50_000_000 else interval
      ensures this.slots == if slots <= 0 then 3600 else slots
      ensures view == Wheel(0, seq(this.slots, _ => []), false)
    {
      var n := if slots <= 0 then 3600 else slots;
      this.slots := n;
      this.interval := if interval <= 0 then 50_000_000 else interval;
      buckets := new Entry?<T>[n](_ => null);
      currentSlot, closed := 0, false;
      lists := seq(n, _ => []);
      entries := {};
      view := Wheel(0, seq(n, _ => []), false);
    }

    /** Schedules `msg`. A delay that is not positive is delivered by the caller at once, without
        touching the wheel. */
    method Add(msg: T, delay: int) returns (fireNow: bool)
      requires Valid()
      modifies this, buckets, entries
      ensures Valid() && fresh(entries - old(entries))
      ensures fireNow == (delay <= 0)
      ensures view == if delay <= 0 then old(view) else old(view).Add(msg, Ticks(delay, interval))
    {
      hide Linked, Target, Rounds, Ticks;
      if delay <= 0 {
        return true;
      }
      fireNow := false;
      if closed {
        return;
      }
      var ticks := Ticks(delay, interval);
      var rounds := Rounds(ticks, slots);
      var target := Target(currentSlot, ticks, slots);
      ghost var heads := buckets[..];
      var entry := LinkInto(buckets[target], msg, rounds, heads, lists, entries, view.buckets, target);
      ghost var view' := view.Add(msg, ticks);
      buckets[target] := entry;
      lists, entries, view := lists[target := lists[target] + [entry]], entries + {entry}, view';
      assert buckets[..] == heads[target := entry];
    }

    /** Visits the current slot: splits its bucket into the entries that fire, returned for
        dispatch, and the ones that stay, and leaves every other bucket alone. */
    method Advance() returns (expired: seq<T>)
      requires Valid()
      modifies this, buckets, entries
      ensures Valid() && entries <= old(entries)
      ensures expired == old(view).Due() && view == old(view).Advance()
    {
      hide Linked;
      var slot := currentSlot;
      ghost var heads := buckets[..];
      var remainingHead;
      ghost var kept;
      expired, remainingHead, kept := SplitIn(buckets[slot], heads, lists, entries, view.buckets, slot);
      currentSlot := (currentSlot + 1) % slots;
      buckets[slot] := remainingHead;
      lists, view := lists[slot := kept], view.Advance();
      assert buckets[..] == heads[slot := remainingHead];
    }

    method Stop()
      requires Valid()
      modifies this`closed, this`view
      ensures Valid() && view == old(view).Stop()
      ensures closed && view.closed && view.buckets == old(view).buckets && view.current == old(view).current
    {
      if !closed {
        closed := true;
      }
      view := view.Stop();
    }
  }

}
