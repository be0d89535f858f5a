/** The bounded dead letter queue of internal/queue/dlq.go: a map of entries and a parallel slice
    that remembers their order. Its meaning is one list of keyed entries, oldest first. */
module DeadLetters {
  import opened Options

  type Letters<!K, E> = seq<(K, E)>

  /** First position of a key, or the length. */
  function Find<K(==), E>(q: Letters<K, E>, k: K): (r: nat)
    ensures r <= |q|
    ensures r < |q| ==> q[r].0 == k
    ensures forall i :: 0 <= i < r ==> q[i].0 != k
  {
    if q == [] then 0 else if q[0].0 == k then 0 else 1 + Find(q[1..], k)
  }

  predicate Has<K(==), E>(q: Letters<K, E>, k: K) {
    Find(q, k) < |q|
  }

  /** What is left once room has been made for one more entry: the oldest entry goes. */
  function Evicted<K, E>(q: Letters<K, E>, max: nat): Letters<K, E> {
    if |q| >= max && q != [] then q[1..] else q
  }

  /** An entry for a known key replaces the old one in place; any other goes to the end. */
  function Put<K(==), E>(q: Letters<K, E>, max: nat, k: K, e: E): Letters<K, E> {
    var room := Evicted(q, max);
    if Has(room, k) then room[Find(room, k) := (k, e)] else room + [(k, e)]
  }

  function Drop<K(==), E>(q: Letters<K, E>, k: K): Letters<K, E> {
    if Has(q, k) then q[..Find(q, k)] + q[Find(q, k) + 1..] else q
  }

  function Lookup<K(==), E>(q: Letters<K, E>, k: K): Option<E> {
    if Has(q, k) then Some(q[Find(q, k)].1) else None
  }

  function Page<K, E>(q: Letters<K, E>, offset: int, limit: int): Letters<K, E>
    requires offset < |q| ==> 0 <= limit && (0 <= offset || limit == 0)
  {
    if offset >= |q| || limit == 0 then []
    else if offset + limit > |q| then q[offset..]
    else q[offset..offset + limit]
  }

  ghost predicate Distinct<K, E>(q: Letters<K, E>) {
    forall i, j :: 0 <= i < j < |q| ==> q[i].0 != q[j].0
  }

  lemma FindAt<K, E>(q: Letters<K, E>, i: nat)
    requires Distinct(q) && i < |q|
    ensures Find(q, q[i].0) == i
  {
    var r := Find(q, q[i].0);
    assert i >= r;
  }

  /** Adding keeps the keys distinct and the length bounded, and the new entry is there. */
  lemma PutKeepsShape<K, E>(q: Letters<K, E>, max: nat, k: K, e: E)
    requires Distinct(q) && |q| <= max && max > 0
    ensures Distinct(Put(q, max, k, e)) && |Put(q, max, k, e)| <= max
    ensures Lookup(Put(q, max, k, e), k) == Some(e)
  {
    var room, q' := Evicted(q, max), Put(q, max, k, e);
    if Has(room, k) {
      FindAt(q', Find(room, k));
    } else {
      FindAt(q', |room|);
    }
  }

  /** Only the oldest entry can be lost by an addition, and only when the queue is full. */
  lemma PutLosesOnlyOldest<K, E>(q: Letters<K, E>, max: nat, k: K, e: E, other: K)
    requires Distinct(q) && |q| <= max && max > 0 && Has(q, other) && other != k
    ensures Lookup(Put(q, max, k, e), other) ==
            if |q| == max && q[0].0 == other then None else Lookup(q, other)
  {
    var room, q', i := Evicted(q, max), Put(q, max, k, e), Find(q, other);
    assert q[i].0 == other;
    if |q| == max && i == 0 {
      assert forall j :: 0 <= j < |room| ==> room[j] == q[j + 1] && room[j].0 != other;
      assert !Has(q', other);
    } else {
      var j := if |q| == max then i - 1 else i;
      assert room[j] == q[i];
      assert q'[j] == q[i];
      PutKeepsShape(q, max, k, e);
      FindAt(q', j);
      if |q| == max {
        assert q[0].0 != other;
      }
    }
  }

  lemma DropForgetsOnlyTheKey<K, E>(q: Letters<K, E>, k: K, other: K)
    requires Distinct(q)
    ensures Distinct(Drop(q, k))
    ensures Lookup(Drop(q, k), other) == if other == k then None else Lookup(q, other)
  {
    var r, q' := Find(q, k), Drop(q, k);
    if r < |q| {
      assert forall i :: 0 <= i < |q'| ==> q'[i] == if i < r then q[i] else q[i + 1];
      if other != k && Has(q, other) {
        var i := Find(q, other);
        var j := if i < r then i else i - 1;
        assert q'[j] == q[i];
        FindAt(q', j);
      }
    }
  }

  /** n pages of a given size, one after the other, the first one at `offset`. */
  function Pages<K, E>(q: Letters<K, E>, offset: nat, size: nat, n: nat): Letters<K, E>
    decreases n
  {
    if n == 0 then [] else Page(q, offset, size) + Pages(q, offset + size, size, n - 1)
  }

  lemma PageConcat<K, E>(q: Letters<K, E>, offset: nat, a: nat, b: nat)
    ensures Page(q, offset, a) + Page(q, offset + a, b) == Page(q, offset, a + b)
  {
  }

  /** Consecutive pages read the queue without gap or repetition: they are one large page. */
  lemma {:induction false} PagesReadInOrder<K, E>(q: Letters<K, E>, offset: nat, size: nat, n: nat)
    ensures n * size >= 0
    ensures Pages(q, offset, size, n) == Page(q, offset, n * size)
    decreases n
  {
    hide Page;
    if n > 0 {
      PagesReadInOrder(q, offset + size, size, n - 1);
      PageConcat(q, offset, size, (n - 1) * size);
      assert size + (n - 1) * size == n * size;
    } else {
      NoPage(q, offset);
    }
  }

  lemma NoPage<K, E>(q: Letters<K, E>, offset: nat)
    ensures Page(q, offset, 0) == []
  {
  }

  /** Enough pages from the start on list the whole queue, oldest entry first. */
  lemma PagesListEverything<K, E>(q: Letters<K, E>, size: nat, n: nat)
    requires n * size >= |q|
    ensures Pages(q, 0, size, n) == q
  {
    PagesReadInOrder(q, 0, size, n);
  }

  class DeadLetterQueue<K(==), E> {
    var entries: map<K, E>
    var order: seq<K>
    const maxSize: int

    /** `order` lists every key of the map exactly once. */
    ghost predicate Valid()
      reads this
    {
      && maxSize > 0 && |order| <= maxSize
      && Indexes(order, entries)
    }

    /** The entries, oldest first. */
    ghost function View(): (q: Letters<K, E>)
      requires Valid()
      reads this
      ensures Distinct(q) && |q| == |order| <= maxSize
    {
      Zip(order, entries)
    }

    constructor (maxSize: int)
      ensures Valid() && View() == []
      ensures this.maxSize == if maxSize <= 0 then 50000 else maxSize
    {
      this.maxSize := if maxSize <= 0 then 50000 else maxSize;
      entries, order := map[], [];
    }

    method EvictOldest()
      requires Valid()
      modifies this
      ensures Valid() && View() == Evicted(old(View()), maxSize)
    {
      MapSize(order, entries);
      if |entries| >= maxSize && |order| > 0 {
        ZipTail(order, entries);
        var oldest := order[0];
        order := order[1..];
        entries := entries - {oldest};
      }
    }

    /** Stores an entry, evicting the oldest one first when the queue is full. */
    method Add(id: K, e: E)
      requires Valid()
      modifies this
      ensures Valid()
      ensures View() == Put(old(View()), maxSize, id, e)
    {
      EvictOldest();
      ZipAdd(order, entries, id, e);
      if id !in entries {
        order := order + [id];
      }
      entries := entries[id := e];
    }

    /** One page of entries. The source panics exactly where the precondition does not hold: an index
        or a capacity is negative, or the capacity out of range. */
    method List(offset: int, limit: int) returns (r: seq<E>)
      requires Valid()
      requires offset < |order| ==>
                 0 <= limit && (0 <= offset || limit == 0) && offset + limit < 0x8000_0000_0000_0000
      ensures |r| == if offset >= |View()| then 0 else if limit < |View()| - offset then limit else |View()| - offset
      ensures |r| == |Page(View(), offset, limit)|
      ensures forall i :: 0 <= i < |r| ==> 0 <= offset && r[i] == View()[offset + i].1
      ensures forall i :: 0 <= i < |r| ==> r[i] == Page(View(), offset, limit)[i].1
    {
      var total := |order|;
      if offset >= total {
        return [];
      }
      var end := offset + limit;
      if end > total {
        end := total;
      }
      r := [];
      for i := offset to end
        invariant |r| == i - offset
        invariant forall j :: 0 <= j < |r| ==> r[j] == View()[offset + j].1
      {
        var id := order[i];
        assert id in order;
        if id in entries {
          r := r + [entries[id]];
        }
      }
    }

    /** Takes an entry out and closes the gap it leaves in the order. */
    method Remove(id: K) returns (r: Option<E>)
      requires Valid()
      modifies this
      ensures Valid()
      ensures r == Lookup(old(View()), id)
      ensures View() == Drop(old(View()), id)
    {
      if id !in entries {
        NotInZip(order, entries, id);
        return None;
      }
      r := Some(entries[id]);
      var i := 0;
      while order[i] != id
        invariant 0 <= i < |order| && id in order[i..]
        invariant forall j :: 0 <= j < i ==> order[j] != id
        decreases |order| - i
      {
        i := i + 1;
      }
      FindAt(View(), i);
      ZipDrop(order, entries, i);
      entries := entries - {id};
      order := order[..i] + order[i + 1..];
    }

    method Len() returns (n: nat)
      requires Valid()
      ensures n == |View()|
    {
      MapSize(order, entries);
      n := |entries|;
    }

    method Purge() returns (count: nat)
      requires Valid()
      modifies this
      ensures Valid() && View() == []
      ensures count == |old(View())|
    {
      MapSize(order, entries);
      count := |entries|;
      entries, order := map[], [];
    }
  }

  ghost function Zip<K, E>(order: seq<K>, entries: map<K, E>): (q: Letters<K, E>)
    requires forall k :: k in order ==> k in entries
    ensures |q| == |order|
    ensures forall i :: 0 <= i < |q| ==> q[i] == (order[i], entries[order[i]])
  {
    seq(|order|, i requires 0 <= i < |order| => (order[i], entries[order[i]]))
  }

  ghost predicate Indexes<K, E>(order: seq<K>, entries: map<K, E>) {
    && (forall i, j :: 0 <= i < j < |order| ==> order[i] != order[j])
    && (forall k :: k in entries ==> k in order)
    && (forall k :: k in order ==> k in entries)
  }

  lemma {:induction false} MapSize<K, E>(order: seq<K>, entries: map<K, E>)
    requires Indexes(order, entries)
    ensures |entries| == |order|
  {
    if order == [] {
      assert entries.Keys == {};
    } else {
      var rest := entries - {order[0]};
      assert forall k :: k in order[1..] ==> k in order && k != order[0];
      assert forall k :: k in order && k != order[0] ==> k in order[1..];
      MapSize(order[1..], rest);
      assert entries.Keys == rest.Keys + {order[0]};
    }
  }

  lemma ZipDrop<K, E>(order: seq<K>, entries: map<K, E>, i: nat)
    requires Indexes(order, entries) && i < |order|
    ensures var order', entries' := order[..i] + order[i + 1..], entries - {order[i]};
            Indexes(order', entries') &&
            Zip(order', entries') == Zip(order, entries)[..i] + Zip(order, entries)[i + 1..]
  {
    var order' := order[..i] + order[i + 1..];
    forall k | k in order && k != order[i]
      ensures k in order'
    {
      var j :| 0 <= j < |order| && order[j] == k;
      assert order'[if j < i then j else j - 1] == k;
    }
  }

  lemma ZipTail<K, E>(order: seq<K>, entries: map<K, E>)
    requires Indexes(order, entries) && order != []
    ensures Indexes(order[1..], entries - {order[0]})
    ensures Zip(order[1..], entries - {order[0]}) == Zip(order, entries)[1..]
  {
    ZipDrop(order, entries, 0);
    assert order[..0] + order[1..] == order[1..];
  }

  lemma NotInZip<K, E>(order: seq<K>, entries: map<K, E>, k: K)
    requires Indexes(order, entries) && k !in entries
    ensures Find(Zip(order, entries), k) == |order|
  {
  }

  lemma ZipAdd<K, E>(order: seq<K>, entries: map<K, E>, k: K, e: E)
    requires Indexes(order, entries)
    ensures var order' := if k in entries then order else order + [k];
            var q := Zip(order, entries);
            Indexes(order', entries[k := e]) &&
            Zip(order', entries[k := e]) == if Has(q, k) then q[Find(q, k) := (k, e)] else q + [(k, e)]
  {
    var q := Zip(order, entries);
    if k in entries {
      var i :| 0 <= i < |order| && order[i] == k;
      FindAt(q, i);
    } else {
      NotInZip(order, entries, k);
    }
  }
}
