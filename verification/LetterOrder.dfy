/** The order of the dead letters, told without their list: a map in which every letter has the number
    of the operation that first brought it in. */
module LetterOrder {
  import opened DeadLetters

  datatype Op<K, E> = Add(key: K, entry: E) | Remove(key: K) | Purge

  function After<K(==), E>(q: Letters<K, E>, max: nat, op: Op<K, E>): Letters<K, E> {
    match op
    case Add(k, e) => Put(q, max, k, e)
    case Remove(k) => Drop(q, k)
    case Purge => []
  }

  function AfterAll<K(==), E>(max: nat, ops: seq<Op<K, E>>): Letters<K, E> {
    if ops == [] then [] else After(AfterAll(max, ops[..|ops| - 1]), max, ops[|ops| - 1])
  }

  datatype Dated<E> = Dated(entry: E, born: nat)

  /** Some other letter came in before this one. */
  ghost predicate HasElder<K, E>(m: map<K, Dated<E>>, k: K)
    requires k in m
  {
    exists j :: j in m && m[j].born < m[k].born
  }

  /** A full shelf loses its eldest letter, which is the one without an elder. */
  ghost function WithRoom<K, E>(m: map<K, Dated<E>>, max: nat): map<K, Dated<E>> {
    if |m| >= max then map k | k in m && HasElder(m, k) :: m[k] else m
  }

  /** Operation number `now`: a letter that is there keeps its date, a new one gets this. */
  ghost function Shelved<K, E>(m: map<K, Dated<E>>, max: nat, op: Op<K, E>, now: nat): map<K, Dated<E>> {
    match op
    case Add(k, e) =>
      var room := WithRoom(m, max);
      room[k := Dated(e, if k in room then room[k].born else now)]
    case Remove(k) => m - {k}
    case Purge => map[]
  }

  ghost function ShelfAfter<K, E>(max: nat, ops: seq<Op<K, E>>): map<K, Dated<E>> {
    if ops == [] then map[]
    else Shelved(ShelfAfter(max, ops[..|ops| - 1]), max, ops[|ops| - 1], |ops| - 1)
  }

  /** The list is the shelf, by date. */
  ghost predicate ByDate<K, E>(q: Letters<K, E>, m: map<K, Dated<E>>, now: nat) {
    OnShelf(q, m, now) && Rising(q, m) && forall k :: k in m ==> Has(q, k)
  }

  ghost predicate OnShelf<K, E>(q: Letters<K, E>, m: map<K, Dated<E>>, now: nat) {
    forall i :: 0 <= i < |q| ==> q[i].0 in m && m[q[i].0].entry == q[i].1 && m[q[i].0].born < now
  }

  ghost predicate Rising<K, E>(q: Letters<K, E>, m: map<K, Dated<E>>)
    requires forall i :: 0 <= i < |q| ==> q[i].0 in m
  {
    forall i, j :: 0 <= i < j < |q| ==> m[q[i].0].born < m[q[j].0].born
  }

  lemma {:induction false} SameSize<K, E>(q: Letters<K, E>, m: map<K, Dated<E>>, now: nat)
    requires ByDate(q, m, now)
    ensures |m| == |q|
    decreases |q|
  {
    if q == [] {
      assert m.Keys == {};
    } else {
      var k := q[0].0;
      TailByDate(q, m, now);
      SameSize(q[1..], m - {k}, now);
      assert m.Keys == (m - {k}).Keys + {k};
    }
  }

  lemma Found<K, E>(q: Letters<K, E>, i: nat)
    requires i < |q|
    ensures Has(q, q[i].0)
  {
    assert Find(q, q[i].0) <= i;
  }

  lemma DropByDate<K, E>(q: Letters<K, E>, m: map<K, Dated<E>>, now: nat, r: nat)
    requires ByDate(q, m, now) && r < |q|
    ensures ByDate(q[..r] + q[r + 1..], m - {q[r].0}, now)
  {
    hide Find;
    var q', m' := q[..r] + q[r + 1..], m - {q[r].0};
    DropStaysOnShelf(q, m, now, r);
    forall k | k in m'
      ensures Has(q', k)
    {
      hide ByDate, OnShelf, Rising;
      var i := Find(q, k);
      assert q'[if i < r then i else i - 1] == q[i];
      Found(q', if i < r then i else i - 1);
    }
  }

  lemma DropStaysOnShelf<K, E>(q: Letters<K, E>, m: map<K, Dated<E>>, now: nat, r: nat)
    requires OnShelf(q, m, now) && Rising(q, m) && r < |q|
    ensures var q', m' := q[..r] + q[r + 1..], m - {q[r].0};
            OnShelf(q', m', now) && Rising(q', m')
  {
    var q', m' := q[..r] + q[r + 1..], m - {q[r].0};
    forall i | 0 <= i < |q'|
      ensures q'[i].0 in m' && m'[q'[i].0] == m[q'[i].0] && q'[i] == q[if i < r then i else i + 1]
    {
      var j := if i < r then i else i + 1;
      assert q'[i] == q[j];
      assert m[q[j].0].born != m[q[r].0].born;
    }
  }

  lemma TailByDate<K, E>(q: Letters<K, E>, m: map<K, Dated<E>>, now: nat)
    requires ByDate(q, m, now) && q != []
    ensures ByDate(q[1..], m - {q[0].0}, now)
  {
    DropByDate(q, m, now, 0);
    assert q[..0] + q[1..] == q[1..];
  }

  lemma RoomByDate<K, E>(q: Letters<K, E>, m: map<K, Dated<E>>, max: nat, now: nat)
    requires ByDate(q, m, now) && max > 0
    ensures ByDate(Evicted(q, max), WithRoom(m, max), now)
  {
    hide Find, ByDate, HasElder, WithRoom;
    SameSize(q, m, now);
    RoomToSpare(m, max);
    if |q| >= max {
      TailByDate(q, m, now);
      forall k | k in m
        ensures HasElder(m, k) <==> k != q[0].0
      {
        EldestIsFirst(q, m, now, k);
      }
      EldestGoes(m, max, q[0].0);
    }
  }

  lemma RoomToSpare<K, E>(m: map<K, Dated<E>>, max: nat)
    ensures |m| < max ==> WithRoom(m, max) == m
  {
  }

  lemma EldestGoes<K, E>(m: map<K, Dated<E>>, max: nat, eldest: K)
    requires |m| >= max && forall k :: k in m ==> (HasElder(m, k) <==> k != eldest)
    ensures WithRoom(m, max) == m - {eldest}
  {
    hide HasElder;
    assert WithRoom(m, max).Keys == m.Keys - {eldest};
  }

  lemma EldestIsFirst<K, E>(q: Letters<K, E>, m: map<K, Dated<E>>, now: nat, k: K)
    requires ByDate(q, m, now) && q != [] && k in m
    ensures HasElder(m, k) <==> k != q[0].0
  {
    hide Find;
    var i := Find(q, k);
    if i > 0 {
      assert q[0].0 in m && m[q[0].0].born < m[q[i].0].born;
    } else {
      forall j | j in m
        ensures m[j].born >= m[k].born
      {
        var n := Find(q, j);
        assert n > 0 ==> m[q[0].0].born < m[q[n].0].born;
      }
    }
  }

  lemma PutByDate<K, E>(room: Letters<K, E>, m: map<K, Dated<E>>, k: K, e: E, now: nat)
    requires ByDate(room, m, now)
    ensures var q' := if Has(room, k) then room[Find(room, k) := (k, e)] else room + [(k, e)];
            ByDate(q', m[k := Dated(e, if k in m then m[k].born else now)], now + 1)
  {
    hide Find;
    if Has(room, k) {
      ReplaceByDate(room, m, k, e, now);
    } else {
      AppendByDate(room, m, k, e, now);
    }
  }

  lemma ReplaceByDate<K, E>(q: Letters<K, E>, m: map<K, Dated<E>>, k: K, e: E, now: nat)
    requires ByDate(q, m, now) && Has(q, k)
    ensures k in m && ByDate(q[Find(q, k) := (k, e)], m[k := Dated(e, m[k].born)], now + 1)
  {
    hide Find;
    var r := Find(q, k);
    var q', m' := q[r := (k, e)], m[k := Dated(e, m[k].born)];
    assert q[r].0 == k;
    forall i | 0 <= i < |q|
      ensures q'[i].0 == q[i].0 && (i != r ==> q[i].0 != k && q'[i] == q[i])
    {
      assert i < r ==> m[q[i].0].born < m[q[r].0].born;
      assert r < i ==> m[q[r].0].born < m[q[i].0].born;
    }
    assert OnShelf(q', m', now + 1) && Rising(q', m');
    forall x | x in m'
      ensures Has(q', x)
    {
      assert q'[Find(q, x)].0 == x;
      Found(q', Find(q, x));
    }
  }

  lemma AppendByDate<K, E>(q: Letters<K, E>, m: map<K, Dated<E>>, k: K, e: E, now: nat)
    requires ByDate(q, m, now) && !Has(q, k)
    ensures k !in m && ByDate(q + [(k, e)], m[k := Dated(e, now)], now + 1)
  {
    hide Find;
    var q', m' := q + [(k, e)], m[k := Dated(e, now)];
    assert k !in m;
    assert forall i :: 0 <= i < |q| ==> q'[i] == q[i] && m'[q[i].0] == m[q[i].0];
    assert OnShelf(q', m', now + 1) && Rising(q', m');
    forall x | x in m'
      ensures Has(q', x)
    {
      if x == k {
        assert q'[|q|].0 == x;
        Found(q', |q|);
      } else {
        assert q'[Find(q, x)].0 == x;
        Found(q', Find(q, x));
      }
    }
  }

  /** Over any sequence of additions, removals and purges, the list holds exactly the surviving letters,
      with their latest entries, in the order in which they first came in; and what a full queue gives
      up is the one that came in first. */
  lemma {:induction false} LettersAreInOrderOfArrival<K, E>(max: nat, ops: seq<Op<K, E>>)
    requires max > 0
    ensures ByDate(AfterAll(max, ops), ShelfAfter(max, ops), |ops|)
    ensures |AfterAll(max, ops)| == |ShelfAfter(max, ops)|
  {
    if ops != [] {
      var n := |ops| - 1;
      var q, m := AfterAll(max, ops[..n]), ShelfAfter(max, ops[..n]);
      LettersAreInOrderOfArrival(max, ops[..n]);
      match ops[n]
      case Add(k, e) =>
        RoomByDate(q, m, max, n);
        PutByDate(Evicted(q, max), WithRoom(m, max), k, e, n);
      case Remove(k) =>
        RemoveByDate(q, m, k, n);
      case Purge =>
    }
    SameSize(AfterAll(max, ops), ShelfAfter(max, ops), |ops|);
  }

  lemma RemoveByDate<K, E>(q: Letters<K, E>, m: map<K, Dated<E>>, k: K, now: nat)
    requires ByDate(q, m, now)
    ensures ByDate(Drop(q, k), m - {k}, now + 1)
  {
    hide Find, Rising, OnShelf;
    if Has(q, k) {
      assert q[Find(q, k)].0 == k;
      DropByDate(q, m, now, Find(q, k));
    } else {
      assert m - {k} == m;
    }
    hide ByDate;
    LaterByDate(Drop(q, k), m - {k}, now);
  }

  lemma LaterByDate<K, E>(q: Letters<K, E>, m: map<K, Dated<E>>, now: nat)
    requires ByDate(q, m, now)
    ensures ByDate(q, m, now + 1)
  {
    hide Find, Rising;
  }

  /** One addition of an unknown letter: it is the last one, and before it is the old queue, less its
      first letter when it was full. */
  lemma NewLetterIsLast<K, E>(q: Letters<K, E>, max: nat, k: K, e: E)
    requires !Has(q, k) && max > 0
    ensures var q' := Put(q, max, k, e);
            && q' != [] && q'[|q'| - 1] == (k, e)
            && q'[..|q'| - 1] == if |q| >= max then q[1..] else q
  {
  }
}
