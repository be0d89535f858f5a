/** The log's directory, and the order in which its files are replayed: filepath.Glob picks the
    segment files and sorts them by name. */
module Directory {
  import opened Bits
  import opened SegmentNames

  const FEW: nat := 1_000_000

  /** Matches vortexmq_*.wal. */
  predicate IsSegment(name: string) {
    |name| >= 13 && name[..9] == "vortexmq_" && name[|name| - 4..] == ".wal"
  }

  /** That is: any name that starts and ends like this. */
  lemma SegmentsMatchThePattern(name: string)
    ensures IsSegment(name) <==> exists middle :: name == "vortexmq_" + middle + ".wal"
  {
    if IsSegment(name) {
      assert name == "vortexmq_" + name[9..|name| - 4] + ".wal";
    }
  }

  ghost predicate IsSorted(l: seq<string>) {
    forall i, j :: 0 <= i < j < |l| ==> Before(l[i], l[j])
  }

  ghost predicate IsListing(l: seq<string>, names: set<string>) {
    IsSorted(l) && forall n :: n in l <==> n in names
  }

  lemma {:induction false} LeastExists(names: set<string>) returns (m: string)
    requires names != {}
    ensures m in names && forall n :: n in names ==> n == m || Before(m, n)
    decreases |names|
  {
    hide Before;
    var x :| x in names;
    if names == {x} {
      return x;
    }
    var rest := names - {x};
    assert names == rest + {x};
    var y := LeastExists(rest);
    OneIsBefore(x, y);
    if Before(x, y) {
      forall n | n in rest && n != y
        ensures Before(x, n)
      {
        BeforeIsTransitive(x, y, n);
      }
      return x;
    }
    return y;
  }

  lemma {:induction false} ListingExists(names: set<string>) returns (l: seq<string>)
    ensures IsListing(l, names)
    decreases |names|
  {
    if names == {} {
      return [];
    }
    var m := LeastExists(names);
    hide Before;
    var rest := ListingExists(names - {m});
    l := [m] + rest;
    forall i, j | 0 <= i < j < |l|
      ensures Before(l[i], l[j])
    {
      assert l[j] == rest[j - 1] && rest[j - 1] in rest;
    }
    forall n
      ensures n in l <==> n in names
    {
      assert n in l <==> n == m || n in rest;
    }
  }

  /** Names can be sorted in one way only. */
  lemma {:induction false} ListingIsUnique(l: seq<string>, l': seq<string>, names: set<string>)
    requires IsListing(l, names) && IsListing(l', names)
    ensures l == l'
    decreases |l|
  {
    hide Before;
    if l == [] {
      if l' != [] {
        FirstIsFirst(l', l, names);
      }
    } else {
      FirstIsFirst(l, l', names);
      TailIsListing(l, names);
      TailIsListing(l', names);
      ListingIsUnique(l[1..], l'[1..], names - {l[0]});
      assert l == [l[0]] + l[1..] && l' == [l'[0]] + l'[1..];
    }
  }

  lemma FirstIsFirst(l: seq<string>, l': seq<string>, names: set<string>)
    requires IsListing(l, names) && IsListing(l', names) && l != []
    ensures l' != [] && l[0] == l'[0]
  {
    hide Before;
    assert l[0] in l && l[0] in l';
    assert l'[0] in l' && l'[0] in l;
    var i :| 0 <= i < |l'| && l'[i] == l[0];
    var j :| 0 <= j < |l| && l[j] == l'[0];
    if i > 0 && j > 0 {
      assert Before(l'[0], l'[i]) && Before(l[0], l[j]);
      BeforeIsTransitive(l[0], l'[0], l[0]);
      NotBeforeItself(l[0]);
    }
  }

  lemma TailIsListing(l: seq<string>, names: set<string>)
    requires IsListing(l, names) && l != []
    ensures IsListing(l[1..], names - {l[0]})
  {
    hide Before;
    forall n
      ensures n in l[1..] <==> n in names - {l[0]}
    {
      if n in l[1..] {
        var i :| 0 <= i < |l[1..]| && l[1..][i] == n;
        assert Before(l[0], l[i + 1]);
        NotBeforeItself(n);
        assert n in l;
      } else if n in l {
        assert n == l[0];
      }
    }
  }

  /** The names in order. */
  ghost function Listing(names: set<string>): (l: seq<string>)
    ensures IsListing(l, names)
  {
    assert exists l :: IsListing(l, names) by {
      var l := ListingExists(names);
    }
    var l :| IsListing(l, names);
    l
  }

  ghost function Segments(dir: map<string, seq<byte>>): set<string> {
    set name | name in dir && IsSegment(name)
  }

  /** filepath.Glob */
  method Glob(dir: map<string, seq<byte>>) returns (l: seq<string>)
    ensures l == Listing(Segments(dir))
    ensures forall name :: name in l ==> name in dir
  {
    hide Before, IsSegment;
    var todo := set name | name in dir && IsSegment(name);
    l := [];
    while todo != {}
      invariant todo <= Segments(dir) && IsListing(l, Segments(dir) - todo)
      invariant forall i, n :: 0 <= i < |l| && n in todo ==> Before(l[i], n)
      decreases todo
    {
      ghost var least := LeastExists(todo);
      var m :| m in todo && forall n :: n in todo ==> n == m || Before(m, n);
      l, todo := l + [m], todo - {m};
    }
    assert Segments(dir) - {} == Segments(dir);
    ListingIsUnique(l, Listing(Segments(dir)), Segments(dir));
  }

  function Contents(dir: map<string, seq<byte>>, names: seq<string>): (c: seq<seq<byte>>)
    requires forall n :: n in names ==> n in dir
    ensures |c| == |names| && forall i :: 0 <= i < |c| ==> c[i] == dir[names[i]]
  {
    if names == [] then []
    else Contents(dir, names[..|names| - 1]) + [dir[names[|names| - 1]]]
  }

  /** The segment files in the order they are read in. */
  ghost function InOrder(dir: map<string, seq<byte>>): seq<seq<byte>> {
    Contents(dir, Listing(Segments(dir)))
  }

  /** The directory that holds segments 1, 2 and so on. */
  function Holding(image: seq<seq<byte>>): map<string, seq<byte>> {
    if image == [] then map[]
    else Holding(image[..|image| - 1])[Name(|image|) := image[|image| - 1]]
  }

  lemma NameIsSegment(i: nat)
    ensures IsSegment(Name(i))
  {
  }

  function Names(n: nat): (l: seq<string>)
    ensures |l| == n && forall i :: 0 <= i < n ==> l[i] == Name(i + 1)
  {
    if n == 0 then [] else Names(n - 1) + [Name(n)]
  }

  lemma {:induction false} HoldsThem(image: seq<seq<byte>>, i: nat)
    requires i < |image|
    ensures Name(i + 1) in Holding(image) && Holding(image)[Name(i + 1)] == image[i]
    decreases |image|
  {
    hide Name;
    var n := |image| - 1;
    if i < n {
      HoldsThem(image[..n], i);
      if Name(i + 1) == Name(n + 1) {
        NameInjective(i + 1, n + 1);
      }
    }
  }

  lemma {:induction false} HoldsNoOther(image: seq<seq<byte>>)
    ensures forall name :: name in Holding(image) ==> name in Names(|image|)
    decreases |image|
  {
    hide Name;
    if image != [] {
      HoldsNoOther(image[..|image| - 1]);
    }
  }

  lemma SegmentsHeld(image: seq<seq<byte>>)
    ensures forall name :: name in Segments(Holding(image)) <==> name in Names(|image|)
  {
    hide Name, IsSegment, Holding;
    HoldsNoOther(image);
    forall i | 0 <= i < |image|
      ensures Names(|image|)[i] in Segments(Holding(image))
    {
      NameIsSegment(i + 1);
      HoldsThem(image, i);
    }
  }

  lemma NamesAreSorted(n: nat)
    requires n < FEW
    ensures IsSorted(Names(n))
  {
    hide Name, Before, Names;
    forall i, j | 0 <= i < j < n
      ensures Before(Names(n)[i], Names(n)[j])
    {
      NamesInOrder(i + 1, j + 1);
    }
  }

  /** Fewer than a million segments are read in the order they were created in. */
  lemma FewAreReadInOrder(image: seq<seq<byte>>)
    requires |image| < FEW
    ensures InOrder(Holding(image)) == image
  {
    hide Name, Before, Holding, Names, IsSegment, IsSorted;
    var n := |image|;
    var dir, l := Holding(image), Names(n);
    NamesAreSorted(n);
    SegmentsHeld(image);
    assert IsListing(l, Segments(dir));
    ListingIsUnique(l, Listing(Segments(dir)), Segments(dir));
    forall i | 0 <= i < n
      ensures Contents(dir, l)[i] == image[i]
    {
      HoldsThem(image, i);
    }
  }

  /** From a million segments on, a later one is read before an earlier one. */
  lemma ManyAreNot(image: seq<seq<byte>>) returns (p: nat, q: nat)
    requires |image| >= FEW
    ensures var l := Listing(Segments(Holding(image)));
            p < q < |l| && l[p] == Name(1_000_000) && l[q] == Name(100_001)
  {
    hide Name, Before;
    var dir := Holding(image);
    var l := Listing(Segments(dir));
    SegmentsHeld(image);
    assert Names(|image|)[999_999] == Name(1_000_000) && Names(|image|)[100_000] == Name(100_001);
    assert Name(1_000_000) in l && Name(100_001) in l;
    p :| 0 <= p < |l| && l[p] == Name(1_000_000);
    q :| 0 <= q < |l| && l[q] == Name(100_001);
    MillionthSortsEarly();
  }
}
