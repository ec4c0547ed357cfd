/** Lists of basis states, sorted and de-duplicated as `std::sort` + `std::unique` leave them. */
module BasisLists {

  ghost predicate Increasing(xs: seq<nat>) {
    forall i, j | 0 <= i < j < |xs| :: xs[i] < xs[j]
  }

  function Insert(x: nat, xs: seq<nat>): (r: seq<nat>)
    requires Increasing(xs)
    ensures Increasing(r)
    ensures forall y :: y in r <==> y == x || y in xs
  {
    if xs == [] then [x]
    else if x < xs[0] then [x] + xs
    else if x == xs[0] then xs
    else
      var r := [xs[0]] + Insert(x, xs[1..]);
      assert forall y :: y in xs <==> y == xs[0] || y in xs[1..];
      assert forall i | 0 <= i < |Insert(x, xs[1..])| :: Insert(x, xs[1..])[i] in Insert(x, xs[1..]);
      r
  }

  /** The listed states, each once, in increasing order. */
  function SortUnique(xs: seq<nat>): (r: seq<nat>)
    ensures Increasing(r)
    ensures forall y :: y in r <==> y in xs
    ensures r == [] <==> xs == []
  {
    if xs == [] then []
    else
      assert xs == xs[..|xs| - 1] + [xs[|xs| - 1]];
      assert xs[|xs| - 1] in Insert(xs[|xs| - 1], SortUnique(xs[..|xs| - 1]));
      Insert(xs[|xs| - 1], SortUnique(xs[..|xs| - 1]))
  }

  /** Only one increasing list has given members, so any sort-and-unique gives `SortUnique`. */
  lemma {:induction false} IncreasingUnique(a: seq<nat>, b: seq<nat>)
    requires Increasing(a) && Increasing(b) && forall y :: y in a <==> y in b
    ensures a == b
  {
    EmptyTogether(a, b);
    if a != [] {
      SameFirst(a, b);
      var x := a[0];
      assert a == [x] + a[1..] && b == [x] + b[1..];
      forall y
        ensures y in a[1..] <==> y in b[1..]
      {
        assert x !in a[1..] && x !in b[1..];
        assert y in a <==> y in b;
      }
      IncreasingUnique(a[1..], b[1..]);
    }
  }

  lemma EmptyTogether(a: seq<nat>, b: seq<nat>)
    requires forall y :: y in a <==> y in b
    ensures a == [] <==> b == []
  {
    if a != [] {
      assert a[0] in b;
    }
    if b != [] {
      assert b[0] in a;
    }
  }

  /** The first elements are each other's least. */
  lemma SameFirst(a: seq<nat>, b: seq<nat>)
    requires Increasing(a) && Increasing(b) && a != [] && b != [] && forall y :: y in a <==> y in b
    ensures a[0] == b[0]
  {
    assert a[0] in b && b[0] in a;
    var i :| 0 <= i < |a| && a[i] == b[0];
    var j :| 0 <= j < |b| && b[j] == a[0];
  }

  /** An increasing list is as long as its set of members. */
  lemma {:induction false} IncreasingCount(xs: seq<nat>, members: set<nat>)
    requires Increasing(xs) && forall y :: y in members <==> y in xs
    ensures |members| == |xs|
  {
    if xs == [] {
      assert members == {};
    } else {
      var l := |xs| - 1;
      var x, rest := xs[l], members - {xs[l]};
      assert xs == xs[..l] + [x] && x in members;
      forall y
        ensures y in rest <==> y in xs[..l]
      {
      }
      IncreasingCount(xs[..l], rest);
    }
  }

  /** So sorting and removing repetitions keeps as many states as were listed, each counted once. */
  lemma SortUniqueCount(xs: seq<nat>)
    ensures |SortUnique(xs)| == |set x | x in xs|
  {
    hide SortUnique;
    var members := set x | x in xs;
    IncreasingCount(SortUnique(xs), members);
    assert members == set x | x in xs;
  }

  /** The listed states are in range, one by one. */
  method CheckRange(basisStates: seq<nat>, numStates: nat) returns (ok: bool)
    ensures ok <==> forall i | 0 <= i < |basisStates| :: basisStates[i] < numStates
  {
    var i: nat := 0;
    while i < |basisStates|
      invariant i <= |basisStates| && forall j | 0 <= j < i :: basisStates[j] < numStates
    {
      if basisStates[i] >= numStates { return false; }
      i := i + 1;
    }
    ok := true;
  }
}
