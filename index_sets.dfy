/**
 * Finite sets of parameter indices: the contiguous run 1..max, the largest and
 * smallest element of a set, and the ascending list of a set's elements
 * (what sorting the list of a dictionary's integer keys yields).
 */
module IndexSets {

  /** The integers lo..hi inclusive (empty when hi < lo). */
  function Range(lo: int, hi: int): (r: set<int>)
    ensures forall x :: x in r <==> lo <= x <= hi
    decreases hi - lo
  {
    if hi < lo then {} else Range(lo, hi - 1) + {hi}
  }

  /** The elements of a list, as a set. */
  function Elems(s: seq<int>): set<int>
  {
    set x | x in s
  }

  /** Strictly ascending: sorted and free of repeats. */
  predicate Increasing(s: seq<int>)
  {
    forall i, j :: 0 <= i < j < |s| ==> s[i] < s[j]
  }

  /** The list 1, 2, ..., top (empty when top <= 0), as Python's range(1, top + 1). */
  function InOrder(top: int): seq<int>
  {
    if top <= 0 then [] else seq(top, i => i + 1)
  }

  /** A non-empty set has a member. */
  lemma Witness(s: set<int>)
    requires s != {}
    ensures exists x :: x in s
  {
    if forall x :: x !in s {
      assert false;
    }
  }

  /** The largest element of a non-empty set. */
  ghost function SetMax(s: set<int>): (m: int)
    requires s != {}
    ensures m in s
    ensures forall y :: y in s ==> y <= m
    decreases |s|
  {
    Witness(s);
    var x :| x in s;
    var rest := s - {x};
    if rest == {} then
      assert s == {x};
      x
    else
      var m' := SetMax(rest);
      assert forall y :: y in s ==> y == x || y in rest;
      if x < m' then m' else x
  }

  /** The smallest element of a non-empty set. */
  ghost function SetMin(s: set<int>): (m: int)
    requires s != {}
    ensures m in s
    ensures forall y :: y in s ==> m <= y
    decreases |s|
  {
    Witness(s);
    var x :| x in s;
    var rest := s - {x};
    if rest == {} then
      assert s == {x};
      x
    else
      var m' := SetMin(rest);
      assert forall y :: y in s ==> y == x || y in rest;
      if m' < x then m' else x
  }

  /** The run 1..n has exactly n members. */
  lemma {:induction false} RangeSize(n: nat)
    ensures |Range(1, n)| == n
  {
    if n > 0 {
      RangeSize(n - 1);
      assert Range(1, n) == Range(1, n - 1) + {n};
    }
  }

  /** range(1, top + 1) is ascending and holds exactly the run 1..top. */
  lemma InOrderShape(top: int)
    ensures Increasing(InOrder(top))
    ensures Elems(InOrder(top)) == Range(1, top)
  {
    var s := InOrder(top);
    forall x | 1 <= x <= top
      ensures x in Elems(s)
    {
      assert s[x - 1] == x;
    }
  }

  /** Only the empty list has no elements. */
  lemma ElemsEmpty(s: seq<int>)
    ensures Elems(s) == {} <==> s == []
  {
    if s != [] {
      assert s[0] in Elems(s);
    }
  }

  /** Dropping the head of an ascending list removes exactly its smallest element. */
  lemma ElemsTail(a: seq<int>)
    requires Increasing(a) && a != []
    ensures Elems(a[1..]) == Elems(a) - {a[0]}
  {
    forall x | x in Elems(a) - {a[0]}
      ensures x in Elems(a[1..])
    {
      var j :| 0 <= j < |a| && a[j] == x;
      assert a[1..][j - 1] == x;
    }
  }

  /** Sorting is determined by the elements: two ascending lists with the same elements are equal. */
  lemma {:induction false} IncreasingUnique(a: seq<int>, b: seq<int>)
    requires Increasing(a) && Increasing(b) && Elems(a) == Elems(b)
    ensures a == b
    decreases |a|
  {
    ElemsEmpty(a);
    ElemsEmpty(b);
    if a != [] {
      assert a[0] in Elems(b);
      assert b != [];
      assert b[0] in Elems(a);
      var i :| 0 <= i < |a| && a[i] == b[0];
      var j :| 0 <= j < |b| && b[j] == a[0];
      assert a[0] <= a[i] && b[0] <= b[j];
      ElemsTail(a);
      ElemsTail(b);
      IncreasingUnique(a[1..], b[1..]);
      assert a == [a[0]] + a[1..] && b == [b[0]] + b[1..];
    }
  }

  /** The last element of a non-empty ascending list is the largest of its elements. */
  lemma LastIsMax(a: seq<int>)
    requires Increasing(a) && a != []
    ensures Elems(a) != {} && a[|a| - 1] == SetMax(Elems(a))
  {
    assert a[0] in Elems(a);
    var m := SetMax(Elems(a));
    var j :| 0 <= j < |a| && a[j] == m;
    assert a[|a| - 1] in Elems(a);
  }

  /** Appending one element adds exactly that element. */
  lemma ElemsAppend(s: seq<int>, x: int)
    ensures Elems(s + [x]) == Elems(s) + {x}
  {
    assert (s + [x])[|s|] == x;
    forall y | y in Elems(s)
      ensures y in Elems(s + [x])
    {
      var j :| 0 <= j < |s| && s[j] == y;
      assert (s + [x])[j] == y;
    }
  }

  /** Every element of the list lies below every element of the set. */
  predicate Below(s: seq<int>, rest: set<int>)
  {
    forall i, y :: 0 <= i < |s| && y in rest ==> s[i] < y
  }

  /** Moving the smallest remaining element to the end keeps the list ascending and below the rest. */
  lemma SortStep(s: seq<int>, rest: set<int>, keys: set<int>, x: int)
    requires Increasing(s) && Below(s, rest) && Elems(s) + rest == keys
    requires x in rest && forall y :: y in rest ==> x <= y
    ensures Increasing(s + [x]) && Below(s + [x], rest - {x})
    ensures Elems(s + [x]) + (rest - {x}) == keys
  {
    ElemsAppend(s, x);
  }

  /**
   * The keys of a mapping in ascending order, as list(keys) followed by
   * list.sort(); each step moves the smallest key not yet placed.
   */
  method SortedIndices(keys: set<int>) returns (sorted: seq<int>)
    ensures Increasing(sorted)
    ensures Elems(sorted) == keys
  {
    sorted := [];
    var rest := keys;
    while rest != {}
      invariant Increasing(sorted)
      invariant Elems(sorted) + rest == keys
      invariant Below(sorted, rest)
      decreases |rest|
    {
      // SetMin(rest) is the witness that the choice below is possible.
      ghost var lowest := SetMin(rest);
      var x :| x in rest && forall y :: y in rest ==> x <= y;
      SortStep(sorted, rest, keys, x);
      sorted := sorted + [x];
      rest := rest - {x};
    }
  }
}
