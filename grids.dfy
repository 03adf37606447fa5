/**
 The layout of main's nested loops: a grid of rows, one list per token, written out
 list after list. Nothing here depends on what a row holds.
 */
module Grids {

  /** Every list of the grid has h elements. */
  predicate Rectangular<T>(g: seq<seq<T>>, h: nat) {
    forall i :: 0 <= i < |g| ==> |g[i]| == h
  }

  /** The first n lists of the grid, one after the other. */
  function Flatten<T>(g: seq<seq<T>>, n: nat): seq<T>
    requires n <= |g|
  {
    if n == 0 then [] else Flatten(g, n - 1) + g[n - 1]
  }

  /** The number of elements before list i when every list has h: i * h, counted list by list. */
  function Offset(i: nat, h: nat): nat {
    if i == 0 then 0 else Offset(i - 1, h) + h
  }

  lemma {:induction false} OffsetIsProduct(i: nat, h: nat)
    ensures Offset(i, h) == i * h
  {
    if i > 0 {
      OffsetIsProduct(i - 1, h);
      assert (i - 1) * h + h == i * h;
    }
  }

  lemma {:induction false} OffsetMonotone(i: nat, n: nat, h: nat)
    requires i <= n
    ensures Offset(i, h) <= Offset(n, h)
    decreases n
  {
    if i < n {
      OffsetMonotone(i, n - 1, h);
    }
  }

  lemma {:induction false} FlattenLength<T>(g: seq<seq<T>>, h: nat, n: nat)
    requires n <= |g| && Rectangular(g, h)
    ensures |Flatten(g, n)| == Offset(n, h)
  {
    if n > 0 {
      FlattenLength(g, h, n - 1);
    }
  }

  /** Element j of list i sits at Offset(i, h) + j: lists in order, each list in its own order. */
  lemma {:induction false} FlattenAt<T>(g: seq<seq<T>>, h: nat, n: nat, i: nat, j: nat)
    requires n <= |g| && Rectangular(g, h)
    requires i < n && j < h
    ensures Offset(i, h) + j < |Flatten(g, n)|
    ensures Flatten(g, n)[Offset(i, h) + j] == g[i][j]
  {
    FlattenLength(g, h, n);
    FlattenLength(g, h, n - 1);
    OffsetMonotone(i + 1, n, h);
    var before := Flatten(g, n - 1);
    var k := Offset(i, h) + j;
    if i < n - 1 {
      OffsetMonotone(i + 1, n - 1, h);
      FlattenAt(g, h, n - 1, i, j);
      assert (before + g[n - 1])[k] == before[k];
    } else {
      assert (before + g[n - 1])[k] == g[n - 1][j];
    }
  }

  /** A grid of n lists of h elements flattens to n * h elements. */
  lemma FlattenSize<T>(g: seq<seq<T>>, h: nat)
    requires Rectangular(g, h)
    ensures |Flatten(g, |g|)| == |g| * h
  {
    FlattenLength(g, h, |g|);
    OffsetIsProduct(|g|, h);
  }

  /** Element j of list i sits at i * h + j. */
  lemma FlattenIndex<T>(g: seq<seq<T>>, h: nat, i: nat, j: nat)
    requires Rectangular(g, h) && i < |g| && j < h
    ensures i * h + j < |Flatten(g, |g|)|
    ensures Flatten(g, |g|)[i * h + j] == g[i][j]
  {
    FlattenAt(g, h, |g|, i, j);
    OffsetIsProduct(i, h);
  }

  /** List i appears whole, as the slice from i * h to i * h + h. */
  lemma FlattenSlice<T>(g: seq<seq<T>>, h: nat, i: nat)
    requires Rectangular(g, h) && i < |g|
    ensures i * h + h <= |Flatten(g, |g|)|
    ensures Flatten(g, |g|)[i * h..i * h + h] == g[i]
  {
    var flat := Flatten(g, |g|);
    FlattenLength(g, h, |g|);
    OffsetMonotone(i + 1, |g|, h);
    OffsetIsProduct(i, h);
    forall j | 0 <= j < h
      ensures flat[i * h + j] == g[i][j]
    {
      FlattenAt(g, h, |g|, i, j);
    }
  }
}
