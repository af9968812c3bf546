/** Running totals, whose terms are taken in the order the loops of CDist.h
    add them, and the per-index shares that prior-gradient accumulation adds
    into a gradient vector. Reals are exact here, so the grouping of the
    additions (a row total, or a share, added at once rather than term by
    term) is not kept: it matters only under floating-point rounding, which
    is not modelled. */
module Sums {

  /** s[0] + s[1] + ... + s[|s| - 1], added left to right. */
  function Sum(s: seq<real>): real
  {
    if s == [] then 0.0 else Sum(s[..|s| - 1]) + s[|s| - 1]
  }

  /** A sum over a concatenation splits into the sums of its parts. */
  lemma {:induction false} SumAppend(a: seq<real>, b: seq<real>)
    ensures Sum(a + b) == Sum(a) + Sum(b)
  {
    if b == [] {
      assert a + b == a;
    } else {
      assert (a + b)[..|a + b| - 1] == a + b[..|b| - 1];
      SumAppend(a, b[..|b| - 1]);
    }
  }

  /** Adding v to one entry adds v to the total. */
  lemma {:induction false} SumUpdate(s: seq<real>, j: nat, v: real)
    requires j < |s|
    ensures Sum(s[j := s[j] + v]) == Sum(s) + v
  {
    var t := s[j := s[j] + v];
    if j == |s| - 1 {
      assert t[..|t| - 1] == s[..|s| - 1];
    } else {
      assert t[..|t| - 1] == s[..|s| - 1][j := s[j] + v];
      SumUpdate(s[..|s| - 1], j, v);
    }
  }

  /** f(row[0]) + ... + f(row[|row| - 1]), added left to right. */
  function RowSum(f: real -> real, row: seq<real>): real
  {
    if row == [] then 0.0 else RowSum(f, row[..|row| - 1]) + f(row[|row| - 1])
  }

  /** RowSum over every row in turn: the entries in row-major order, each
      row's total added at once. */
  function GridSum(f: real -> real, rows: seq<seq<real>>): real
  {
    if rows == [] then 0.0 else GridSum(f, rows[..|rows| - 1]) + RowSum(f, rows[|rows| - 1])
  }

  /** The entries of a matrix, row after row. */
  function Flatten(rows: seq<seq<real>>): seq<real>
  {
    if rows == [] then [] else Flatten(rows[..|rows| - 1]) + rows[|rows| - 1]
  }

  lemma {:induction false} RowSumAppend(f: real -> real, a: seq<real>, b: seq<real>)
    ensures RowSum(f, a + b) == RowSum(f, a) + RowSum(f, b)
  {
    if b == [] {
      assert a + b == a;
    } else {
      assert (a + b)[..|a + b| - 1] == a + b[..|b| - 1];
      RowSumAppend(f, a, b[..|b| - 1]);
    }
  }

  /** The row-by-row total is the total over all entries taken as one
      sequence: grouping by rows does not change what is summed. */
  lemma {:induction false} GridSumIsFlatSum(f: real -> real, rows: seq<seq<real>>)
    ensures GridSum(f, rows) == RowSum(f, Flatten(rows))
  {
    if rows != [] {
      GridSumIsFlatSum(f, rows[..|rows| - 1]);
      RowSumAppend(f, Flatten(rows[..|rows| - 1]), rows[|rows| - 1]);
    }
  }

  /** Rows with no entries contribute nothing: a matrix with no columns sums to 0. */
  lemma {:induction false} GridSumOfEmptyRows(f: real -> real, rows: seq<seq<real>>)
    requires forall i :: 0 <= i < |rows| ==> rows[i] == []
    ensures GridSum(f, rows) == 0.0
  {
    if rows != [] {
      GridSumOfEmptyRows(f, rows[..|rows| - 1]);
    }
  }

  /** The share of index k: the sum of c[i] over the positions i with idx[i] == k,
      in position order. */
  function IndexSum(idx: seq<int>, c: seq<real>, k: int): real
    requires |idx| == |c|
  {
    if idx == [] then 0.0
    else IndexSum(idx[..|idx| - 1], c[..|c| - 1], k) + (if idx[|idx| - 1] == k then c[|c| - 1] else 0.0)
  }

  /** The shares of the indices 0 .. n - 1. */
  function Shares(idx: seq<int>, c: seq<real>, n: nat): (s: seq<real>)
    requires |idx| == |c|
    ensures |s| == n
  {
    seq(n, k => IndexSum(idx, c, k))
  }

  /** An index that no position names gets nothing. */
  lemma {:induction false} IndexSumUnbound(idx: seq<int>, c: seq<real>, k: int)
    requires |idx| == |c|
    requires forall i :: 0 <= i < |idx| ==> idx[i] != k
    ensures IndexSum(idx, c, k) == 0.0
  {
    if idx != [] {
      IndexSumUnbound(idx[..|idx| - 1], c[..|c| - 1], k);
    }
  }

  /** Shares accumulate: the share of k over two lists of bindings is the sum
      of its shares over each. */
  lemma {:induction false} IndexSumAppend(idx1: seq<int>, c1: seq<real>, idx2: seq<int>, c2: seq<real>, k: int)
    requires |idx1| == |c1| && |idx2| == |c2|
    ensures IndexSum(idx1 + idx2, c1 + c2, k) == IndexSum(idx1, c1, k) + IndexSum(idx2, c2, k)
  {
    if idx2 != [] {
      assert (idx1 + idx2)[..|idx1 + idx2| - 1] == idx1 + idx2[..|idx2| - 1];
      assert (c1 + c2)[..|c1 + c2| - 1] == c1 + c2[..|c2| - 1];
      IndexSumAppend(idx1, c1, idx2[..|idx2| - 1], c2[..|c2| - 1], k);
    } else {
      assert idx1 + idx2 == idx1 && c1 + c2 == c1;
    }
  }

  /** Two bindings on the same index with the same contribution v add 2v to
      that index's share: stacked priors accumulate, they do not replace. */
  lemma {:induction false} StackedShare(idx: seq<int>, c: seq<real>, k: int, v: real)
    requires |idx| == |c|
    ensures IndexSum(idx + [k, k], c + [v, v], k) == IndexSum(idx, c, k) + 2.0 * v
  {
    IndexSumAppend(idx, c, [k, k], [v, v], k);
    assert [k, k][..1] == [k] && [v, v][..1] == [v];
    assert [k][..0] == [] && [v][..0] == [];
    assert IndexSum([k], [v], k) == v;
  }

  /** Appending one binding (j, v) raises the share of j by v and leaves the
      other shares as they were. */
  lemma SharesAppendOne(idx: seq<int>, c: seq<real>, j: nat, v: real, n: nat)
    requires |idx| == |c| && j < n
    ensures Shares(idx + [j], c + [v], n) == Shares(idx, c, n)[j := Shares(idx, c, n)[j] + v]
  {
    var s, t := Shares(idx, c, n), Shares(idx + [j], c + [v], n);
    forall k | 0 <= k < n
      ensures t[k] == s[j := s[j] + v][k]
    {
      assert (idx + [j])[..|idx|] == idx && (c + [v])[..|c|] == c;
    }
  }

  /** Nothing is lost or double counted: when every binding names an index
      below n, the shares of 0 .. n - 1 add up to the total of all
      contributions. */
  lemma {:induction false} SharesAddUp(idx: seq<int>, c: seq<real>, n: nat)
    requires |idx| == |c|
    requires forall i :: 0 <= i < |idx| ==> 0 <= idx[i] < n
    ensures Sum(Shares(idx, c, n)) == Sum(c)
  {
    if idx == [] {
      var s := Shares(idx, c, n);
      forall k | 0 <= k < n ensures s[k] == 0.0 {
        IndexSumUnbound(idx, c, k);
      }
      ZeroSum(s);
    } else {
      var m := |idx| - 1;
      var idx0, c0 := idx[..m], c[..m];
      SharesAddUp(idx0, c0, n);
      assert idx == idx0 + [idx[m]] && c == c0 + [c[m]];
      SharesAppendOne(idx0, c0, idx[m], c[m], n);
      SumUpdate(Shares(idx0, c0, n), idx[m], c[m]);
    }
  }

  /** Taking position i into account adds its contribution to the share of
      the index it names, and to no other share. */
  lemma IndexSumStep(idx: seq<int>, c: seq<real>, i: nat)
    requires |idx| == |c| && i < |idx|
    ensures forall k ::
      IndexSum(idx[..i + 1], c[..i + 1], k) == IndexSum(idx[..i], c[..i], k) + (if idx[i] == k then c[i] else 0.0)
  {
    assert idx[..i + 1][..i] == idx[..i] && c[..i + 1][..i] == c[..i];
  }

  /** A vector that gained, at every index k below its length, the share of
      k has gained exactly the shares, and an index no position names kept
      its value. */
  lemma AccumulatedShares(after: seq<real>, before: seq<real>, idx: seq<int>, c: seq<real>)
    requires |after| == |before| && |idx| == |c|
    requires forall k :: 0 <= k < |after| ==> after[k] == before[k] + IndexSum(idx, c, k)
    ensures forall k :: 0 <= k < |after| ==> after[k] == before[k] + Shares(idx, c, |after|)[k]
    ensures forall k :: 0 <= k < |after| && k !in idx ==> after[k] == before[k]
  {
    forall k | 0 <= k < |after| && k !in idx
      ensures after[k] == before[k]
    {
      IndexSumUnbound(idx, c, k);
    }
  }

  /** Such a vector's total grows by the total contribution, when every
      position names an index below its length: nothing is lost or counted
      twice. */
  lemma AccumulatedTotal(after: seq<real>, before: seq<real>, idx: seq<int>, c: seq<real>)
    requires |after| == |before| && |idx| == |c|
    requires forall i :: 0 <= i < |idx| ==> 0 <= idx[i] < |after|
    requires forall k :: 0 <= k < |after| ==> after[k] == before[k] + Shares(idx, c, |after|)[k]
    ensures Sum(after) == Sum(before) + Sum(c)
  {
    SharesAddUp(idx, c, |after|);
    SumPointwise(after, before, Shares(idx, c, |after|));
  }

  /** If each a[k] is b[k] + s[k], the totals add the same way. */
  lemma {:induction false} SumPointwise(a: seq<real>, b: seq<real>, s: seq<real>)
    requires |a| == |b| == |s|
    requires forall k :: 0 <= k < |a| ==> a[k] == b[k] + s[k]
    ensures Sum(a) == Sum(b) + Sum(s)
  {
    if a != [] {
      var m := |a| - 1;
      SumPointwise(a[..m], b[..m], s[..m]);
    }
  }

  lemma {:induction false} ZeroSum(s: seq<real>)
    requires forall k :: 0 <= k < |s| ==> s[k] == 0.0
    ensures Sum(s) == 0.0
  {
    if s != [] {
      ZeroSum(s[..|s| - 1]);
    }
  }
}
