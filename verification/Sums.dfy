/** Finite sums over sequences and matrices. */
module Sums {
  import opened Types


  function Sum(s: seq<int>): int
  {
    if |s| == 0 then 0 else Sum(s[..|s| - 1]) + s[|s| - 1]
  }

  lemma {:induction false} SumAdd(a: seq<int>, b: seq<int>, c: seq<int>)
    requires |a| == |b| == |c|
    requires forall i :: 0 <= i < |a| ==> c[i] == a[i] + b[i]
    ensures Sum(c) == Sum(a) + Sum(b)
  {
    if |a| > 0 {
      var k := |a| - 1;
      SumAdd(a[..k], b[..k], c[..k]);
    }
  }

  lemma {:induction false} SumZero(a: seq<int>)
    requires forall i :: 0 <= i < |a| ==> a[i] == 0
    ensures Sum(a) == 0
  {
    if |a| > 0 { SumZero(a[..|a| - 1]); }
  }

  lemma {:induction false} SumMod(a: seq<int>)
    requires forall i :: 0 <= i < |a| ==> a[i] % 65536 == 0
    ensures Sum(a) % 65536 == 0
  {
    if |a| > 0 { SumMod(a[..|a| - 1]); }
  }

  lemma {:induction false} SumCongruent(a: seq<int>, b: seq<int>)
    requires |a| == |b|
    requires forall i :: 0 <= i < |a| ==> ToInt16(a[i]) == ToInt16(b[i])
    ensures ToInt16(Sum(a)) == ToInt16(Sum(b))
  {
    if |a| > 0 {
      var l := |a| - 1;
      SumCongruent(a[..l], b[..l]);
      ToInt16Add(Sum(a[..l]), a[l], Sum(b[..l]), b[l]);
    }
  }

  lemma {:induction false} SumBounds(a: seq<int>, w: seq<int>, lo: int, hi: int)
    requires |a| == |w|
    requires forall i :: 0 <= i < |a| ==> lo * w[i] <= a[i] <= hi * w[i]
    ensures lo * Sum(w) <= Sum(a) <= hi * Sum(w)
  {
    if |a| > 0 { SumBounds(a[..|a| - 1], w[..|a| - 1], lo, hi); }
  }

  /** Only position `k` differs. */
  lemma {:induction false} SumUpdate(a: seq<int>, b: seq<int>, k: nat)
    requires |a| == |b| && k < |a|
    requires forall i :: 0 <= i < |a| && i != k ==> b[i] == a[i]
    ensures Sum(b) == Sum(a) - a[k] + b[k]
  {
    var l := |a| - 1;
    if k == l {
      assert a[..l] == b[..l];
    } else {
      SumUpdate(a[..l], b[..l], k);
    }
  }

  /** Only position `k` can be non-zero. */
  lemma SumSingle(a: seq<int>, k: nat)
    requires k < |a|
    requires forall i :: 0 <= i < |a| && i != k ==> a[i] == 0
    ensures Sum(a) == a[k]
  {
    var z := seq(|a|, i => 0);
    SumZero(z);
    SumUpdate(z, a, k);
  }

  lemma {:induction false} SumMonotone(a: seq<int>, b: seq<int>)
    requires |a| == |b|
    requires forall i :: 0 <= i < |a| ==> a[i] <= b[i]
    ensures Sum(a) <= Sum(b)
  {
    if |a| > 0 { SumMonotone(a[..|a| - 1], b[..|a| - 1]); }
  }

  /** Three vectors together stay below a fourth. */
  lemma {:induction false} SumThree(a: seq<int>, b: seq<int>, d: seq<int>, bound: seq<int>)
    requires |a| == |b| == |d| == |bound|
    requires forall i :: 0 <= i < |a| ==> a[i] + b[i] + d[i] <= bound[i]
    ensures Sum(a) + Sum(b) + Sum(d) <= Sum(bound)
  {
    if |a| > 0 {
      var l := |a| - 1;
      SumThree(a[..l], b[..l], d[..l], bound[..l]);
    }
  }

  ghost predicate Dim(m: seq<seq<int>>, rows: nat, cols: nat)
  {
    |m| == rows && forall i :: 0 <= i < rows ==> |m[i]| == cols
  }

  function RowSums(m: seq<seq<int>>): (r: seq<int>)
    ensures |r| == |m|
    ensures forall i :: 0 <= i < |m| ==> r[i] == Sum(m[i])
  {
    seq(|m|, i requires 0 <= i < |m| => Sum(m[i]))
  }

  function Sum2(m: seq<seq<int>>): int { Sum(RowSums(m)) }

  /** Summing by rows and by columns agree. */
  lemma {:induction false} SumSwap(a: seq<seq<int>>, b: seq<seq<int>>, rows: nat, cols: nat)
    requires Dim(a, rows, cols) && Dim(b, cols, rows)
    requires forall i, j :: 0 <= i < rows && 0 <= j < cols ==> a[i][j] == b[j][i]
    ensures Sum2(a) == Sum2(b)
    decreases rows
  {
    if rows == 0 {
      SumZero(RowSums(b));
    } else {
      var l := rows - 1;
      var b' := seq(cols, j requires 0 <= j < cols => b[j][..l]);
      SumSwap(a[..l], b', l, cols);
      assert RowSums(a)[..l] == RowSums(a[..l]);
      assert |a[l]| == cols;
      forall j | 0 <= j < cols
        ensures RowSums(b)[j] == RowSums(b')[j] + a[l][j]
      {
        assert b[j][l] == a[l][j];
      }
      SumAdd(RowSums(b'), a[l], RowSums(b));
    }
  }
}
