/**
 * What `_partition_indices` promises, and where its sequential branch falls
 * short of the exact cover it is meant to produce.
 *
 * Throughout, N = |xs| is the number of indices, M = m the number of batches,
 * q = N / M and rem = N % M.
 */
module PartitionProperties {

  import opened Arith
  import opened Partitioner

  /** No index occurs at two positions (true of `range(views)` and of any shuffle of it). */
  ghost predicate Distinct(xs: seq<int>)
  {
    forall a, b :: 0 <= a < b < |xs| ==> xs[a] != xs[b]
  }

  // ---------------------------------------------------------------------
  // Helpers on arithmetic and on Flatten
  // ---------------------------------------------------------------------

  lemma {:induction false} FlattenAppend(a: seq<seq<int>>, b: seq<seq<int>>)
    ensures Flatten(a + b) == Flatten(a) + Flatten(b)
  {
    if a != [] {
      assert (a + b)[1..] == a[1..] + b;
      FlattenAppend(a[1..], b);
    } else {
      assert a + b == b;
    }
  }

  /** Consecutive slices concatenate to the stretch of `xs` they cover. */
  lemma {:induction false} FlattenSlices(xs: seq<int>, start: nat, len: nat, count: nat)
    requires start + count * len <= |xs|
    ensures Flatten(Slices(xs, start, len, count)) == xs[start .. start + count * len]
  {
    if count == 0 {
      assert Slices(xs, start, len, 0) == [] && count * len == 0;
    } else {
      var prev, end := start + (count - 1) * len, start + count * len;
      SlicesLast(xs, start, len, count);
      FlattenSlices(xs, start, len, count - 1);
      FlattenSnoc(Slices(xs, start, len, count - 1), xs[prev .. end]);
      AdjacentSlices(xs, start, prev, end);
    }
  }


  lemma FlattenSnoc(init: seq<seq<int>>, last: seq<int>)
    ensures Flatten(init + [last]) == Flatten(init) + last
  {
    FlattenAppend(init, [last]);
    assert Flatten([last]) == last + Flatten([]);
  }

  lemma AdjacentSlices(xs: seq<int>, a: nat, b: nat, c: nat)
    requires a <= b <= c <= |xs|
    ensures xs[a .. b] + xs[b .. c] == xs[a .. c]
  {
  }

  /** The last of `count` slices ends at start + count * len. */
  lemma SlicesLast(xs: seq<int>, start: nat, len: nat, count: nat)
    requires 1 <= count && start + count * len <= |xs|
    ensures 0 <= (count - 1) * len && start + (count - 1) * len + len == start + count * len
    ensures Slices(xs, start, len, count)
         == Slices(xs, start, len, count - 1) + [xs[start + (count - 1) * len .. start + count * len]]
  {
    MulLe(0, count - 1, len);
    assert (count - 1) * len + len == count * len;
  }


  /** Slices that reach the end of `xs` concatenate to its suffix. */
  lemma SlicesToEnd(xs: seq<int>, start: nat, len: nat, count: nat)
    requires start + count * len == |xs|
    ensures Flatten(Slices(xs, start, len, count)) == xs[start..]
  {
    FlattenSlices(xs, start, len, count);
  }

  /** Each of the `count` slices holds `len` indices. */
  lemma SlicesSizes(xs: seq<int>, start: nat, len: nat, count: nat)
    requires start + count * len <= |xs|
    ensures |Slices(xs, start, len, count)| == count
    ensures forall i :: 0 <= i < count ==> |Slices(xs, start, len, count)[i]| == len
  {
    forall i | 0 <= i < count
      ensures |Slices(xs, start, len, count)[i]| == len
    {
      MulLe(i + 1, count, len);
    }
  }

  /** Slice j starts j * len positions after `start`. */
  lemma SlicesAt(xs: seq<int>, start: nat, len: nat, count: nat, j: nat)
    requires start + count * len <= |xs|
    requires j < count
    ensures start + j * len + len <= |xs|
    ensures Slices(xs, start, len, count)[j] == xs[start + j * len .. start + j * len + len]
  {
    MulLe(j + 1, count, len);
    assert (j + 1) * len == j * len + len;
  }

  /**
   * A list of batches, the first `rem` of size q + 1 and the rest of size q,
   * holds q * (number of batches) + rem indices in all.
   */
  lemma {:induction false} BalancedTotal(bs: seq<seq<int>>, q: nat, rem: nat)
    requires rem <= |bs|
    requires forall j :: 0 <= j < |bs| ==> |bs[j]| == q + (if j < rem then 1 else 0)
    ensures |Flatten(bs)| == q * |bs| + rem
  {
    if bs != [] {
      var rem' := if rem == 0 then 0 else rem - 1;
      BalancedTotal(bs[1..], q, rem');
      assert q * (|bs| - 1) + q == q * |bs|;
    }
  }


  // ---------------------------------------------------------------------
  // Staggered mode
  // ---------------------------------------------------------------------

  /**
   * `xs[start::step]` holds exactly the elements at positions start + k * step
   * before the end of `xs`, in order: position start + k * step is in range
   * for every k below its length, and the next one is not.
   */
  lemma {:induction false} StrideSliceAt(xs: seq<int>, start: nat, step: nat)
    requires step >= 1
    ensures var r := StrideSlice(xs, start, step);
      && start + |r| * step >= |xs|
      && forall k :: 0 <= k < |r| ==> start + k * step < |xs| && r[k] == xs[start + k * step]
    decreases |xs| - start
  {
    if start < |xs| {
      StrideSliceAt(xs, start + step, step);
      var r', r := StrideSlice(xs, start + step, step), StrideSlice(xs, start, step);
      assert r == [xs[start]] + r';
      assert start + |r| * step == start + step + |r'| * step;
      forall k | 0 <= k < |r|
        ensures start + k * step < |xs| && r[k] == xs[start + k * step]
      {
        if k > 0 {
          assert r[k] == r'[k - 1];
          assert start + k * step == start + step + (k - 1) * step;
        }
      }
    }
  }

  /**
   * Staggered mode: M batches; the first N % M hold floor(N/M) + 1 indices
   * and the rest floor(N/M), so sizes differ by at most one and they total N.
   */
  lemma StaggeredBatches(xs: seq<int>, m: nat)
    requires 1 <= m <= |xs|
    ensures |Staggered(xs, m)| == m
    ensures var s := Staggered(xs, m);
      forall i :: 0 <= i < m ==> |s[i]| == |xs| / m + (if i < |xs| % m then 1 else 0)
    ensures |Flatten(Staggered(xs, m))| == |xs|
  {
    DivModSplit(|xs|, m);
    StaggeredSizes(xs, m, |xs| / m, |xs| % m);
  }

  /**
   * Staggered batch i is xs[i], xs[i + M], xs[i + 2M], ... in the original
   * order: place k holds position i + k * M.
   */
  lemma StaggeredElements(xs: seq<int>, m: nat)
    requires 1 <= m
    ensures var s := Staggered(xs, m);
      forall i, k :: 0 <= i < m && 0 <= k < |s[i]| ==> i + k * m < |xs| && s[i][k] == xs[i + k * m]
  {
    forall i | 0 <= i < m
      ensures var b := Staggered(xs, m)[i];
        forall k :: 0 <= k < |b| ==> i + k * m < |xs| && b[k] == xs[i + k * m]
    {
      StrideSliceAt(xs, i, m);
      assert Staggered(xs, m)[i] == StrideSlice(xs, i, m);
    }
  }

  /** The staggered batch sizes for N = q * M + rem. */
  lemma StaggeredSizes(xs: seq<int>, m: nat, q: nat, rem: nat)
    requires IsSplit(|xs|, m, q, rem)
    ensures var s := Staggered(xs, m);
      && |s| == m
      && (forall i :: 0 <= i < m ==> |s[i]| == q + (if i < rem then 1 else 0))
      && |Flatten(s)| == |xs|
  {
    var s := Staggered(xs, m);
    forall i | 0 <= i < m
      ensures |s[i]| == q + (if i < rem then 1 else 0)
    {
      StaggeredBatchAt(xs, m, q, rem, i);
    }
    BalancedTotal(s, q, rem);
  }

  /**
   * Batch i of the staggered split of N = q * M + rem holds q + 1 indices when
   * i < rem and q otherwise: positions i + k * M up to the end.
   */
  lemma StaggeredBatchAt(xs: seq<int>, m: nat, q: nat, rem: nat, i: nat)
    requires IsSplit(|xs|, m, q, rem) && i < m
    ensures var b := Staggered(xs, m)[i];
      && |b| == q + (if i < rem then 1 else 0)
      && forall k :: 0 <= k < |b| ==> i + k * m < |xs| && b[k] == xs[i + k * m]
  {
    StrideSliceAt(xs, i, m);
    var b := StrideSlice(xs, i, m);
    assert Staggered(xs, m)[i] == b;
    var c := q + (if i < rem then 1 else 0);
    // position i + c * M lies past the end, position i + (c - 1) * M does not
    assert i + c * m >= |xs| by {
      if i < rem { assert (q + 1) * m == q * m + m; }
    }
    if c >= 1 {
      assert i + (c - 1) * m < |xs| by {
        if i >= rem { assert (q - 1) * m == q * m - m; }
      }
    }
    if |b| < c {
      MulLe(|b|, c - 1, m);
    }
  }


  /**
   * Staggered mode covers every input position: position p sits in batch
   * p % M at place p / M.
   */
  lemma StaggeredCoversEachPosition(xs: seq<int>, m: nat, p: nat)
    requires 1 <= m <= |xs|
    requires p < |xs|
    ensures var s := Staggered(xs, m);
      p / m < |s[p % m]| && s[p % m][p / m] == xs[p]
  {
    DivModSplit(p, m);
    StaggeredSlot(xs, m, p % m, p / m);
  }

  /** Every position i + k * M before the end is place k of batch i. */
  lemma StaggeredSlot(xs: seq<int>, m: nat, i: nat, k: nat)
    requires 1 <= m && i < m && i + k * m < |xs|
    ensures var s := Staggered(xs, m);
      k < |s[i]| && s[i][k] == xs[i + k * m]
  {
    var b := Staggered(xs, m)[i];
    StrideSliceAt(xs, i, m);
    assert b == StrideSlice(xs, i, m);
    if |b| <= k {
      MulLe(|b|, k, m);
    }
  }

  /**
   * ... and only once: slot (i, k) holds position i + k * M, whose remainder
   * and quotient by M give back i and k, so no two slots share a position.
   */
  lemma StaggeredSlotPosition(xs: seq<int>, m: nat, i: nat, k: nat)
    requires 1 <= m <= |xs|
    requires i < m && k < |Staggered(xs, m)[i]|
    ensures var s := Staggered(xs, m);
      i + k * m < |xs| && s[i][k] == xs[i + k * m] && (i + k * m) % m == i && (i + k * m) / m == k
  {
    StrideSliceAt(xs, i, m);
    assert Staggered(xs, m)[i] == StrideSlice(xs, i, m);
    DivModOf(i + k * m, m, k, i);
  }

  // ---------------------------------------------------------------------
  // Sequential mode. The Split* lemmas are about SplitAsWritten and
  // SplitAsIntended for an explicit split N = q * M + rem; the Sequential*
  // lemmas instantiate them with q = floor(N/M) and rem = N % M.
  // ---------------------------------------------------------------------

  lemma SplitCount(xs: seq<int>, m: nat, q: nat, rem: nat)
    requires IsSplit(|xs|, m, q, rem)
    ensures |SplitAsWritten(xs, m, q, rem)| == m
    ensures forall j :: 0 <= j < m ==> |SplitAsWritten(xs, m, q, rem)[j]| == q + (if j < rem then 1 else 0)
  {
    SplitBounds(|xs|, m, q, rem);
    SlicesSizes(xs, rem * (q + 1), q, m - rem);
  }

  lemma SplitTotal(xs: seq<int>, m: nat, q: nat, rem: nat)
    requires IsSplit(|xs|, m, q, rem)
    ensures |Flatten(SplitAsWritten(xs, m, q, rem))| == |xs|
  {
    SplitCount(xs, m, q, rem);
    BalancedTotal(SplitAsWritten(xs, m, q, rem), q, rem);
  }

  lemma SplitLeadingAt(xs: seq<int>, m: nat, q: nat, rem: nat, j: nat)
    requires IsSplit(|xs|, m, q, rem)
    requires j < rem
    ensures j + q + 1 <= |xs| && j < |SplitAsWritten(xs, m, q, rem)|
    ensures SplitAsWritten(xs, m, q, rem)[j] == xs[j .. j + q + 1]
  {
    SplitBounds(|xs|, m, q, rem);
  }

  lemma SplitTrailingAt(xs: seq<int>, m: nat, q: nat, rem: nat, i: nat)
    requires IsSplit(|xs|, m, q, rem)
    requires rem <= i < m
    ensures var lo := rem * (q + 1) + (i - rem) * q;
      && 0 <= lo && lo + q <= |xs| && i < |SplitAsWritten(xs, m, q, rem)|
      && SplitAsWritten(xs, m, q, rem)[i] == xs[lo .. lo + q]
  {
    SplitBounds(|xs|, m, q, rem);
    SlicesAt(xs, rem * (q + 1), q, m - rem, i - rem);
  }

  lemma SplitTrailing(xs: seq<int>, m: nat, q: nat, rem: nat)
    requires IsSplit(|xs|, m, q, rem)
    ensures rem <= |SplitAsWritten(xs, m, q, rem)| && rem * (q + 1) <= |xs|
    ensures Flatten(SplitAsWritten(xs, m, q, rem)[rem..]) == xs[rem * (q + 1)..]
  {
    SplitBounds(|xs|, m, q, rem);
    assert SplitAsWritten(xs, m, q, rem)[rem..] == Trailing(xs, m, q, rem);
    SlicesToEnd(xs, rem * (q + 1), q, m - rem);
  }

  lemma SplitExactCover(xs: seq<int>, m: nat, q: nat, rem: nat)
    requires IsSplit(|xs|, m, q, rem)
    requires rem <= 1
    ensures Flatten(SplitAsWritten(xs, m, q, rem)) == xs
  {
    SplitBounds(|xs|, m, q, rem);
    var lead, trail := Leading(xs, q, rem), Trailing(xs, m, q, rem);
    assert SplitAsWritten(xs, m, q, rem) == lead + trail;
    SlicesToEnd(xs, rem * (q + 1), q, m - rem);
    FlattenAppend(lead, trail);
    if rem == 1 {
      assert rem * (q + 1) == q + 1;
      assert lead == [xs[0 .. q + 1]];
      assert Flatten([xs[0 .. q + 1]]) == xs[0 .. q + 1];
      assert xs[0 .. q + 1] + xs[q + 1..] == xs;
    } else {
      assert lead == [];
    }
  }

  /** With two or more leading batches, q >= 1 and the trailing batches start past rem + q. */
  lemma SplitGap(n: nat, m: nat, q: nat, rem: nat, j: nat)
    requires IsSplit(n, m, q, rem) && m <= n
    requires rem >= 2 && rem <= j < m
    ensures q >= 1
    ensures rem * (q + 1) + (j - rem) * q > rem + q
  {
    MulLe(1, rem - 1, q);
    assert rem * (q + 1) == rem + (rem - 1) * q + q;
  }

  lemma SplitOverlap(xs: seq<int>, m: nat, q: nat, rem: nat)
    requires IsSplit(|xs|, m, q, rem) && m <= |xs|
    requires rem >= 2
    ensures var s := SplitAsWritten(xs, m, q, rem);
      |s| >= 2 && |s[0]| >= 2 && |s[1]| >= 1 && s[0][1] == xs[1] && s[1][0] == xs[1]
  {
    SplitGap(|xs|, m, q, rem, rem);
    SplitLeadingAt(xs, m, q, rem, 0);
    SplitLeadingAt(xs, m, q, rem, 1);
  }

  lemma SplitOmits(xs: seq<int>, m: nat, q: nat, rem: nat, j: nat)
    requires IsSplit(|xs|, m, q, rem) && m <= |xs|
    requires rem >= 2 && j < m
    requires Distinct(xs)
    ensures rem + q < |xs| && j < |SplitAsWritten(xs, m, q, rem)|
    ensures xs[rem + q] !in SplitAsWritten(xs, m, q, rem)[j]
  {
    SplitBounds(|xs|, m, q, rem);
    SplitGap(|xs|, m, q, rem, rem);
    SplitCount(xs, m, q, rem);
    var b, p := SplitAsWritten(xs, m, q, rem)[j], rem + q;
    if j < rem {
      SplitLeadingAt(xs, m, q, rem, j);
      forall k | 0 <= k < |b|
        ensures b[k] != xs[p]
      {
        assert b[k] == xs[j + k] && j + k < p;
      }
    } else {
      SplitTrailingAt(xs, m, q, rem, j);
      SplitGap(|xs|, m, q, rem, j);
      var lo := rem * (q + 1) + (j - rem) * q;
      forall k | 0 <= k < |b|
        ensures b[k] != xs[p]
      {
        assert b[k] == xs[lo + k];
      }
    }
  }

  lemma SplitIntendedShape(xs: seq<int>, m: nat, q: nat, rem: nat)
    requires IsSplit(|xs|, m, q, rem)
    ensures |SplitAsIntended(xs, m, q, rem)| == m
    ensures forall j :: 0 <= j < m ==> |SplitAsIntended(xs, m, q, rem)[j]| == q + (if j < rem then 1 else 0)
  {
    SplitBounds(|xs|, m, q, rem);
    SlicesSizes(xs, 0, q + 1, rem);
    SlicesSizes(xs, rem * (q + 1), q, m - rem);
  }

  lemma SplitIntendedCover(xs: seq<int>, m: nat, q: nat, rem: nat)
    requires IsSplit(|xs|, m, q, rem)
    ensures Flatten(SplitAsIntended(xs, m, q, rem)) == xs
  {
    SplitBounds(|xs|, m, q, rem);
    var lead, trail := Slices(xs, 0, q + 1, rem), Trailing(xs, m, q, rem);
    assert SplitAsIntended(xs, m, q, rem) == lead + trail;
    FlattenSlices(xs, 0, q + 1, rem);
    SlicesToEnd(xs, rem * (q + 1), q, m - rem);
    FlattenAppend(lead, trail);
    assert xs[0 .. rem * (q + 1)] + xs[rem * (q + 1)..] == xs;
  }

  lemma SplitAgrees(xs: seq<int>, m: nat, q: nat, rem: nat)
    requires IsSplit(|xs|, m, q, rem)
    requires rem <= 1
    ensures SplitAsWritten(xs, m, q, rem) == SplitAsIntended(xs, m, q, rem)
  {
    SplitBounds(|xs|, m, q, rem);
    if rem == 1 {
      SlicesAt(xs, 0, q + 1, 1, 0);
      assert Leading(xs, q, rem) == Slices(xs, 0, q + 1, rem);
    } else {
      assert Leading(xs, q, rem) == Slices(xs, 0, q + 1, rem);
    }
  }

  /**
   * Sequential mode: M batches; the first N % M hold floor(N/M) + 1 indices,
   * the remaining M - N % M hold floor(N/M), and the sizes total N.
   */
  lemma SequentialBatches(xs: seq<int>, m: nat)
    requires 1 <= m <= |xs|
    ensures |Sequential(xs, m)| == m
    ensures forall j :: 0 <= j < m ==> |Sequential(xs, m)[j]| == |xs| / m + (if j < |xs| % m then 1 else 0)
    ensures |Flatten(Sequential(xs, m))| == |xs|
  {
    DivModSplit(|xs|, m);
    SplitCount(xs, m, |xs| / m, |xs| % m);
    SplitTotal(xs, m, |xs| / m, |xs| % m);
  }

  /**
   * Leading batch j, for j < N % M, is the floor(N/M) + 1 indices from
   * position j on: consecutive leading batches start one position apart.
   */
  lemma SequentialLeadingAt(xs: seq<int>, m: nat, j: nat)
    requires 1 <= m <= |xs|
    requires j < |xs| % m
    ensures j + |xs| / m + 1 <= |xs| && j < |Sequential(xs, m)|
    ensures Sequential(xs, m)[j] == xs[j .. j + |xs| / m + 1]
  {
    DivModSplit(|xs|, m);
    SplitLeadingAt(xs, m, |xs| / m, |xs| % m, j);
  }

  /**
   * The trailing M - N % M batches are consecutive, non-overlapping slices of
   * floor(N/M) indices: batch i, for N % M <= i < M, is the stretch of xs
   * that starts (i - N % M) * floor(N/M) positions after
   * (N % M) * (floor(N/M) + 1) ...
   */
  lemma SequentialTrailingAt(xs: seq<int>, m: nat, i: nat)
    requires 1 <= m <= |xs|
    requires |xs| % m <= i < m
    ensures var q, rem := |xs| / m, |xs| % m;
      var lo := rem * (q + 1) + (i - rem) * q;
      && 0 <= lo && lo + q <= |xs| && i < |Sequential(xs, m)|
      && Sequential(xs, m)[i] == xs[lo .. lo + q]
  {
    DivModSplit(|xs|, m);
    SplitTrailingAt(xs, m, |xs| / m, |xs| % m, i);
  }

  /** ... and together they are xs from (N % M) * (floor(N/M) + 1) to the end. */
  lemma SequentialTrailing(xs: seq<int>, m: nat)
    requires 1 <= m <= |xs|
    ensures var q, rem := |xs| / m, |xs| % m;
      && rem <= |Sequential(xs, m)| && rem * (q + 1) <= |xs|
      && Flatten(Sequential(xs, m)[rem..]) == xs[rem * (q + 1)..]
  {
    DivModSplit(|xs|, m);
    SplitTrailing(xs, m, |xs| / m, |xs| % m);
  }

  /** When N % M <= 1 the sequential batches concatenate back to xs: an exact, ordered cover. */
  lemma SequentialExactCover(xs: seq<int>, m: nat)
    requires 1 <= m <= |xs|
    requires |xs| % m <= 1
    ensures Flatten(Sequential(xs, m)) == xs
  {
    DivModSplit(|xs|, m);
    SplitExactCover(xs, m, |xs| / m, |xs| % m);
  }

  /**
   * When N % M >= 2 the leading batches overlap: batch j starts at position
   * j, so position 1 lies both in batch 0 and, first, in batch 1.
   */
  lemma SequentialOverlap(xs: seq<int>, m: nat)
    requires 1 <= m <= |xs|
    requires |xs| % m >= 2
    ensures var s := Sequential(xs, m);
      |s| >= 2 && |s[0]| >= 2 && |s[1]| >= 1 && s[0][1] == xs[1] && s[1][0] == xs[1]
  {
    DivModSplit(|xs|, m);
    SplitOverlap(xs, m, |xs| / m, |xs| % m);
  }

  /**
   * When N % M >= 2 and no index repeats, the index at position
   * N % M + floor(N/M) is in no batch: the leading batches stop before it and
   * the trailing ones start after it.
   */
  lemma SequentialOmits(xs: seq<int>, m: nat)
    requires 1 <= m <= |xs|
    requires |xs| % m >= 2
    requires Distinct(xs)
    ensures |xs| % m + |xs| / m < |xs| && |Sequential(xs, m)| == m
    ensures forall j :: 0 <= j < m ==> xs[|xs| % m + |xs| / m] !in Sequential(xs, m)[j]
  {
    var q, rem := |xs| / m, |xs| % m;
    DivModSplit(|xs|, m);
    SplitCount(xs, m, q, rem);
    SplitOmits(xs, m, q, rem, 0);
    forall j | 0 <= j < m
      ensures xs[rem + q] !in Sequential(xs, m)[j]
    {
      SplitOmits(xs, m, q, rem, j);
    }
  }

  /**
   * For an index list without repeats (range(N), or any shuffle of it), the
   * sequential batches concatenate back to the input exactly when N % M <= 1.
   */
  lemma SequentialCoverIff(xs: seq<int>, m: nat)
    requires 1 <= m <= |xs|
    requires Distinct(xs)
    ensures Flatten(Sequential(xs, m)) == xs <==> |xs| % m <= 1
  {
    if |xs| % m <= 1 {
      SequentialExactCover(xs, m);
    } else {
      var s, q := Sequential(xs, m), |xs| / m;
      SequentialOverlap(xs, m);
      SequentialBatches(xs, m);
      assert |s[0]| == q + 1;
      assert s == [s[0]] + ([s[1]] + s[2..]);
      FlattenAppend([s[0]], [s[1]] + s[2..]);
      FlattenAppend([s[1]], s[2..]);
      assert Flatten([s[0]]) == s[0] && Flatten([s[1]]) == s[1];
      assert Flatten(s)[q + 1] == s[1][0] == xs[1];
      assert xs[1] != xs[q + 1];
    }
  }

  /** The intended split is always an exact, ordered cover, with the same batch sizes. */
  lemma SequentialIntendedExactCover(xs: seq<int>, m: nat)
    requires 1 <= m <= |xs|
    ensures |SequentialIntended(xs, m)| == m
    ensures forall j :: 0 <= j < m ==> |SequentialIntended(xs, m)[j]| == |xs| / m + (if j < |xs| % m then 1 else 0)
    ensures Flatten(SequentialIntended(xs, m)) == xs
  {
    DivModSplit(|xs|, m);
    SplitIntendedShape(xs, m, |xs| / m, |xs| % m);
    SplitIntendedCover(xs, m, |xs| / m, |xs| % m);
  }

  /** Where N % M <= 1 the code as written and the intended split agree. */
  lemma SequentialAgreesWithIntended(xs: seq<int>, m: nat)
    requires 1 <= m <= |xs|
    requires |xs| % m <= 1
    ensures Sequential(xs, m) == SequentialIntended(xs, m)
  {
    DivModSplit(|xs|, m);
    SplitAgrees(xs, m, |xs| / m, |xs| % m);
  }

  // ---------------------------------------------------------------------
  // _partition_indices as a whole
  // ---------------------------------------------------------------------

  /**
   * The errors: more batches than indices is refused in both modes; zero
   * batches divides by zero in sequential mode only. Otherwise M >= 1 batches
   * come back.
   */
  lemma BatchesOutcome(m: int, xs: seq<int>, stagger: bool)
    ensures Batches(m, xs, stagger).Err? <==> |xs| < m || (!stagger && m == 0)
    ensures |xs| < m ==> Batches(m, xs, stagger) == Err(TooFewIndices)
    ensures 1 <= m <= |xs| ==> Batches(m, xs, stagger).Ok? && |Batches(m, xs, stagger).value| == m
  {
    if 1 <= m <= |xs| {
      if stagger { StaggeredBatches(xs, m); } else { SequentialBatches(xs, m); }
    }
  }

  /** The example in `data_partition`'s docstring, for range(9) into 4 batches. */
  lemma DocstringExample()
    ensures Batches(4, Range(9), false) == Ok([[0, 1, 2], [3, 4], [5, 6], [7, 8]])
    ensures Batches(4, Range(9), true) == Ok([[0, 4, 8], [1, 5], [2, 6], [3, 7]])
  {
    var xs := Range(9);
    assert xs == [0, 1, 2, 3, 4, 5, 6, 7, 8];
    assert Sequential(xs, 4) == Leading(xs, 2, 1) + Trailing(xs, 4, 2, 1);
    assert Leading(xs, 2, 1) == [xs[0..3]];
    assert Trailing(xs, 4, 2, 1) == [xs[3..5], xs[5..7], xs[7..9]];
    assert xs[0..3] == [0, 1, 2];
    assert xs[3..5] == [3, 4] && xs[5..7] == [5, 6] && xs[7..9] == [7, 8];
    assert StrideSlice(xs, 8, 4) == [8];
    assert StrideSlice(xs, 4, 4) == [4, 8];
    assert StrideSlice(xs, 5, 4) == [5];
    assert StrideSlice(xs, 6, 4) == [6];
    assert StrideSlice(xs, 7, 4) == [7];
    assert StrideSlice(xs, 0, 4) == [0, 4, 8] && StrideSlice(xs, 1, 4) == [1, 5];
    assert StrideSlice(xs, 2, 4) == [2, 6] && StrideSlice(xs, 3, 4) == [3, 7];
    assert Staggered(xs, 4) == [StrideSlice(xs, 0, 4), StrideSlice(xs, 1, 4), StrideSlice(xs, 2, 4), StrideSlice(xs, 3, 4)];
    assert Sequential(xs, 4) == [[0, 1, 2], [3, 4], [5, 6], [7, 8]];
    assert Batches(4, xs, false) == Ok(Sequential(xs, 4));
    assert Batches(4, xs, true) == Ok(Staggered(xs, 4));
  }

  /** range(10) into 4 sequential batches: batches 0 and 1 overlap and 4, 5 are dropped. */
  lemma OverlapExample()
    ensures Batches(4, Range(10), false) == Ok([[0, 1, 2], [1, 2, 3], [6, 7], [8, 9]])
    ensures SequentialIntended(Range(10), 4) == [[0, 1, 2], [3, 4, 5], [6, 7], [8, 9]]
  {
    var xs := Range(10);
    assert xs == [0, 1, 2, 3, 4, 5, 6, 7, 8, 9];
    assert Sequential(xs, 4) == Leading(xs, 2, 2) + Trailing(xs, 4, 2, 2);
    assert Leading(xs, 2, 2) == [xs[0..3], xs[1..4]];
    assert Trailing(xs, 4, 2, 2) == [xs[6..8], xs[8..10]];
    assert SequentialIntended(xs, 4) == Slices(xs, 0, 3, 2) + Trailing(xs, 4, 2, 2);
    assert Slices(xs, 0, 3, 2) == [xs[0..3], xs[3..6]];
    assert xs[0..3] == [0, 1, 2] && xs[1..4] == [1, 2, 3] && xs[3..6] == [3, 4, 5];
    assert xs[6..8] == [6, 7] && xs[8..10] == [8, 9];
    assert Sequential(xs, 4) == [[0, 1, 2], [1, 2, 3], [6, 7], [8, 9]];
    assert Batches(4, xs, false) == Ok(Sequential(xs, 4));
  }

  // ---------------------------------------------------------------------
  // Random mode and subset assembly
  // ---------------------------------------------------------------------

  /**
   * Random mode over a shuffle of range(views): when views % M <= 1 every view
   * lands in exactly one batch.
   */
  lemma RandomCoversEachView(views: nat, m: nat, shuffled: seq<int>)
    requires IsShuffleOf(shuffled, views)
    requires 1 <= m <= views && views % m <= 1
    ensures Batches(m, shuffled, false).Ok?
    ensures multiset(Flatten(Batches(m, shuffled, false).value)) == multiset(Range(views))
  {
    assert |shuffled| == |multiset(shuffled)| == |multiset(Range(views))| == views;
    SequentialExactCover(shuffled, m);
  }

  /**
   * `_partition_deterministic` returns three lists of one entry per batch, so
   * for 1 <= M <= N each holds M entries.
   */
  lemma AssembledCount<D, A, O>(r: Result<Subsets<D, A, O>>, m: int, xs: seq<int>, stagger: bool,
                                b: SubsetBuilder<D, A, O>)
    requires AssembledFrom(r, Batches(m, xs, stagger), b)
    requires 1 <= m <= |xs|
    ensures r.Ok? && |r.value.data| == m && |r.value.models| == m && |r.value.objectives| == m
  {
    BatchesOutcome(m, xs, stagger);
  }
}
