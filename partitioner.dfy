/**
 * Partitioning of the views of a projection data set into `num_batches`
 * batches (subsets), and the assembly of one (data subset, acquisition model,
 * objective function) triple per batch.
 *
 * The SIRF/STIR objects built for each batch are opaque here: a
 * `SubsetBuilder` supplies them as functions of the batch's index list.
 */
module Partitioner {

  import opened Wrappers
  import opened Arith

  /** Why a partition request is refused. */
  datatype PartitionError =
    | TooFewIndices             // ValueError: more batches than indices
    | DivisionByZero            // ZeroDivisionError: `N % M` with M == 0 in sequential mode
    | UnknownMode(mode: string) // ValueError: unrecognised mode string

  datatype Result<T> = Ok(value: T) | Err(error: PartitionError)

  /** The `indices` argument of `_partition_indices`: an int n stands for `range(n)`. */
  datatype Indices = Count(n: int) | List(items: seq<int>)

  /** Python's `list(range(n))`; empty for n <= 0. */
  function Range(n: int): (r: seq<int>)
    ensures |r| == if n <= 0 then 0 else n
    ensures forall i :: 0 <= i < |r| ==> r[i] == i
  {
    if n <= 0 then [] else seq(n, i => i)
  }

  function IndexList(indices: Indices): seq<int>
  {
    match indices
    case Count(n) => Range(n)
    case List(items) => items
  }

  /** Concatenation of a list of batches. */
  function Flatten(bs: seq<seq<int>>): seq<int>
  {
    if bs == [] then [] else bs[0] + Flatten(bs[1..])
  }

  // ---------------------------------------------------------------------
  // Arithmetic facts about N = q * M + r
  // ---------------------------------------------------------------------

  /** N indices split into M batches as N = q * M + rem, with rem < M. */
  predicate IsSplit(n: nat, m: nat, q: nat, rem: nat)
  {
    1 <= m && rem < m && n == q * m + rem
  }

  /** The bounds the slicing at partitioner.py:235-242 relies on. */
  lemma SplitBounds(n: nat, m: nat, q: nat, rem: nat)
    requires IsSplit(n, m, q, rem)
    ensures rem + q <= n
    ensures rem * (q + 1) + (m - rem) * q == n
    ensures rem * (q + 1) <= n
  {
    MulLe(1, m, q);
    MulLe(0, m - rem, q);
    assert rem * (q + 1) + (m - rem) * q == rem + m * q;
  }


  // ---------------------------------------------------------------------
  // Staggered mode
  // ---------------------------------------------------------------------

  /**
   * Python's `xs[start::step]`: the elements at positions start, start + step,
   * start + 2 * step, ... that lie before the end of `xs`.
   */
  function StrideSlice(xs: seq<int>, start: nat, step: nat): seq<int>
    requires step >= 1
    decreases |xs| - start
  {
    if start >= |xs| then [] else [xs[start]] + StrideSlice(xs, start + step, step)
  }

  /** `[indices[i::M] for i in range(M)]` (partitioner.py:225). */
  function Staggered(xs: seq<int>, m: nat): seq<seq<int>>
    requires m >= 1
  {
    seq(m, i requires 0 <= i < m => StrideSlice(xs, i, m))
  }

  // ---------------------------------------------------------------------
  // Sequential mode, as written
  // ---------------------------------------------------------------------

  /**
   * `count` consecutive slices of length `len` of `xs`, the first starting at
   * `start`.
   */
  function Slices(xs: seq<int>, start: nat, len: nat, count: nat): (r: seq<seq<int>>)
    requires start + count * len <= |xs|
  {
    seq(count, i requires 0 <= i < count =>
      MulLe(i + 1, count, len);
      xs[start + i * len .. start + i * len + len])
  }

  /** One more slice still fits when fewer than `count` have been taken. */
  lemma SlicesStep(n: nat, start: nat, len: nat, i: nat, count: nat)
    requires start + count * len == n && i < count
    ensures start + (i + 1) * len <= n
    ensures start + i * len + len == start + (i + 1) * len
  {
    MulLe(i + 1, count, len);
  }

  lemma SlicesSnoc(xs: seq<int>, start: nat, len: nat, count: nat)
    requires start + (count + 1) * len <= |xs|
    ensures start + count * len + len <= |xs|
    ensures Slices(xs, start, len, count + 1)
         == Slices(xs, start, len, count) + [xs[start + count * len .. start + count * len + len]]
  {
    MulLe(count, count + 1, len);
  }

  /**
   * The comprehension at partitioner.py:235-237: for j < rem, batch j is
   * `indices[j : j + q + 1]`, which starts at position j.
   */
  function Leading(xs: seq<int>, q: nat, rem: nat): seq<seq<int>>
    requires rem + q <= |xs|
  {
    seq(rem, j requires 0 <= j < rem => xs[j .. j + q + 1])
  }

  /**
   * The batches appended by the loop at partitioner.py:238-242: M - rem
   * slices of q indices, from position rem * (q + 1) on.
   */
  function Trailing(xs: seq<int>, m: nat, q: nat, rem: nat): seq<seq<int>>
    requires rem <= m && rem * (q + 1) + (m - rem) * q <= |xs|
  {
    Slices(xs, rem * (q + 1), q, m - rem)
  }

  /**
   * The non-staggered branch for N = q * M + rem, exactly as written: the
   * leading comprehension followed by the batches the loop appends.
   */
  function SplitAsWritten(xs: seq<int>, m: nat, q: nat, rem: nat): seq<seq<int>>
    requires IsSplit(|xs|, m, q, rem)
  {
    SplitBounds(|xs|, m, q, rem);
    Leading(xs, q, rem) + Trailing(xs, m, q, rem)
  }

  /** The non-staggered branch of `_partition_indices`, with q = floor(N/M) and rem = N % M. */
  function Sequential(xs: seq<int>, m: nat): seq<seq<int>>
    requires 1 <= m <= |xs|
  {
    DivModSplit(|xs|, m);
    SplitAsWritten(xs, m, |xs| / m, |xs| % m)
  }

  // ---------------------------------------------------------------------
  // Sequential mode, as evidently intended
  // ---------------------------------------------------------------------

  /**
   * The split the comment at partitioner.py:228-229 describes, for
   * N = q * M + rem: the first rem batches hold q + 1 consecutive indices
   * each, batch j starting at position j * (q + 1); the trailing batches are
   * those of the code as written.
   */
  function SplitAsIntended(xs: seq<int>, m: nat, q: nat, rem: nat): seq<seq<int>>
    requires IsSplit(|xs|, m, q, rem)
  {
    SplitBounds(|xs|, m, q, rem);
    Slices(xs, 0, q + 1, rem) + Trailing(xs, m, q, rem)
  }

  function SequentialIntended(xs: seq<int>, m: nat): seq<seq<int>>
    requires 1 <= m <= |xs|
  {
    DivModSplit(|xs|, m);
    SplitAsIntended(xs, m, |xs| / m, |xs| % m)
  }

  // ---------------------------------------------------------------------
  // _partition_indices
  // ---------------------------------------------------------------------

  /**
   * The batches `_partition_indices(m, xs, stagger)` returns, or the error it
   * raises. For M < 0 both of Python's `range`s are empty, so the result is [].
   */
  function Batches(m: int, xs: seq<int>, stagger: bool): Result<seq<seq<int>>>
  {
    if |xs| < m then Err(TooFewIndices)
    else if stagger then Ok(if m <= 0 then [] else Staggered(xs, m))
    else if m == 0 then Err(DivisionByZero)
    else if m < 0 then Ok([])
    else Ok(Sequential(xs, m))
  }

  method PartitionIndices(numBatches: int, indices: Indices, stagger: bool)
    returns (r: Result<seq<seq<int>>>)
    ensures r == Batches(numBatches, IndexList(indices), stagger)
  {
    var xs := IndexList(indices);
    var n := |xs|;
    if n < numBatches {
      return Err(TooFewIndices);
    }
    if stagger {
      if numBatches <= 0 {
        return Ok([]);
      }
      var m := numBatches;
      return Ok(seq(m, i requires 0 <= i < m => StrideSlice(xs, i, m)));
    }
    if numBatches == 0 {
      return Err(DivisionByZero);
    }
    if numBatches < 0 {
      return Ok([]);
    }
    var batches := SplitSequential(xs, numBatches);
    return Ok(batches);
  }

  /** The non-staggered branch of `_partition_indices`, for 1 <= M <= N. */
  method SplitSequential(xs: seq<int>, m: nat) returns (batches: seq<seq<int>>)
    requires 1 <= m <= |xs|
    ensures batches == Sequential(xs, m)
  {
    DivModSplit(|xs|, m);
    batches := SplitWith(xs, m, |xs| / m, |xs| % m);
  }

  /**
   * The sequential split for N = q * M + rem: the `rem` leading batches of
   * q + 1 indices, then a loop appending the M - rem batches of q indices
   * that follow offset rem * (q + 1).
   */
  method SplitWith(xs: seq<int>, m: nat, q: nat, rem: nat) returns (batches: seq<seq<int>>)
    requires IsSplit(|xs|, m, q, rem)
    ensures batches == SplitAsWritten(xs, m, q, rem)
  {
    SplitBounds(|xs|, m, q, rem);
    batches := Leading(xs, q, rem);
    var offset := rem * (q + 1);
    assert Slices(xs, offset, q, 0) == [];
    var i := 0;
    while i < m - rem
      invariant 0 <= i <= m - rem
      invariant offset + i * q <= |xs|
      invariant batches == Leading(xs, q, rem) + Slices(xs, offset, q, i)
    {
      var start := offset + i * q;
      var end := start + q;
      SlicesStep(|xs|, offset, q, i, m - rem);
      SlicesSnoc(xs, offset, q, i);
      batches := batches + [xs[start..end]];
      i := i + 1;
    }
  }



  // ---------------------------------------------------------------------
  // _partition_deterministic, _partition_random_permutation, data_partition
  // ---------------------------------------------------------------------

  /**
   * The SIRF/STIR objects built for one batch, as functions of its index list:
   * `prompts.get_subset`, the acquisition model (sensitivity model from the
   * multiplicative factors, background term, projector, optional `set_up`
   * against the initial image) and `make_Poisson_loglikelihood` (with its
   * optional `set_up`).
   */
  datatype SubsetBuilder<!D, !A, O> = SubsetBuilder(
    dataSubset: seq<int> -> D,
    acquisitionModel: seq<int> -> A,
    objective: (D, A) -> O)

  /** The three lists `_partition_deterministic` returns. */
  datatype Subsets<D, A, O> = Subsets(data: seq<D>, models: seq<A>, objectives: seq<O>)

  /** Entry i of each of the three lists was built from batch i, in batch order. */
  ghost predicate BuiltFrom<D, A, O>(s: Subsets<D, A, O>, batches: seq<seq<int>>, b: SubsetBuilder<D, A, O>)
  {
    && |s.data| == |batches| && |s.models| == |batches| && |s.objectives| == |batches|
    && forall i :: 0 <= i < |batches| ==>
         && s.data[i] == b.dataSubset(batches[i])
         && s.models[i] == b.acquisitionModel(batches[i])
         && s.objectives[i] == b.objective(s.data[i], s.models[i])
  }

  /** `r` is what assembling subsets over the partition result `batches` yields. */
  ghost predicate AssembledFrom<D, A, O>(r: Result<Subsets<D, A, O>>, batches: Result<seq<seq<int>>>, b: SubsetBuilder<D, A, O>)
  {
    match batches
    case Err(e) => r == Err(e)
    case Ok(bs) => r.Ok? && BuiltFrom(r.value, bs, b)
  }

  /** The order numpy's shuffle leaves `arange(views)` in: a permutation of it. */
  ghost predicate IsShuffleOf(shuffled: seq<int>, views: nat)
  {
    multiset(shuffled) == multiset(Range(views))
  }

  method PartitionDeterministic<D, A, O>(views: nat, numBatches: int, stagger: bool,
                                         indices: Option<seq<int>>, b: SubsetBuilder<D, A, O>)
    returns (r: Result<Subsets<D, A, O>>)
    ensures AssembledFrom(r, Batches(numBatches, if indices.Some? then indices.value else Range(views), stagger), b)
  {
    var xs := if indices.Some? then indices.value else Range(views);
    var partition := PartitionIndices(numBatches, List(xs), stagger);
    if partition.Err? {
      return Err(partition.error);
    }
    var batches := partition.value;
    var data, models, objectives := [], [], [];
    var i := 0;
    while i < |batches|
      invariant 0 <= i <= |batches|
      invariant BuiltFrom(Subsets(data, models, objectives), batches[..i], b)
    {
      var d := b.dataSubset(batches[i]);
      var a := b.acquisitionModel(batches[i]);
      models := models + [a];
      data := data + [d];
      objectives := objectives + [b.objective(d, a)];
      i := i + 1;
    }
    assert batches[..i] == batches;
    return Ok(Subsets(data, models, objectives));
  }

  /** Random mode: the shuffled views, split sequentially (never staggered). */
  method PartitionRandomPermutation<D, A, O>(views: nat, numBatches: int, shuffled: seq<int>,
                                             b: SubsetBuilder<D, A, O>)
    returns (r: Result<Subsets<D, A, O>>)
    requires IsShuffleOf(shuffled, views)
    ensures AssembledFrom(r, Batches(numBatches, shuffled, false), b)
  {
    r := PartitionDeterministic(views, numBatches, false, Some(shuffled), b);
  }

  /**
   * Dispatch on the mode string. `shuffled` is the permutation of the views
   * that random mode draws; the other modes ignore it.
   */
  method DataPartition<D, A, O>(mode: string, views: nat, numBatches: int, shuffled: seq<int>,
                                b: SubsetBuilder<D, A, O>)
    returns (r: Result<Subsets<D, A, O>>)
    requires mode == "random" ==> IsShuffleOf(shuffled, views)
    ensures mode == "sequential" ==> AssembledFrom(r, Batches(numBatches, Range(views), false), b)
    ensures mode == "staggered" ==> AssembledFrom(r, Batches(numBatches, Range(views), true), b)
    ensures mode == "random" ==> AssembledFrom(r, Batches(numBatches, shuffled, false), b)
    ensures mode !in {"sequential", "staggered", "random"} ==> r == Err(UnknownMode(mode))
  {
    if mode == "sequential" {
      r := PartitionDeterministic(views, numBatches, false, None, b);
    } else if mode == "staggered" {
      r := PartitionDeterministic(views, numBatches, true, None, b);
    } else if mode == "random" {
      r := PartitionRandomPermutation(views, numBatches, shuffled, b);
    } else {
      r := Err(UnknownMode(mode));
    }
  }
}
