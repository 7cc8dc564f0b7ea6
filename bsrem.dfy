/**
 * The bookkeeping of `BSREMSkeleton` (BSREM.py): a modified BSREM algorithm,
 * that is preconditioned gradient ascent with an EM-type preconditioner and a
 * non-negativity constraint, cycling through the subsets of the data.
 *
 * Images are sequences (or arrays) of reals; floating point is idealised. The
 * three subset operations a subclass supplies (sensitivity, gradient and
 * objective of one subset) and the iteration filter are parameters.
 */
module BSREM {
  import opened Wrappers
  import opened Arith

  type Image = seq<real>

  /** An operation on images that keeps their size, as an in-place filter does. */
  type ImageMap = f: Image -> Image | forall u :: |f(u)| == |u| witness (u: Image) => u

  /** The gradient of one subset's objective: an image of the same size as its argument. */
  type GradientMap = f: (Image, nat) -> Image | forall u, s :: |f(u, s)| == |u| witness (u: Image, s: nat) => u

  // ---------------------------------------------------------------------
  // Element-wise image operations
  // ---------------------------------------------------------------------

  /** `image.max()`: the largest element of a non-empty image. */
  function Max(s: Image): (r: real)
    requires |s| > 0
    ensures forall i :: 0 <= i < |s| ==> s[i] <= r
    ensures exists i :: 0 <= i < |s| && s[i] == r
  {
    if |s| == 1 then s[0]
    else
      var rest := Max(s[1..]);
      assert forall i :: 1 <= i < |s| ==> s[i] == s[1..][i - 1];
      if s[0] >= rest then s[0] else rest
  }

  function MaxZero(v: real): real
  {
    if v >= 0.0 then v else 0.0
  }

  predicate NonNegative(s: Image)
  {
    forall i :: 0 <= i < |s| ==> s[i] >= 0.0
  }

  /** `(x + eps) * g / avg * step`, element by element. */
  function Preconditioned(x: Image, eps: real, g: Image, avg: Image, step: real): Image
    requires |g| == |x| && |avg| == |x|
    requires forall i :: 0 <= i < |avg| ==> avg[i] != 0.0
  {
    seq(|x|, i requires 0 <= i < |x| => (x[i] + eps) * g[i] / avg[i] * step)
  }

  /** The update after the optional iteration filter. */
  function Filtered(filter: Option<ImageMap>, u: Image): (r: Image)
    ensures |r| == |u|
  {
    if filter.Some? then filter.value(u) else u
  }

  /** `x += u` followed by `x.maximum(0, out=x)`. */
  function Projected(x: Image, u: Image): Image
    requires |u| == |x|
  {
    seq(|x|, i requires 0 <= i < |x| => MaxZero(x[i] + u[i]))
  }

  function Abs(v: real): real
  {
    if v >= 0.0 then v else -v
  }

  /**
   * The clamp is the projection onto the non-negative images: every element
   * of the result is >= 0, and no non-negative value lies closer to x + u.
   */
  lemma ProjectedIsNearestNonNegative(x: Image, u: Image, y: Image)
    requires |u| == |x| && |y| == |x|
    requires NonNegative(y)
    ensures NonNegative(Projected(x, u))
    ensures forall i :: 0 <= i < |x| ==>
      Abs(Projected(x, u)[i] - (x[i] + u[i])) <= Abs(y[i] - (x[i] + u[i]))
  {
  }

  /**
   * The unfiltered update is an ascent direction: where x + eps >= 0, the
   * sensitivity is positive and the step size non-negative, each element
   * moves the same way as the gradient.
   */
  lemma PreconditionedAscent(x: Image, eps: real, g: Image, avg: Image, step: real)
    requires |g| == |x| && |avg| == |x|
    requires forall i :: 0 <= i < |avg| ==> avg[i] > 0.0
    requires forall i :: 0 <= i < |x| ==> x[i] + eps >= 0.0
    requires step >= 0.0
    ensures forall i :: 0 <= i < |x| ==> Preconditioned(x, eps, g, avg, step)[i] * g[i] >= 0.0
  {
    forall i | 0 <= i < |x|
      ensures Preconditioned(x, eps, g, avg, step)[i] * g[i] >= 0.0
    {
      var w := (x[i] + eps) / avg[i] * step;
      assert w >= 0.0 by {
        assert (x[i] + eps) / avg[i] >= 0.0;
      }
      assert Preconditioned(x, eps, g, avg, step)[i] == w * g[i];
      assert w * g[i] * g[i] == w * (g[i] * g[i]);
      assert g[i] * g[i] >= 0.0;
    }
  }

  /**
   * Where x + eps, the sensitivity and the step size are all positive, each
   * element of the unfiltered update is positive exactly where the gradient
   * is, and negative exactly where the gradient is.
   */
  lemma PreconditionedFollowsGradient(x: Image, eps: real, g: Image, avg: Image, step: real)
    requires |g| == |x| && |avg| == |x|
    requires forall i :: 0 <= i < |avg| ==> avg[i] > 0.0
    requires forall i :: 0 <= i < |x| ==> x[i] + eps > 0.0
    requires step > 0.0
    ensures forall i :: 0 <= i < |x| ==> (Preconditioned(x, eps, g, avg, step)[i] > 0.0 <==> g[i] > 0.0)
    ensures forall i :: 0 <= i < |x| ==> (Preconditioned(x, eps, g, avg, step)[i] < 0.0 <==> g[i] < 0.0)
  {
    forall i | 0 <= i < |x|
      ensures Preconditioned(x, eps, g, avg, step)[i] > 0.0 <==> g[i] > 0.0
      ensures Preconditioned(x, eps, g, avg, step)[i] < 0.0 <==> g[i] < 0.0
    {
      var w := (x[i] + eps) / avg[i] * step;
      assert w > 0.0 by {
        assert (x[i] + eps) / avg[i] > 0.0;
      }
      assert Preconditioned(x, eps, g, avg, step)[i] == g[i] * w;
      SignOfProduct(g[i], w);
      SignOfProduct(-g[i], w);
      assert (-g[i]) * w == -(g[i] * w);
    }
  }

  /** A zero gradient leaves a non-negative image where it is, when no filter is applied. */
  lemma ZeroGradientIsFixed(x: Image, eps: real, avg: Image, step: real)
    requires |avg| == |x|
    requires forall i :: 0 <= i < |avg| ==> avg[i] != 0.0
    requires NonNegative(x)
    ensures Projected(x, Filtered(None, Preconditioned(x, eps, seq(|x|, _ => 0.0), avg, step))) == x
  {
  }

  // ---------------------------------------------------------------------
  // Subsets, epochs and the step-size schedule
  // ---------------------------------------------------------------------

  /** `(subset + 1) % num_subsets`. */
  function NextSubset(subset: nat, n: nat): (r: nat)
    requires n >= 1
    ensures r < n
    ensures r == if subset + 1 < n then subset + 1 else (subset + 1) % n
  {
    (subset + 1) % n
  }

  /** The subset pointer after k updates from `subset`. */
  function SubsetAfter(subset: nat, k: nat, n: nat): nat
    requires n >= 1
  {
    if k == 0 then subset else NextSubset(SubsetAfter(subset, k - 1, n), n)
  }

  /** k updates advance an in-range pointer by k, modulo the number of subsets. */
  lemma {:induction false} SubsetAfterIsShift(subset: nat, k: nat, n: nat)
    requires n >= 1 && subset < n
    ensures SubsetAfter(subset, k, n) == (subset + k) % n
  {
    if k == 0 {
      DivModOf(subset, n, 0, subset);
    } else {
      var p := subset + k - 1;
      SubsetAfterIsShift(subset, k - 1, n);
      ModSucc(p, n);
      assert SubsetAfter(subset, k, n) == NextSubset(p % n, n);
    }
  }

  lemma ModSucc(p: nat, n: nat)
    requires n >= 1
    ensures (p % n + 1) % n == (p + 1) % n
  {
    DivModSplit(p, n);
    ModSuccOf(p, n, p / n, p % n);
  }

  lemma ModSuccOf(p: nat, n: nat, q: nat, r: nat)
    requires n >= 1 && r < n && p == q * n + r
    ensures (r + 1) % n == (p + 1) % n
  {
    if r + 1 < n {
      DivModOf(p + 1, n, q, r + 1);
      DivModOf(r + 1, n, 0, r + 1);
    } else {
      DivModOf(p + 1, n, q + 1, 0);
      DivModOf(r + 1, n, 1, 0);
    }
  }


  /** After exactly num_subsets updates the pointer is back where it started. */
  lemma SubsetCycle(subset: nat, n: nat)
    requires n >= 1 && subset < n
    ensures SubsetAfter(subset, n, n) == subset
    ensures forall k :: 0 < k < n ==> SubsetAfter(subset, k, n) != subset
  {
    SubsetAfterIsShift(subset, n, n);
    DivModOf(subset + n, n, 1, subset);
    forall k | 0 < k < n
      ensures SubsetAfter(subset, k, n) != subset
    {
      SubsetAfterIsShift(subset, k, n);
      if subset + k < n {
        DivModOf(subset + k, n, 0, subset + k);
      } else {
        DivModOf(subset + k, n, 1, subset + k - n);
      }
    }
  }

  /** `iteration // num_subsets`; None where Python divides by zero (no subsets). */
  function EpochOf(iteration: nat, n: nat): (e: Option<nat>)
    ensures e.None? <==> n == 0
    ensures e.Some? ==> e.value * n <= iteration < e.value * n + n
  {
    if n == 0 then None
    else
      var q := iteration / n;
      assert iteration == q * n + iteration % n;
      Some(q)
  }

  /** num_subsets further iterations make exactly one more epoch. */
  lemma EpochAfterPass(iteration: nat, n: nat)
    requires n >= 1
    ensures EpochOf(iteration + n, n) == Some(EpochOf(iteration, n).value + 1)
  {
    var q, r := iteration / n, iteration % n;
    assert iteration == q * n + r;
    DivModOf(iteration + n, n, q + 1, r);
  }

  /** Epochs never go back as iterations increase. */
  lemma EpochMonotone(i1: nat, i2: nat, n: nat)
    requires n >= 1 && i1 <= i2
    ensures EpochOf(i1, n).value <= EpochOf(i2, n).value
  {
    var e1, e2 := EpochOf(i1, n).value, EpochOf(i2, n).value;
    if e1 > e2 {
      MulLe(e2 + 1, e1, n);
    }
  }

  /** `initial_step_size / (1 + relaxation_eta * epoch)`; None where the denominator is zero. */
  function StepSizeAt(init: real, eta: real, epoch: nat): Option<real>
  {
    var d := 1.0 + eta * epoch as real;
    if d == 0.0 then None else Some(init / d)
  }

  /** Without relaxation the step size is the initial one in every epoch. */
  lemma StepSizeConstant(init: real, epoch: nat)
    ensures StepSizeAt(init, 0.0, epoch) == Some(init)
  {
  }

  /** With eta >= 0 the step size is defined, and it never grows from one epoch to a later one. */
  lemma StepSizeNonIncreasing(init: real, eta: real, e1: nat, e2: nat)
    requires eta >= 0.0 && init >= 0.0 && e1 <= e2
    ensures StepSizeAt(init, eta, e1).Some? && StepSizeAt(init, eta, e2).Some?
    ensures StepSizeAt(init, eta, e2).value <= StepSizeAt(init, eta, e1).value
  {
    RealMulLe(eta, e1 as real, e2 as real);
    DivAntitone(init, 1.0 + eta * e1 as real, 1.0 + eta * e2 as real);
  }

  /** With eta > 0 and a positive initial step, every later epoch has a strictly smaller step. */
  lemma StepSizeDecreasing(init: real, eta: real, e1: nat, e2: nat)
    requires eta > 0.0 && init > 0.0 && e1 < e2
    ensures StepSizeAt(init, eta, e1).Some? && StepSizeAt(init, eta, e2).Some?
    ensures StepSizeAt(init, eta, e2).value < StepSizeAt(init, eta, e1).value
  {
    RealMulLe(eta, e1 as real, e2 as real);
    RealMulLt(eta, e1 as real, e2 as real);
    DivStrictlyAntitone(init, 1.0 + eta * e1 as real, 1.0 + eta * e2 as real);
  }

  lemma RealMulLe(c: real, a: real, b: real)
    requires c >= 0.0 && 0.0 <= a <= b
    ensures 0.0 <= c * a <= c * b
  {
    assert c * b == c * a + c * (b - a);
  }

  lemma RealMulLt(c: real, a: real, b: real)
    requires c > 0.0 && a < b
    ensures c * a < c * b
  {
    assert c * b == c * a + c * (b - a);
  }

  lemma SignOfProduct(a: real, d: real)
    requires d > 0.0
    ensures a * d >= 0.0 ==> a >= 0.0
    ensures a * d > 0.0 ==> a > 0.0
  {
    if a < 0.0 {
      RealMulLt(d, a, 0.0);
    }
  }

  /** Dividing by a larger positive number gives a smaller result. */
  lemma DivAntitone(a: real, d1: real, d2: real)
    requires a >= 0.0 && 0.0 < d1 <= d2
    ensures a / d2 <= a / d1
  {
    var x, y := a / d1, a / d2;
    assert x * d1 == a && y * d2 == a && y >= 0.0;
    assert (x - y) * d1 == y * (d2 - d1);
    SignOfProduct(x - y, d1);
  }

  lemma DivStrictlyAntitone(a: real, d1: real, d2: real)
    requires a > 0.0 && 0.0 < d1 < d2
    ensures a / d2 < a / d1
  {
    var x, y := a / d1, a / d2;
    assert x * d1 == a && y * d2 == a && y > 0.0;
    assert (x - y) * d1 == y * (d2 - d1);
    RealMulLt(y, 0.0, d2 - d1);
    SignOfProduct(x - y, d1);
  }

  // ---------------------------------------------------------------------
  // The average sensitivity and the objective
  // ---------------------------------------------------------------------

  /** `a + b / n`, element by element. */
  function PlusScaled(a: Image, b: Image, n: nat): (r: Image)
    requires |b| == |a| && n >= 1
    ensures |r| == |a|
  {
    seq(|a|, i requires 0 <= i < |a| => a[i] + b[i] / n as real)
  }

  /** `a + c`, element by element. */
  function PlusConstant(a: Image, c: real): (r: Image)
    ensures |r| == |a|
  {
    seq(|a|, i requires 0 <= i < |a| => a[i] + c)
  }

  /** Element-wise sum of sens(s) / n over the first k subsets, starting from zeros. */
  function MeanSensitivity(sens: nat -> Image, n: nat, k: nat, len: nat): (r: Image)
    requires k <= n
    requires forall s :: 0 <= s < n ==> |sens(s)| == len
    ensures |r| == len
  {
    if k == 0 then seq(len, _ => 0.0)
    else PlusScaled(MeanSensitivity(sens, n, k - 1, len), sens(k - 1), n)
  }

  /** The mean over all subsets, raised everywhere by a ten-thousandth of its maximum. */
  function AverageSensitivity(sens: nat -> Image, n: nat, len: nat): Image
    requires len >= 1
    requires forall s :: 0 <= s < n ==> |sens(s)| == len
  {
    var mean := MeanSensitivity(sens, n, n, len);
    PlusConstant(mean, Max(mean) / 10000.0)
  }

  /** With non-negative sensitivities each partial mean is at least every term it has added. */
  lemma {:induction false} MeanSensitivityBounds(sens: nat -> Image, n: nat, k: nat, len: nat)
    requires k <= n
    requires forall s :: 0 <= s < n ==> |sens(s)| == len
    requires forall s, i :: 0 <= s < n && 0 <= i < len ==> sens(s)[i] >= 0.0
    ensures NonNegative(MeanSensitivity(sens, n, k, len))
    ensures forall s, i :: 0 <= s < k && 0 <= i < len ==>
      MeanSensitivity(sens, n, k, len)[i] >= sens(s)[i] / n as real
  {
    if k > 0 {
      MeanSensitivityBounds(sens, n, k - 1, len);
      var prev, cur := MeanSensitivity(sens, n, k - 1, len), MeanSensitivity(sens, n, k, len);
      forall i | 0 <= i < len
        ensures cur[i] >= prev[i] && cur[i] >= sens(k - 1)[i] / n as real
      {
        assert sens(k - 1)[i] / n as real >= 0.0;
      }
    }
  }

  /**
   * When all subset sensitivities are non-negative and one is positive
   * somewhere, every element of the average sensitivity is positive, so the
   * division in `update` is well defined.
   */
  lemma AverageSensitivityPositive(sens: nat -> Image, n: nat, len: nat, s0: nat, i0: nat)
    requires len >= 1
    requires forall s :: 0 <= s < n ==> |sens(s)| == len
    requires forall s, i :: 0 <= s < n && 0 <= i < len ==> sens(s)[i] >= 0.0
    requires s0 < n && i0 < len && sens(s0)[i0] > 0.0
    ensures forall i :: 0 <= i < len ==> AverageSensitivity(sens, n, len)[i] > 0.0
  {
    var mean := MeanSensitivity(sens, n, n, len);
    MeanSensitivityBounds(sens, n, n, len);
    assert mean[i0] >= sens(s0)[i0] / n as real > 0.0;
    assert Max(mean) > 0.0;
  }

  /** When every subset sensitivity is zero the average is zero too: the floor does not help. */
  lemma AverageSensitivityAllZero(sens: nat -> Image, n: nat, len: nat)
    requires len >= 1
    requires forall s :: 0 <= s < n ==> sens(s) == seq(len, _ => 0.0)
    ensures AverageSensitivity(sens, n, len) == seq(len, _ => 0.0)
  {
    MeanZero(sens, n, n, len);
    var zeros: Image := seq(len, _ => 0.0);
    assert Max(zeros) == 0.0 by {
      var j :| 0 <= j < len && zeros[j] == Max(zeros);
    }
  }

  lemma {:induction false} MeanZero(sens: nat -> Image, n: nat, k: nat, len: nat)
    requires k <= n
    requires forall s :: 0 <= s < n ==> sens(s) == seq(len, _ => 0.0)
    ensures MeanSensitivity(sens, n, k, len) == seq(len, _ => 0.0)
  {
    if k > 0 {
      MeanZero(sens, n, k - 1, len);
    }
  }

  /** The objective summed over subsets 0 .. k-1, added left to right from 0. */
  function ObjectiveSum(f: (Image, nat) -> real, y: Image, k: nat): real
  {
    if k == 0 then 0.0 else ObjectiveSum(f, y, k - 1) + f(y, k - 1)
  }

  /** An image at least as good on every subset is at least as good overall. */
  lemma {:induction false} ObjectiveSumMonotone(f: (Image, nat) -> real, y: Image, z: Image, k: nat)
    requires forall s :: 0 <= s < k ==> f(y, s) <= f(z, s)
    ensures ObjectiveSum(f, y, k) <= ObjectiveSum(f, z, k)
  {
    if k > 0 {
      ObjectiveSumMonotone(f, y, z, k - 1);
    }
  }

  // ---------------------------------------------------------------------
  // The algorithm object
  // ---------------------------------------------------------------------

  class BSREMSkeleton<D> {
    const data: seq<D>
    const numSubsets: nat
    const initialStepSize: real
    const relaxationEta: real
    const eps: real
    const averageSensitivity: array<real>
    const iterationFilter: Option<ImageMap>
    const subsetSensitivity: nat -> Image
    const subsetGradient: GradientMap
    const subsetObjective: (Image, nat) -> real
    /** The current image, updated in place. */
    const x: array<real>
    var xUpdate: Image
    var subset: nat
    /** The iteration counter of the driving algorithm, advanced after each update. */
    var iteration: nat
    /**
     * An instrumentation trace of the constructor: the subset number of each
     * `subsetSensitivity` call, appended beside the call. The sensitivity is a
     * pure function here, so the number of calls is not observable in the
     * model; the trace records the order of the loop, not a proof that each
     * subset is evaluated only once.
     */
    ghost var sensitivityCalls: seq<nat>

    ghost predicate Valid()
      reads this
    {
      && x != averageSensitivity
      && x.Length == averageSensitivity.Length
      && numSubsets == |data|
      && (subset < numSubsets || (numSubsets == 0 && subset == 0))
    }

    constructor (data: seq<D>, initial: Image, initialStepSize: real, relaxationEta: real,
                 iterationFilter: Option<ImageMap>, subsetSensitivity: nat -> Image,
                 subsetGradient: GradientMap, subsetObjective: (Image, nat) -> real)
      requires |initial| >= 1
      requires forall s :: 0 <= s < |data| ==> |subsetSensitivity(s)| == |initial|
      ensures Valid() && fresh(x) && fresh(averageSensitivity)
      ensures x[..] == initial
      ensures this.data == data && numSubsets == |data|
      ensures this.initialStepSize == initialStepSize && this.relaxationEta == relaxationEta
      ensures this.iterationFilter == iterationFilter && this.subsetSensitivity == subsetSensitivity
      ensures this.subsetGradient == subsetGradient && this.subsetObjective == subsetObjective
      ensures eps == Max(initial) / 1000.0
      ensures averageSensitivity[..] == AverageSensitivity(subsetSensitivity, |data|, |initial|)
      ensures |sensitivityCalls| == |data| && forall k :: 0 <= k < |data| ==> sensitivityCalls[k] == k
      ensures subset == 0 && iteration == 0 && xUpdate == []
    {
      var len, n := |initial|, |data|;
      var avg;
      ghost var calls;
      avg, calls := ComputeAverageSensitivity(subsetSensitivity, n, len);
      this.data := data;
      numSubsets := n;
      this.initialStepSize := initialStepSize;
      this.relaxationEta := relaxationEta;
      eps := Max(initial) / 1000.0;
      averageSensitivity := avg;
      this.iterationFilter := iterationFilter;
      this.subsetSensitivity := subsetSensitivity;
      this.subsetGradient := subsetGradient;
      this.subsetObjective := subsetObjective;
      x := new real[len](j requires 0 <= j < len => initial[j]);
      xUpdate := [];
      subset := 0;
      iteration := 0;
      sensitivityCalls := calls;
    }

    /**
     * The sum of the subset sensitivities divided by their number, shifted
     * up by a ten-thousandth of its own maximum.
     */
    static method ComputeAverageSensitivity(sens: nat -> Image, n: nat, len: nat)
      returns (avg: array<real>, ghost calls: seq<nat>)
      requires len >= 1
      requires forall s :: 0 <= s < n ==> |sens(s)| == len
      ensures fresh(avg) && avg[..] == AverageSensitivity(sens, n, len)
      ensures |calls| == n && forall k :: 0 <= k < n ==> calls[k] == k
    {
      avg, calls := SumSensitivities(sens, n, len);
      var mean := avg[..];
      AddConstant(avg, Max(mean) / 10000.0);
    }

    /**
     * The loop of the constructor that starts from a zero image and adds
     * each subset's sensitivity divided by the number of subsets; `calls` is
     * a trace appended beside each call, listing the subsets in loop order.
     */
    static method SumSensitivities(sens: nat -> Image, n: nat, len: nat)
      returns (avg: array<real>, ghost calls: seq<nat>)
      requires forall s :: 0 <= s < n ==> |sens(s)| == len
      ensures fresh(avg) && avg[..] == MeanSensitivity(sens, n, n, len)
      ensures |calls| == n && forall k :: 0 <= k < n ==> calls[k] == k
    {
      avg := new real[len](_ => 0.0);
      assert avg[..] == MeanSensitivity(sens, n, 0, len);
      calls := [];
      var s := 0;
      while s < n
        invariant 0 <= s <= n
        invariant fresh(avg) && avg.Length == len
        invariant avg[..] == MeanSensitivity(sens, n, s, len)
        invariant |calls| == s && forall k :: 0 <= k < s ==> calls[k] == k
      {
        var image := sens(s);
        calls := calls + [s];
        AddScaled(avg, image, n);
        s := s + 1;
      }
    }

    /** `avg += sens / n`, in place. */
    static method AddScaled(avg: array<real>, sens: Image, n: nat)
      requires |sens| == avg.Length && n >= 1
      modifies avg
      ensures avg[..] == PlusScaled(old(avg[..]), sens, n)
    {
      ghost var before := avg[..];
      var i := 0;
      while i < avg.Length
        invariant 0 <= i <= avg.Length
        invariant forall k :: 0 <= k < i ==> avg[k] == before[k] + sens[k] / n as real
        invariant forall k :: i <= k < avg.Length ==> avg[k] == before[k]
      {
        avg[i] := avg[i] + sens[i] / n as real;
        i := i + 1;
      }
    }

    /** `avg += c`, in place. */
    static method AddConstant(avg: array<real>, c: real)
      modifies avg
      ensures avg[..] == PlusConstant(old(avg[..]), c)
    {
      ghost var before := avg[..];
      var i := 0;
      while i < avg.Length
        invariant 0 <= i <= avg.Length
        invariant forall k :: 0 <= k < i ==> avg[k] == before[k] + c
        invariant forall k :: i <= k < avg.Length ==> avg[k] == before[k]
      {
        avg[i] := avg[i] + c;
        i := i + 1;
      }
    }

    /** `epoch()`: None where there are no subsets and Python divides by zero. */
    function Epoch(): (e: Option<nat>)
      reads this
      ensures e.None? <==> numSubsets == 0
      ensures e.Some? ==> e.value * numSubsets <= iteration < e.value * numSubsets + numSubsets
    {
      EpochOf(iteration, numSubsets)
    }

    /** `step_size()`: None where `epoch()` or the division raises. */
    function StepSize(): (r: Option<real>)
      reads this
      ensures r.Some? ==> numSubsets >= 1
      ensures relaxationEta == 0.0 && numSubsets >= 1 ==> r == Some(initialStepSize)
    {
      var e := Epoch();
      if e.None? then None else StepSizeAt(initialStepSize, relaxationEta, e.value)
    }

    /**
     * `update()`. When `step_size()` raises, nothing changes and false is
     * returned. Otherwise the filtered, preconditioned gradient step is added
     * to x, x is clamped to non-negative values, and the subset pointer
     * moves on; the average sensitivity and the iteration count stay as they
     * were.
     */
    method Update() returns (ok: bool)
      requires Valid()
      requires forall i :: 0 <= i < averageSensitivity.Length ==> averageSensitivity[i] != 0.0
      modifies this, x
      ensures Valid()
      ensures ok == old(StepSize()).Some?
      ensures averageSensitivity[..] == old(averageSensitivity[..])
      ensures iteration == old(iteration) && sensitivityCalls == old(sensitivityCalls)
      ensures !ok ==> x[..] == old(x[..]) && xUpdate == old(xUpdate) && subset == old(subset)
      ensures ok ==> xUpdate == Filtered(iterationFilter,
        Preconditioned(old(x[..]), eps, subsetGradient(old(x[..]), old(subset)), averageSensitivity[..],
                       old(StepSize()).value))
      ensures ok ==> x[..] == Projected(old(x[..]), xUpdate)
      ensures ok ==> NonNegative(x[..])
      ensures ok ==> subset == NextSubset(old(subset), numSubsets)
    {
      var g := subsetGradient(x[..], subset);
      var step := StepSize();
      if step.None? {
        return false;
      }
      var u := Filtered(iterationFilter, Preconditioned(x[..], eps, g, averageSensitivity[..], step.value));
      ApplyUpdate(x, u);
      xUpdate := u;
      subset := (subset + 1) % numSubsets;
      ok := true;
    }

    /** `x += u` followed by `x.maximum(0, out=x)`: the projected step, in place. */
    static method ApplyUpdate(x: array<real>, u: Image)
      requires |u| == x.Length
      modifies x
      ensures x[..] == Projected(old(x[..]), u)
      ensures NonNegative(x[..])
    {
      AddInPlace(x, u);
      ClampInPlace(x);
    }

    /** `x += u`, in place. */
    static method AddInPlace(x: array<real>, u: Image)
      requires |u| == x.Length
      modifies x
      ensures forall k :: 0 <= k < x.Length ==> x[k] == old(x[k]) + u[k]
    {
      var i := 0;
      while i < x.Length
        invariant 0 <= i <= x.Length
        invariant forall k :: 0 <= k < i ==> x[k] == old(x[k]) + u[k]
        invariant forall k :: i <= k < x.Length ==> x[k] == old(x[k])
      {
        x[i] := x[i] + u[i];
        i := i + 1;
      }
    }

    /** `x.maximum(0, out=x)`: every element clamped to be non-negative, in place. */
    static method ClampInPlace(x: array<real>)
      modifies x
      ensures forall k :: 0 <= k < x.Length ==> x[k] == MaxZero(old(x[k]))
    {
      var i := 0;
      while i < x.Length
        invariant 0 <= i <= x.Length
        invariant forall k :: 0 <= k < i ==> x[k] == MaxZero(old(x[k]))
        invariant forall k :: i <= k < x.Length ==> x[k] == old(x[k])
      {
        x[i] := MaxZero(x[i]);
        i := i + 1;
      }
    }

    /** `objective_function(y)`: the subset objectives at y summed over all subsets. */
    method ObjectiveFunction(y: Image) returns (v: real)
      ensures v == ObjectiveSum(subsetObjective, y, |data|)
    {
      v := 0.0;
      var s := 0;
      while s < |data|
        invariant 0 <= s <= |data|
        invariant v == ObjectiveSum(subsetObjective, y, s)
      {
        v := v + subsetObjective(y, s);
        s := s + 1;
      }
    }

    /** The driving algorithm's step after each update: one more iteration. */
    method CompleteIteration()
      requires Valid()
      modifies this`iteration
      ensures Valid()
      ensures iteration == old(iteration) + 1
    {
      iteration := iteration + 1;
    }
  }
}
