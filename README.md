# SIRF-Contribs: data partitioner and BSREM bookkeeping, in Dafny

This project models two pieces of SIRF-Contribs and proves properties of them.

- **The data partitioner** (`partitioner.py`):
  - `_partition_indices` splits an ordered list of view indices into `num_batches` batches. It has two modes:
    - staggered: stride-M slices;
    - sequential: contiguous slices, where the first `N mod M` batches get `floor(N/M) + 1` indices and the rest `floor(N/M)`.
  - `_partition_deterministic` builds one data subset, acquisition model and objective per batch.
  - `_partition_random_permutation` splits a shuffled `range(views)` sequentially.
  - `data_partition` dispatches on the mode string.
- **`BSREMSkeleton`** (`BSREM.py`), a preconditioned gradient ascent with an EM-type preconditioner and a non-negativity clamp:
  - the constructor copies the initial image, sets `eps` and accumulates the average subset sensitivity;
  - `epoch` and `step_size` give the relaxed step-size schedule;
  - `update` makes one subset step in place on the image and moves the subset pointer on;
  - `objective_function` sums the subset objectives.

Files:

- `wrappers.dfy`: `Option`, for arguments that may be `None`.
- `arith.dfy` (module `Arith`): products and Euclidean division, shared by both models.
- `partitioner.dfy` (module `Partitioner`):
  - the specification functions of both split modes;
  - the methods that build the batches with the source's loops;
  - the assembly of the per-batch SIRF objects, supplied by an opaque `SubsetBuilder`;
  - the mode dispatch.
- `partition_properties.dfy` (module `PartitionProperties`):
  - batch counts, sizes, order and coverage;
  - the sequential overlap described under Findings;
  - the docstring example.
- `bsrem.dfy` (module `BSREM`):
  - element-wise image operations;
  - the subset cycle, the epoch and the step-size schedule, with their lemmas;
  - the average sensitivity and the objective sum;
  - the class `BSREMSkeleton`, whose image `x` and average sensitivity are arrays updated in place.

Errors that Python raises become values:

- the partitioner returns a `Result`;
- `StepSize` returns `None` where Python would divide by zero;
- `Update` then returns `false` and changes nothing.

## Model

| member | source | states |
|---|---|---|
| Partitioner.Range | src/Python/sirf/contrib/partitioner/partitioner.py:214-215 | an int n given as `indices` stands for the list 0, 1, ..., n-1 (empty for n <= 0) |
| Partitioner.PartitionIndices | src/Python/sirf/contrib/partitioner/partitioner.py:195-244 | the method returns exactly the batches (or the error) that the specification `Batches` gives for the index list |
| Partitioner.SplitSequential | src/Python/sirf/contrib/partitioner/partitioner.py:232-242 | the non-staggered branch, with q = floor(N/M) and rem = N % M, yields the sequential split as written |
| Partitioner.SplitWith | src/Python/sirf/contrib/partitioner/partitioner.py:235-242 | the comprehension and then the append loop produce the leading batches `indices[j:j+q+1]` followed by M - rem consecutive slices of q indices from offset rem*(q+1) |
| Partitioner.PartitionDeterministic | src/Python/sirf/contrib/partitioner/partitioner.py:119-151 | an index error is passed on unchanged; otherwise three lists with one entry per batch, in batch order, each built from its own batch (objective from that batch's data subset and acquisition model) |
| Partitioner.PartitionRandomPermutation | src/Python/sirf/contrib/partitioner/partitioner.py:184-193 | random mode is the non-staggered partition of the given permutation of the views |
| Partitioner.DataPartition | src/Python/sirf/contrib/partitioner/partitioner.py:65-72 | "sequential", "staggered" and "random" dispatch to their partitions; every other mode string, including "random_permutation", is an `UnknownMode` error |
| PartitionProperties.BatchesOutcome | src/Python/sirf/contrib/partitioner/partitioner.py:217-242 | an error occurs exactly when N < M or when M = 0 in sequential mode; N < M gives the too-few-indices error; 1 <= M <= N gives exactly M batches |
| PartitionProperties.StaggeredBatches | src/Python/sirf/contrib/partitioner/partitioner.py:224-225 | staggered mode gives M batches; batch i has floor(N/M)+1 indices when i < N % M and floor(N/M) otherwise; the sizes total N |
| PartitionProperties.StaggeredElements | src/Python/sirf/contrib/partitioner/partitioner.py:225 | place k of staggered batch i holds `indices[i + k*M]`, so each batch keeps the original order |
| PartitionProperties.StaggeredCoversEachPosition | src/Python/sirf/contrib/partitioner/partitioner.py:225 | every input position p appears in staggered batch p % M at place p / M |
| PartitionProperties.StaggeredSlotPosition | src/Python/sirf/contrib/partitioner/partitioner.py:225 | place k of batch i holds position i + k*M, whose remainder and quotient by M are i and k, so no position is held twice |
| PartitionProperties.StrideSliceAt | src/Python/sirf/contrib/partitioner/partitioner.py:225 | `xs[start::step]` holds exactly the elements at start + k*step before the end, in order |
| PartitionProperties.BalancedTotal | src/Python/sirf/contrib/partitioner/partitioner.py:228-229 | batches whose first rem have q+1 indices and the rest q hold q*M + rem indices in total |
| PartitionProperties.SequentialBatches | src/Python/sirf/contrib/partitioner/partitioner.py:228-242 | sequential mode gives M batches; the first N % M have floor(N/M)+1 indices and the rest floor(N/M); the sizes total N |
| PartitionProperties.SequentialLeadingAt | src/Python/sirf/contrib/partitioner/partitioner.py:235-237 | leading batch j is `indices[j : j+floor(N/M)+1]`, so it starts at position j |
| PartitionProperties.SequentialTrailingAt | src/Python/sirf/contrib/partitioner/partitioner.py:238-242 | trailing batch i is the slice of floor(N/M) indices at offset (N%M)*(floor(N/M)+1) + (i - N%M)*floor(N/M) |
| PartitionProperties.SequentialTrailing | src/Python/sirf/contrib/partitioner/partitioner.py:238-242 | the trailing batches concatenate to `indices[(N%M)*(floor(N/M)+1):]` |
| PartitionProperties.SequentialExactCover | src/Python/sirf/contrib/partitioner/partitioner.py:235-242 | when N % M <= 1 the batches concatenate back to `indices` exactly |
| PartitionProperties.SequentialOverlap | src/Python/sirf/contrib/partitioner/partitioner.py:235-237 | when N % M >= 2 the first two batches both hold `indices[1]` |
| PartitionProperties.SequentialOmits | src/Python/sirf/contrib/partitioner/partitioner.py:235-242 | when N % M >= 2 and the indices are distinct, `indices[N%M + floor(N/M)]` is in no batch |
| PartitionProperties.SequentialCoverIff | src/Python/sirf/contrib/partitioner/partitioner.py:235-242 | for distinct indices, the batches concatenate back to `indices` if and only if N % M <= 1 |
| PartitionProperties.SequentialIntendedExactCover | src/Python/sirf/contrib/partitioner/partitioner.py:228-229 | the corrected split has M batches with the sizes the comment promises and concatenates back to `indices` for every N and M |
| PartitionProperties.SequentialAgreesWithIntended | src/Python/sirf/contrib/partitioner/partitioner.py:228-242 | when N % M <= 1 the code as written and the corrected split coincide |
| PartitionProperties.DocstringExample | src/Python/sirf/contrib/partitioner/partitioner.py:58-61 | `range(9)` into 4 batches gives [[0,1,2],[3,4],[5,6],[7,8]] sequentially and [[0,4,8],[1,5],[2,6],[3,7]] staggered |
| PartitionProperties.OverlapExample | src/Python/sirf/contrib/partitioner/partitioner.py:235-242 | `range(10)` into 4 sequential batches gives [[0,1,2],[1,2,3],[6,7],[8,9]]; the corrected split gives [[0,1,2],[3,4,5],[6,7],[8,9]] |
| PartitionProperties.RandomCoversEachView | src/Python/sirf/contrib/partitioner/partitioner.py:184-193 | for a permutation of the views with views % M <= 1, random mode's batches together hold every view exactly once |
| PartitionProperties.AssembledCount | src/Python/sirf/contrib/partitioner/partitioner.py:119-151 | for 1 <= M <= N the three returned lists each have exactly M entries |
| BSREM.Max | src/Python/sirf/contrib/BSREM/BSREM.py:35 | `image.max()` is an upper bound of the image and is attained by one of its elements |
| BSREM.Filtered | src/Python/sirf/contrib/BSREM/BSREM.py:60-61 | applying the optional iteration filter keeps the size of the update image |
| BSREM.ProjectedIsNearestNonNegative | src/Python/sirf/contrib/BSREM/BSREM.py:62-64 | `x += u; x.maximum(0)` gives a non-negative image, and each element is the non-negative value nearest to x + u |
| BSREM.PreconditionedAscent | src/Python/sirf/contrib/BSREM/BSREM.py:59 | for x + eps >= 0, a positive sensitivity and a non-negative step, no element of the unfiltered update points against the gradient (u[i] * g[i] >= 0) |
| BSREM.PreconditionedFollowsGradient | src/Python/sirf/contrib/BSREM/BSREM.py:59 | for x + eps > 0, a positive sensitivity and a positive step, each element of the unfiltered update is positive exactly where the gradient is positive, and negative exactly where it is negative |
| BSREM.ZeroGradientIsFixed | src/Python/sirf/contrib/BSREM/BSREM.py:57-64 | without a filter, a zero gradient leaves a non-negative image unchanged |
| BSREM.NextSubset | src/Python/sirf/contrib/BSREM/BSREM.py:65 | the next subset is in range and is subset + 1 unless that wraps to the start |
| BSREM.SubsetAfterIsShift | src/Python/sirf/contrib/BSREM/BSREM.py:65 | k updates from an in-range subset s lead to subset (s + k) mod num_subsets |
| BSREM.SubsetCycle | src/Python/sirf/contrib/BSREM/BSREM.py:65 | after exactly num_subsets updates the pointer is back where it started, and not before |
| BSREM.EpochOf | src/Python/sirf/contrib/BSREM/BSREM.py:51-52 | no epoch exactly when there are no subsets; otherwise e is the floor of iteration / num_subsets (e*n <= iteration < e*n + n) |
| BSREM.EpochAfterPass | src/Python/sirf/contrib/BSREM/BSREM.py:51-52 | num_subsets further iterations raise the epoch by exactly one |
| BSREM.EpochMonotone | src/Python/sirf/contrib/BSREM/BSREM.py:51-52 | the epoch never decreases as the iteration count grows |
| BSREM.StepSizeConstant | src/Python/sirf/contrib/BSREM/BSREM.py:54-55 | with relaxation_eta = 0 the step size is the initial one in every epoch |
| BSREM.StepSizeNonIncreasing | src/Python/sirf/contrib/BSREM/BSREM.py:54-55 | with eta >= 0 and a non-negative initial step, the step size is defined and never grows from one epoch to a later one |
| BSREM.StepSizeDecreasing | src/Python/sirf/contrib/BSREM/BSREM.py:54-55 | with eta > 0 and a positive initial step, every later epoch has a strictly smaller step |
| BSREM.MeanSensitivityBounds | src/Python/sirf/contrib/BSREM/BSREM.py:36-38 | with non-negative sensitivities, the accumulated mean is non-negative and at least each added sens(s)/num_subsets |
| BSREM.AverageSensitivityPositive | src/Python/sirf/contrib/BSREM/BSREM.py:36-40 | with non-negative sensitivities of which one is positive somewhere, every element of the average sensitivity is positive, so the division in `update` is defined |
| BSREM.AverageSensitivityAllZero | src/Python/sirf/contrib/BSREM/BSREM.py:39-40 | when all sensitivities are zero the added max/1e4 is zero too, and the average stays zero |
| BSREM.ObjectiveSumMonotone | src/Python/sirf/contrib/BSREM/BSREM.py:71-76 | an image at least as good on every subset has at least as large a total objective |
| BSREM.BSREMSkeleton.constructor | src/Python/sirf/contrib/BSREM/BSREM.py:22-43 | `x` is a fresh copy of the initial image; `eps = initial.max()/1e3`; the average sensitivity is the mean of the subset sensitivities plus its max/1e4; a ghost trace written beside each `subset_sensitivity` call lists the subsets in loop order 0..n-1; subset 0, iteration 0 |
| BSREM.BSREMSkeleton.ComputeAverageSensitivity | src/Python/sirf/contrib/BSREM/BSREM.py:36-40 | the fresh array holds the mean of the subset sensitivities raised by a ten-thousandth of its maximum |
| BSREM.BSREMSkeleton.SumSensitivities | src/Python/sirf/contrib/BSREM/BSREM.py:36-38 | the loop from a zero image adds sens(s)/num_subsets for s = 0..n-1; its trace lists the subsets in loop order |
| BSREM.BSREMSkeleton.AddScaled | src/Python/sirf/contrib/BSREM/BSREM.py:38 | `avg += sens / n` in place, element by element |
| BSREM.BSREMSkeleton.AddConstant | src/Python/sirf/contrib/BSREM/BSREM.py:40 | `avg += c` in place, element by element |
| BSREM.BSREMSkeleton.Epoch | src/Python/sirf/contrib/BSREM/BSREM.py:51-52 | `iteration // num_subsets`, undefined exactly when there are no subsets |
| BSREM.BSREMSkeleton.StepSize | src/Python/sirf/contrib/BSREM/BSREM.py:54-55 | a step size exists only when there are subsets; it is the initial step size when relaxation_eta = 0 |
| BSREM.BSREMSkeleton.Update | src/Python/sirf/contrib/BSREM/BSREM.py:57-65 | when the step size is defined: `x_update` is the (filtered) `(x + eps) * g / avg * step` for the gradient at the old x and subset; x becomes max(0, x + x_update) and is non-negative; subset becomes (subset + 1) mod num_subsets; the average sensitivity, the iteration and everything else stay unchanged. Otherwise nothing changes |
| BSREM.BSREMSkeleton.ApplyUpdate | src/Python/sirf/contrib/BSREM/BSREM.py:62-64 | `x += u; x.maximum(0, out=x)` in place leaves the projection of old x + u, which is non-negative |
| BSREM.BSREMSkeleton.AddInPlace | src/Python/sirf/contrib/BSREM/BSREM.py:62 | `x += u` in place, element by element |
| BSREM.BSREMSkeleton.ClampInPlace | src/Python/sirf/contrib/BSREM/BSREM.py:64 | `x.maximum(0, out=x)`: every element becomes the larger of itself and 0, in place |
| BSREM.BSREMSkeleton.ObjectiveFunction | src/Python/sirf/contrib/BSREM/BSREM.py:71-76 | the value is the sum of `subset_objective(x, s)` over all subsets, and no state changes |
| BSREM.BSREMSkeleton.CompleteIteration | src/Python/sirf/contrib/BSREM/BSREM.py:52 | the driver's iteration counter, which `epoch` reads, grows by one and the object stays valid |

## Left out

- SIRF/STIR object construction (`get_subset`, `AcquisitionSensitivityModel`, `set_background_term`, `make_Poisson_loglikelihood`, `set_up`, `_default_acq_model`): these are foreign library calls. Their results come from the opaque functions of a `SubsetBuilder`. Whether `set_up` runs (`initial_image` given or not) is folded into those functions.
- NumPy's global random generator, its seeding and `shuffle`: random mode takes the permutation as an input. The seed-1 example in the `data_partition` docstring depends on NumPy's generator, so it is not stated.
- `math.floor(N / M)` is computed with floating point in the source; the model uses exact integer division. They agree for index counts below 2^53.
- `BSREM1` and `BSREM2` (BSREM.py:82-136) are not part of this model. They wrap STIR objective functions and projectors. The three subset operations (sensitivity, gradient, objective) and the iteration filter are parameters of the constructor.
- IEEE floating point: image values, `eps` and the step size are reals. Rounding, NaN and infinities are not modelled.
- BSREM.BSREMSkeleton.Update: requires every element of the average sensitivity to be nonzero, because NumPy's division by zero (an inf or NaN result) is not modelled. `BSREM.AverageSensitivityPositive` gives conditions under which this holds.
- BSREM.BSREMSkeleton.constructor: requires a non-empty initial image, because NumPy's `max` of an empty image raises. It also requires each subset sensitivity to have the size of the image.
- Subset gradients and iteration filters are assumed to return images of the size of their argument (the types `GradientMap` and `ImageMap`).
- The iteration filter acts in place on `x_update`; the model applies it as a function to the update image.
- `subset_sensitivity` may depend on state a subclass sets up. The model takes it as a fixed function of the subset number.
- The CIL `Algorithm` driver is left out: its run loop, stopping criteria, `update_objective` and the `loss` list. The `iteration` counter starts at 0 and is advanced by `CompleteIteration`, which stands for the driver's step after each `update`.
- The `configured` flag (BSREM.py:43) only serves the CIL driver.
- `x_update` does not exist before the first `update` in the source; the model starts it as the empty image.
- In `update`, as in the source, the subset gradient is evaluated before the step-size failure for zero subsets. The gradient is a pure function here, so the call has no effect.

## Findings

| source | as written | input that shows it | evidently intended | confidence | as-written member | corrected member |
|---|---|---|---|---|---|---|
| src/Python/sirf/contrib/partitioner/partitioner.py:235-237 | leading batch j is `indices[j : j+floor(N/M)+1]`, starting at position j | N = 10, M = 4 gives [[0,1,2],[1,2,3],[6,7],[8,9]]: indices 1 and 2 appear twice, 4 and 5 not at all | batch j starts at position j*(floor(N/M)+1), as the comment at lines 228-229 and the offset at line 238 assume, giving [[0,1,2],[3,4,5],[6,7],[8,9]] | high (proved about the model, not executed) | Partitioner.Sequential, with PartitionProperties.OverlapExample, PartitionProperties.SequentialOverlap, PartitionProperties.SequentialOmits and PartitionProperties.SequentialCoverIff | Partitioner.SequentialIntended, with PartitionProperties.SequentialIntendedExactCover and PartitionProperties.SequentialAgreesWithIntended |

The two splits coincide whenever N % M <= 1, which includes the docstring example. `Partitioner.Batches` and the partition methods keep the behaviour as written, because that is what the program returns.
