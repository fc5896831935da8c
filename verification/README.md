# Feature callers of High-Resolution-RepliSeq, in Dafny

High-Resolution-RepliSeq turns a Repli-seq matrix into one integer per
genomic bin: the S-phase fraction at which the centre of the bin's cluster
peaks, negated.
Three scans over that 1-D signal find the features of the replication
timing profile:

- `find_peaks` (featureCall/findFeatures.py) reports initiation zones.
  These are plateau peaks, i.e. maximal runs of at least two equal values
  that are strict local maxima, together with single-bin local maxima.
- `find_rightward_slopes` (featureCall/findFeatures.py) reports rightward
  timing transition regions. These are strictly descending stretches, and a
  run of equal values splits them.
- `find_plateau_peaks` (findIZ.py) reports the plateau peaks only.

Each scan is modelled as a Dafny method whose loops follow the Python
loops, with the same branches, guards and break conditions. The signal is a
`seq<int>`. The output is a `seq<IndexRange>`, where each range is an
inclusive `[start, end]` pair.

Each method's postcondition is a complete characterisation of the list it
returns:

- the list is sorted and disjoint (`Signal.SortedDisjoint`);
- a range is in the list if and only if it satisfies the scan's shape
  predicate: `FindFeatures.IsPeak`, `FindFeatures.IsSlope` or
  `Signal.IsPlateau`.

`Signal.SortedDisjointUnique` shows that at most one sorted, disjoint list
has a given set of members. That turns each characterisation into an exact
description of the output. It also gives the worked examples (module
`Examples`) and the relation between the two initiation-zone callers
(module `PeakRelations`).

Modules:

- `Signal` holds the shared vocabulary: ranges, shape predicates, the
  ordering lemmas, and the open-plateau tracking that both peak scans share.
- `FindFeatures` models featureCall/findFeatures.py.
- `FindIZ` models findIZ.py.
- `PeakRelations` relates the two peak callers.
- `Examples` holds the worked examples.

Behaviour kept as the code has it:

- A plateau that reaches the last index is never reported. After the loop,
  `right_lower` is `A[-1] < A[start]`, and the open run is constant up to
  the last index, so the test is always false (`PeaksTrailingRun`,
  `PlateausTrailingRun`).
- Index 0 is never a single-bin peak, because the loop starts at index 1.
- The `i == len(ArgMaxArr)` and `i == 0` tests inside the loops are never
  true. They are kept in the model.
- A plateau and a single-bin peak never share an index, so the code never
  emits an overlapping pair. `PeaksBounds` proves this.
- A slope never includes index n - 1, because the inner pointer stops at
  n - 1. So `[5, 4, 3, 2, 1]` gives `[[0, 3]]`
  (`Examples.SlopesStopBeforeLast`).
- A run of equal values inside a descent ends the current slope. A new
  slope starts at the run's last index if the descent resumes. The two
  pieces are not merged.

## Model

| member | source | states |
|---|---|---|
| FindFeatures.FindPeaks | featureCall/findFeatures.py:60-97 | the returned list is sorted and disjoint, and holds exactly the plateau peaks and the single-bin peaks of the signal |
| FindFeatures.PeaksScanStep | featureCall/findFeatures.py:74-90 | one loop iteration keeps the scan state: the open run is the maximal run ending at i - 1, and the list holds, sorted, every peak closed before i |
| FindFeatures.PeaksStepMembers | featureCall/findFeatures.py:79-90 | after the iteration at i, the list holds exactly the peaks closed at indices up to i |
| FindFeatures.PeaksStepOrder | featureCall/findFeatures.py:75-90 | the ranges appended at i start after every earlier range ends, and the list still ends before the run left open after i starts |
| FindFeatures.PeaksEmittedAt | featureCall/findFeatures.py:79-90 | the peaks closed at iteration i are exactly the plateau closed at i (if it passes both checks) and the single-bin peak at i |
| FindFeatures.SingletonAt | featureCall/findFeatures.py:88-90 | the iteration at i appends [i, i] or nothing, and appends it exactly when i is a single-bin peak |
| FindFeatures.LastPeakBeforeRun | featureCall/findFeatures.py:75-77 | when a run continues through i - 1 and i, no earlier peak ends at i - 1 |
| FindFeatures.PeaksBounds | featureCall/findFeatures.py:74-95 | every reported range lies inside the signal, and no two reported ranges share an index, so a plateau and a single-bin peak are never emitted for the same index |
| FindFeatures.SingletonReported | featureCall/findFeatures.py:88-90 | [i, i] is reported if and only if i >= 1, A[i - 1] < A[i], and i is the last index or A[i + 1] < A[i]; [0, 0] is never reported |
| FindFeatures.PeakPlateauReported | featureCall/findFeatures.py:79-85 | a maximal run [s, e] with s < e <= n - 2 is reported if and only if its left neighbour (if any) and its right neighbour are lower |
| FindFeatures.PeaksTrailingRun | featureCall/findFeatures.py:91-95 | a run of equal values reaching the last index is never reported; every reported plateau ends before that run starts |
| FindFeatures.FindRightwardSlopes | featureCall/findFeatures.py:99-145 | the returned list is sorted and disjoint, and holds exactly the maximal strictly decreasing stretches of at least two indices inside A[0 .. n - 2] |
| FindFeatures.Descend | featureCall/findFeatures.py:117-137 | the inner scan ends with a strictly decreasing open stretch that cannot be extended to the left, stopped at n - 1, before a rise, or at a run of equal values whose end is followed by a rise or the last index (not by a further drop); every slope closed by a run fold has been appended |
| FindFeatures.ResumeAfterRun | featureCall/findFeatures.py:124-135 | at a run of equal values starting at slope_start, either the descent resumes: the new stretch opens at the run's last index and its pointer is one past it, where the value drops, and the list gains [left_slope_start, slope_start - 1] exactly when that has two or more indices; or the scan stops with everything unchanged and the run ends in a rise or at the last index |
| FindFeatures.RunNotResumed | featureCall/findFeatures.py:125-135 | when the look-ahead finds no further drop after the run, the run from slope_start ends in a rise or at the last index |
| FindFeatures.EndOfRun | featureCall/findFeatures.py:114-115 | the result is the last index of the run of equal values that starts at k |
| FindFeatures.NoSlopeEndsInRun | featureCall/findFeatures.py:113-117 | skipping a run of equal values that no descent enters from the left passes over no slope end |
| FindFeatures.OpenDescentSteps | featureCall/findFeatures.py:121-122 | a further strict step down extends the open stretch |
| FindFeatures.SlopeCloses | featureCall/findFeatures.py:139-143 | when the descent stops, [left_slope_start, slope_end] is the only slope ending in it, and it is appended exactly when it has two or more indices |
| FindFeatures.FoldRun | featureCall/findFeatures.py:124-133 | a run of equal values followed by a further drop closes the stretch before the run and opens a new one at the run's last index |
| FindFeatures.SlopesShape | featureCall/findFeatures.py:120-141 | every reported slope has s < e <= n - 2, goes strictly down, and cannot be extended within A[0 .. n - 2] on either side |
| FindFeatures.SlopesEmptyWhenNonDecreasing | featureCall/findFeatures.py:113-143 | a non-decreasing signal, constant ones included, has no slopes |
| FindFeatures.SlopesEmptyWhenShort | featureCall/findFeatures.py:113-120 | a signal of fewer than three values has no slopes |
| FindFeatures.SlopesSplitAtRun | featureCall/findFeatures.py:124-133 | no reported slope covers two neighbouring equal values |
| FindIZ.FindPlateauPeaks | findIZ.py:60-90 | the returned list is sorted and disjoint, and holds exactly the plateau peaks of the signal |
| FindIZ.PlateauScanStep | findIZ.py:69-82 | one loop iteration keeps the scan state: open run, ordering, and the plateau peaks closed before i |
| FindIZ.PlateauStepMembers | findIZ.py:74-80 | after the iteration at i, the list holds exactly the plateau peaks closed at indices up to i |
| FindIZ.PlateauStepOrder | findIZ.py:69-82 | an appended plateau starts after every earlier one ends, and the list still ends before the run left open after i starts |
| FindIZ.PlateausShape | findIZ.py:69-82 | every reported range has s < e <= n - 2, is constant, and has lower neighbours on both sides |
| FindIZ.PlateauReported | findIZ.py:74-80 | a maximal run [s, e] with s < e <= n - 2 is reported if and only if both its neighbours are lower |
| FindIZ.PlateausTrailingRun | findIZ.py:84-88 | a run of equal values reaching the last index is never reported; every reported plateau ends before it |
| FindIZ.PlateausEmptyWhenStrictlyMonotone | findIZ.py:69-90 | a strictly increasing or strictly decreasing signal has no plateaus |
| FindIZ.PlateausEmptyWhenShort | findIZ.py:69-90 | a signal of at most two values has no plateaus |
| Signal.PlateauClosedAt | findIZ.py:74-82 | the plateau peak closed at iteration i is exactly the open run, when it breaks at i and passes both neighbour checks |
| Signal.NextStart | findIZ.py:70-82 | a run is open after iteration i exactly when A[i] == A[i - 1], and the update keeps `start` at the first index of the maximal run ending at i, or None when that run has one index |
| Signal.ClosedPlateau | findIZ.py:74-80 | the iteration at i appends at most one range, and what it appends is a plateau peak ending at i - 1 |
| Signal.PlateauPeakIsMaximalRun | findIZ.py:74-80 | a plateau peak is exactly a maximal run of two or more indices, ending before the last index, with both neighbours lower |
| PeakRelations.PlateausArePeaksWithoutSingletons | findIZ.py:60-90 | find_plateau_peaks returns find_peaks' list with the single-bin peaks removed, in the same order |
| PeakRelations.BothScans | findIZ.py:60-90 | running both scans on one signal: the plateau list is the peak list without its single-bin peaks |
| Examples.PeaksMiddleSingleton | featureCall/findFeatures.py:88-90 | find_peaks([1, 5, 2]) is [[1, 1]] |
| Examples.PeaksRisingSignal | featureCall/findFeatures.py:88-90 | find_peaks([1, 2, 3, 4]) is [[3, 3]] |
| Examples.PeaksTrailingRunDropped | featureCall/findFeatures.py:91-95 | find_peaks([5, 5, 5, 3, 3]) is [[0, 2]]: the trailing run [3, 4] is dropped |
| Examples.PlateausTrailingRunDropped | findIZ.py:84-88 | find_plateau_peaks([5, 5, 5, 3, 3]) is [[0, 2]] |
| Examples.PlateausRisingSignal | findIZ.py:69-90 | find_plateau_peaks([1, 2, 3, 4]) is empty |
| Examples.SlopesSplitByRun | featureCall/findFeatures.py:124-133 | find_rightward_slopes([5, 4, 4, 3, 2]) is [[0, 1], [2, 3]] |
| Examples.SlopesStopAtRun | featureCall/findFeatures.py:134-137 | find_rightward_slopes([5, 3, 3, 4]) is [[0, 1]] |
| Examples.SlopesStopBeforeLast | featureCall/findFeatures.py:120-122 | find_rightward_slopes([5, 4, 3, 2, 1]) is [[0, 3]]: index n - 1 is never part of a slope |

## Left out

- `cluster_by_birch` (featureCall/findFeatures.py:7-36, findIZ.py:7-36) is
  left out. It is a wrapper over a foreign clustering library, so the
  signal is taken as an arbitrary integer sequence.
- Building the signal from the cluster centres
  (`np.argmax(...) * -1`) is left out because it depends on the foreign
  model object. Only its integer result type matters here.
- `main` and the command-line handling of both files are left out. They
  load files, save arrays, print and exit, which is I/O.
- `_emergingTime` (featureCall/findFeatures.py:38-58) is left out. It sits
  inside a string literal and is never executed.
- make_array.py (Gaussian smoothing and scaling) is left out. It is
  floating-point and NaN arithmetic.
- The per-allele calling script under data/ is left out. It is
  data-loading glue.
- `np.array(ArgMaxArr)` is modelled as a `seq<int>`. NumPy integer width
  does not matter, because the scans only compare values and never do
  arithmetic on them.
- Termination of `find_rightward_slopes` is proved with `decreases`
  clauses on the loops rather than stated as a separate lemma.

