/**
 The two scans of featureCall/findFeatures.py over the dominant-fraction
 signal: `find_peaks` (initiation zones: plateau and single-bin peaks) and
 `find_rightward_slopes` (rightward timing transition regions).
 */
module FindFeatures {
  import opened Signal

  /**
   A single-bin peak as `find_peaks` reports it: strictly above its left
   neighbour and above its right neighbour unless it is the last index.  The
   scan starts at index 1, so index 0 is never a single-bin peak.
   */
  ghost predicate SingletonPeak(a: seq<int>, i: int) {
    && 1 <= i < |a|
    && a[i - 1] < a[i]
    && (i == |a| - 1 || a[i + 1] < a[i])
  }

  /** A range that `find_peaks` reports: a plateau peak or a single-bin peak. */
  ghost predicate IsPeak(a: seq<int>, p: IndexRange) {
    if p.start < p.end then PlateauPeak(a, p.start, p.end)
    else p.start == p.end && SingletonPeak(a, p.start)
  }

  /** The complete description of the list `find_peaks` returns. */
  ghost predicate PeaksOutput(a: seq<int>, r: seq<IndexRange>) {
    && SortedDisjoint(r)
    && (forall p :: p in r <==> IsPeak(a, p))
  }

  /**
   The loop iteration of `find_peaks` that appends `p`: a plateau is closed
   one index after its end, a single-bin peak is appended at its own index.
   */
  function EmitIndex(p: IndexRange): (k: int) {
    if p.start < p.end then p.end + 1 else p.end
  }

  /**
   The state of the `find_peaks` loop on entry to the iteration at index `i`:
   `start` is open exactly when a run of equal values ends at `i - 1`, and
   then holds the first index of that run; `r` holds, sorted, every peak
   appended by an earlier iteration.
   */
  ghost predicate PeaksScan(a: seq<int>, i: int, start: Option<int>, r: seq<IndexRange>) {
    && 1 <= i
    && (i <= |a| || (|a| == 0 && i == 1 && start.None?))
    && OpenRun(a, i, start)
    && RunOrdered(i, start, r)
    && PeaksBefore(a, i, r)
  }

  /** `r` holds exactly the peaks appended before iteration `i`. */
  ghost predicate PeaksBefore(a: seq<int>, i: int, r: seq<IndexRange>) {
    forall p {:trigger p in r} {:trigger IsPeak(a, p)} :: p in r <==> IsPeak(a, p) && EmitIndex(p) < i
  }

  /** Model of `find_peaks`. */
  method FindPeaks(a: seq<int>) returns (r: seq<IndexRange>)
    ensures PeaksOutput(a, r)
  {
    var n := |a|;
    r := [];
    var start: Option<int> := None;
    var i := 1;
    while i < n
      invariant PeaksScan(a, i, start, r)
    {
      ghost var r0, start0 := r, start;
      if a[i] == a[i - 1] {
        if start.None? {
          start := Some(i - 1);
        }
      } else {
        if start.Some? {
          var s := start.value;
          var end := i - 1;
          var leftLower := s == 0 || a[s - 1] < a[s];
          var rightLower := i == n || a[i] < a[s];
          if leftLower && rightLower {
            r := r + [IndexRange(s, end)];
          }
          start := None;
        }
      }
      // single-bin peaks
      if (i == 0 || a[i - 1] < a[i]) && (i == n - 1 || a[i + 1] < a[i]) {
        r := r + [IndexRange(i, i)];
      }
      PeaksScanStep(a, i, start0, r0, start, r);
      i := i + 1;
    }
    if start.Some? {
      var s := start.value;
      var leftLower := s == 0 || a[s - 1] < a[s];
      var rightLower := a[n - 1] < a[s];
      // the run is still open, so it is constant up to the last index
      assert !rightLower;
      if leftLower && rightLower {
        r := r + [IndexRange(s, n - 1)];
      }
    }
    forall p | IsPeak(a, p)
      ensures EmitIndex(p) < i
    {
    }
  }

  /** The single-bin peak the iteration at index `i` of `find_peaks` appends, if any. */
  ghost function SingletonAt(a: seq<int>, i: int): (c: seq<IndexRange>)
    requires 1 <= i < |a|
    ensures c == [] || c == [IndexRange(i, i)]
    ensures c != [] <==> SingletonPeak(a, i)
  {
    if a[i - 1] < a[i] && (i == |a| - 1 || a[i + 1] < a[i]) then [IndexRange(i, i)] else []
  }

  /** One iteration of `find_peaks` keeps PeaksScan. */
  lemma PeaksScanStep(a: seq<int>, i: int, start: Option<int>, r: seq<IndexRange>,
                      start': Option<int>, r': seq<IndexRange>)
    requires 1 <= i < |a|
    requires PeaksScan(a, i, start, r)
    requires start' == NextStart(a, i, start)
    requires r' == r + ClosedPlateau(a, i, start) + SingletonAt(a, i)
    ensures PeaksScan(a, i + 1, start', r')
  {
    PeaksStepMembers(a, i, start, r);
    if a[i] == a[i - 1] {
      LastPeakBeforeRun(a, i, r);
    }
    PeaksStepOrder(a, i, start, r, start');
  }

  /** After the iteration at `i`, the list holds every peak appended up to and including it. */
  lemma PeaksStepMembers(a: seq<int>, i: int, start: Option<int>, r: seq<IndexRange>)
    requires 1 <= i < |a|
    requires OpenRun(a, i, start)
    requires PeaksBefore(a, i, r)
    ensures PeaksBefore(a, i + 1, r + ClosedPlateau(a, i, start) + SingletonAt(a, i))
  {
    var added := ClosedPlateau(a, i, start) + SingletonAt(a, i);
    PeaksEmittedAt(a, i, start);
    forall p {:trigger p in r + added}
      ensures p in r + added <==> IsPeak(a, p) && EmitIndex(p) < i + 1
    {
      assert p in r + added <==> p in r || p in added;
    }
    assert r + ClosedPlateau(a, i, start) + SingletonAt(a, i) == r + added;
  }

  /** After the iteration at `i`, the list is still sorted and ends before the open run. */
  lemma PeaksStepOrder(a: seq<int>, i: int, start: Option<int>, r: seq<IndexRange>, start': Option<int>)
    requires 1 <= i < |a|
    requires OpenRun(a, i, start)
    requires RunOrdered(i, start, r)
    requires a[i] == a[i - 1] && |r| > 0 ==> r[|r| - 1].end < i - 1
    requires start' == NextStart(a, i, start)
    ensures RunOrdered(i + 1, start', r + ClosedPlateau(a, i, start) + SingletonAt(a, i))
  {
    var plateau, single := ClosedPlateau(a, i, start), SingletonAt(a, i);
    if plateau != [] {
      AppendSorted(r, plateau[0]);
    }
    if single != [] {
      AppendSorted(r + plateau, single[0]);
    }
  }

  /** A run of equal values through i - 1 and i: no peak appended before `i` ends at i - 1. */
  lemma LastPeakBeforeRun(a: seq<int>, i: int, r: seq<IndexRange>)
    requires 1 <= i < |a| && a[i] == a[i - 1]
    requires PeaksBefore(a, i, r)
    ensures |r| > 0 ==> r[|r| - 1].end < i - 1
  {
    if |r| > 0 {
      // a single-bin peak at i - 1 would need a[i] < a[i - 1]
      assert IsPeak(a, r[|r| - 1]);
    }
  }

  /**
   The peaks appended by the iteration at index `i` of `find_peaks`: the
   plateau open on entry, if the run breaks at `i` and it is a strict local
   maximum, and the single-bin peak at `i`.
   */
  lemma PeaksEmittedAt(a: seq<int>, i: int, start: Option<int>)
    requires 1 <= i < |a|
    requires OpenRun(a, i, start)
    ensures forall p {:trigger IsPeak(a, p)} :: IsPeak(a, p) && EmitIndex(p) == i <==>
      p in ClosedPlateau(a, i, start) + SingletonAt(a, i)
  {
    PlateauClosedAt(a, i, start);
    forall p {:trigger IsPeak(a, p)}
      ensures IsPeak(a, p) && EmitIndex(p) == i <==> p in ClosedPlateau(a, i, start) + SingletonAt(a, i)
    {
      if p.start < p.end {
        assert IsPeak(a, p) <==> IsPlateau(a, p);
      }
    }
  }

  /**
   A rightward slope as `find_rightward_slopes` reports it: a strictly
   decreasing stretch [s, e] of at least two indices inside a[0 .. |a| - 2]
   that cannot be extended on either side within that prefix.  The last
   index of the signal never belongs to a slope.
   */
  ghost predicate RightwardSlope(a: seq<int>, s: int, e: int) {
    && 0 <= s < e <= |a| - 2
    && StrictlyDecreasingOn(a, s, e)
    && (s == 0 || a[s - 1] <= a[s])
    && (e == |a| - 2 || a[e] <= a[e + 1])
  }

  ghost predicate IsSlope(a: seq<int>, p: IndexRange) {
    RightwardSlope(a, p.start, p.end)
  }

  /** The complete description of the list `find_rightward_slopes` returns. */
  ghost predicate SlopesOutput(a: seq<int>, r: seq<IndexRange>) {
    && SortedDisjoint(r)
    && (forall p :: p in r <==> IsSlope(a, p))
  }

  /** `r` is, sorted, the list of every slope that ends before index `b`. */
  ghost predicate SlopesBefore(a: seq<int>, b: int, r: seq<IndexRange>) {
    && SortedDisjoint(r)
    && (|r| > 0 ==> r[|r| - 1].end < b)
    && (forall p {:trigger p in r} {:trigger IsSlope(a, p)} :: p in r <==> IsSlope(a, p) && p.end < b)
  }

  /**
   The state of the outer loop of `find_rightward_slopes` at index `i`: no
   descent crosses from i - 1 into i, and `r` holds every slope before i.
   */
  ghost predicate SlopesScan(a: seq<int>, i: int, r: seq<IndexRange>) {
    && 0 <= i <= |a|
    && (i == 0 || i >= |a| - 1 || a[i - 1] <= a[i])
    && SlopesBefore(a, i, r)
  }

  /** Model of `find_rightward_slopes`. */
  method FindRightwardSlopes(a: seq<int>) returns (r: seq<IndexRange>)
    ensures SlopesOutput(a, r)
  {
    var n := |a|;
    r := [];
    var i := 0;
    while i < n - 1
      invariant SlopesScan(a, i, r)
      decreases n - i
    {
      ghost var i0 := i;
      i := EndOfRun(a, i);
      NoSlopeEndsInRun(a, i0, i, r);
      OpenDescentStarts(a, i, r);

      var leftSlopeStart, slopeStart;
      leftSlopeStart, slopeStart, r := Descend(a, i, r);

      // the descent stopped at index n - 1, at a rise, or at a run
      assert slopeStart >= n - 1 || a[slopeStart - 1] <= a[slopeStart];
      var slopeEnd := slopeStart - 1;
      SlopeCloses(a, leftSlopeStart, slopeStart, r);
      if slopeEnd > leftSlopeStart {
        r := r + [IndexRange(leftSlopeStart, slopeEnd)];
      }

      i := slopeEnd + 1;
    }
  }

  /**
   The inner scan of `find_rightward_slopes` from `left_slope_start` = l: it
   follows strict descents and folds in a run of equal values when the
   descent resumes after it (closing the slope before the run and starting a
   new one at the run's last index); it stops at index n - 1, at a rise, or at
   a run followed by no further drop.
   */
  method Descend(a: seq<int>, l: int, r: seq<IndexRange>)
    returns (leftSlopeStart: int, slopeStart: int, r': seq<IndexRange>)
    requires OpenDescent(a, l, l + 1, r)
    ensures l <= leftSlopeStart
    ensures OpenDescent(a, leftSlopeStart, slopeStart, r')
    ensures slopeStart >= |a| - 1 || a[slopeStart - 1] <= a[slopeStart]
    ensures slopeStart < |a| - 1 && a[slopeStart] == a[slopeStart - 1] ==>
      forall j :: slopeStart <= j < |a| - 1 && ConstantOn(a, slopeStart, j) && a[j] != a[j + 1] ==> a[j] < a[j + 1]
  {
    var n := |a|;
    r' := r;
    leftSlopeStart := l;
    slopeStart := l + 1;
    while slopeStart < n - 1
      invariant l <= leftSlopeStart
      invariant OpenDescent(a, leftSlopeStart, slopeStart, r')
      decreases n - slopeStart
    {
      if a[slopeStart] < a[slopeStart - 1] {
        OpenDescentSteps(a, leftSlopeStart, slopeStart, r');
        slopeStart := slopeStart + 1;
      } else if a[slopeStart] == a[slopeStart - 1] {
        // a run of equal values: look past it for a further drop
        var resumed;
        leftSlopeStart, slopeStart, r', resumed := ResumeAfterRun(a, leftSlopeStart, slopeStart, r');
        if !resumed {
          break;
        }
      } else {
        break;
      }
    }
  }

  /**
   The branch of the inner scan that lets a descent continue past a run: at
   a run of equal values starting at `slope_start`, look ahead to the run's
   last index `temp`.  If the descent resumes there, the open stretch is closed before the run
   (appended when it has two or more indices) and a new one opens at `temp`;
   otherwise the scan stops, and the run ends in a rise or at the last index.
   */
  method ResumeAfterRun(a: seq<int>, l: int, t: int, r: seq<IndexRange>)
    returns (l': int, t': int, r': seq<IndexRange>, resumed: bool)
    requires OpenDescent(a, l, t, r)
    requires t < |a| - 1 && a[t] == a[t - 1]
    ensures resumed ==> l <= l' && t < t' && OpenDescent(a, l', t', r')
    ensures resumed ==> t' == l' + 1 && t <= l' < |a| - 1
    ensures resumed ==> ConstantOn(a, t, l') && a[l' + 1] < a[l']
    ensures resumed ==> r' == r + (if t - 1 > l then [IndexRange(l, t - 1)] else [])
    ensures !resumed ==> l' == l && t' == t && r' == r
    ensures !resumed ==>
      forall j :: t <= j < |a| - 1 && ConstantOn(a, t, j) && a[j] != a[j + 1] ==> a[j] < a[j + 1]
  {
    var n := |a|;
    var temp := EndOfRun(a, t);
    if temp < n - 1 && a[temp + 1] < a[temp] {
      var slopeEnd := t - 1;
      FoldRun(a, l, t, temp, r);
      r' := r;
      if slopeEnd > l {
        r' := r' + [IndexRange(l, slopeEnd)];
      }
      l', t', resumed := temp, temp + 1, true;
    } else {
      RunNotResumed(a, t, temp);
      l', t', r', resumed := l, t, r, false;
    }
  }

  /**
   The state of the inner scan of `find_rightward_slopes`: the open descent
   [l, t - 1] (`left_slope_start`, `slope_start - 1`) goes strictly down and
   cannot be extended on the left, and `r` holds every slope ending before l.
   */
  ghost predicate OpenDescent(a: seq<int>, l: int, t: int, r: seq<IndexRange>) {
    && 0 <= l < t <= |a|
    && (t <= |a| - 1 || t == l + 1)
    && (l == 0 || a[l - 1] <= a[l])
    && StrictlyDecreasingOn(a, l, t - 1)
    && SlopesBefore(a, l, r)
  }

  lemma OpenDescentStarts(a: seq<int>, l: int, r: seq<IndexRange>)
    requires 0 <= l < |a|
    requires l == 0 || a[l - 1] <= a[l]
    requires SlopesBefore(a, l, r)
    ensures OpenDescent(a, l, l + 1, r)
  {
  }

  lemma OpenDescentSteps(a: seq<int>, l: int, t: int, r: seq<IndexRange>)
    requires OpenDescent(a, l, t, r)
    requires t < |a| - 1 && a[t] < a[t - 1]
    ensures OpenDescent(a, l, t + 1, r)
  {
  }

  /**
   Closing the open descent [l, t - 1] when it stops -- at index n - 1, or
   before a rise or a run of equal values -- records the only slope that
   ends in [l, t - 1].
   */
  lemma SlopeCloses(a: seq<int>, l: int, t: int, r: seq<IndexRange>)
    requires OpenDescent(a, l, t, r)
    requires t >= |a| - 1 || a[t - 1] <= a[t]
    ensures l < t - 1 ==> SlopesScan(a, t, r + [IndexRange(l, t - 1)])
    ensures l == t - 1 ==> SlopesScan(a, t, r)
  {
    var e := t - 1;
    forall p {:trigger IsSlope(a, p)} | IsSlope(a, p) && l <= p.end <= e
      ensures p == IndexRange(l, e)
    {
      // starting before l, it would step down into l
      assert l <= p.start;
      // starting after l, its left neighbour would be higher
      assert p.start <= l;
      // ending before e, its right neighbour would be lower
      assert e <= p.end;
    }
    if l < e {
      AppendSorted(r, IndexRange(l, e));
    }
  }

  /**
   A run of equal values [t - 1, c] inside the open descent [l, t - 1],
   followed by a further drop, closes the descent at t - 1 and opens a new one
   at c.
   */
  lemma FoldRun(a: seq<int>, l: int, t: int, c: int, r: seq<IndexRange>)
    requires OpenDescent(a, l, t, r)
    requires t <= c < |a| - 1
    requires a[t] == a[t - 1] && ConstantOn(a, t, c)
    ensures l < t - 1 ==> OpenDescent(a, c, c + 1, r + [IndexRange(l, t - 1)])
    ensures l == t - 1 ==> OpenDescent(a, c, c + 1, r)
  {
    var r' := if l < t - 1 then r + [IndexRange(l, t - 1)] else r;
    SlopeCloses(a, l, t, r);
    NoSlopeEndsInRun(a, t, c, r');
    assert a[c - 1] == a[c];
  }

  /**
   The forward scan over equal neighbours that `find_rightward_slopes` uses
   both to skip the run at the start of a slope and to look ahead over a run
   inside one: the last index of the run of equal values that starts at `k`.
   */
  method EndOfRun(a: seq<int>, k: int) returns (j: int)
    requires 0 <= k < |a|
    ensures k <= j < |a|
    ensures ConstantOn(a, k, j)
    ensures j == |a| - 1 || a[j] != a[j + 1]
  {
    j := k;
    while j < |a| - 1 && a[j] == a[j + 1]
      invariant k <= j < |a|
      invariant ConstantOn(a, k, j)
    {
      j := j + 1;
    }
  }

  /**
   A run of equal values [s, t] that is not followed by a further drop: at
   whichever index the run from `s` ends before the last index, the signal
   rises.
   */
  lemma RunNotResumed(a: seq<int>, s: int, t: int)
    requires 0 <= s <= t < |a| && ConstantOn(a, s, t) && (t == |a| - 1 || a[t] != a[t + 1])
    requires !(t < |a| - 1 && a[t + 1] < a[t])
    ensures forall j :: s <= j < |a| - 1 && ConstantOn(a, s, j) && a[j] != a[j + 1] ==> a[j] < a[j + 1]
  {
    forall j | s <= j < |a| - 1 && ConstantOn(a, s, j) && a[j] != a[j + 1]
      ensures a[j] < a[j + 1]
    {
      RunHasOneEnd(a, s, t, j);
    }
  }

  /** A run of equal values starting at `s` has only one last index. */
  lemma RunHasOneEnd(a: seq<int>, s: int, t: int, j: int)
    requires 0 <= s <= t < |a| && ConstantOn(a, s, t) && (t == |a| - 1 || a[t] != a[t + 1])
    requires s <= j < |a| - 1 && ConstantOn(a, s, j) && a[j] != a[j + 1]
    ensures j == t
  {
  }

  /**
   No slope ends inside a run of equal values [b, c] that cannot be part of a
   descent from the left.
   */
  lemma NoSlopeEndsInRun(a: seq<int>, b: int, c: int, r: seq<IndexRange>)
    requires 0 <= b <= c < |a|
    requires b == 0 || a[b - 1] <= a[b]
    requires ConstantOn(a, b, c)
    requires SlopesBefore(a, b, r)
    ensures SlopesBefore(a, c, r)
  {
    forall p {:trigger IsSlope(a, p)} | IsSlope(a, p)
      ensures p.end < b || c <= p.end
    {
      // every slope steps down into its last index
      assert a[p.end] < a[p.end - 1];
    }
  }

  // Properties of the lists the two scans return, stated for any list that
  // meets their characterisations.

  /**
   Every range `find_peaks` reports lies inside the signal, and a plateau
   and a single-bin peak never share an index.
   */
  lemma PeaksBounds(a: seq<int>, r: seq<IndexRange>)
    requires PeaksOutput(a, r)
    ensures forall p :: p in r ==> 0 <= p.start <= p.end < |a|
    ensures forall p, q :: p in r && q in r && p != q ==> p.end < q.start || q.end < p.start
  {
    SortedDisjointNoOverlap(r);
    forall p | p in r
      ensures 0 <= p.start <= p.end < |a|
    {
      assert IsPeak(a, p);
    }
  }

  /**
   `[i, i]` is reported exactly when `i` is at least 1, above its left
   neighbour and, unless it is the last index, above its right neighbour; in
   particular index 0 is never a single-bin peak.
   */
  lemma SingletonReported(a: seq<int>, r: seq<IndexRange>, i: int)
    requires PeaksOutput(a, r)
    ensures IndexRange(i, i) in r <==> 1 <= i < |a| && a[i - 1] < a[i] && (i == |a| - 1 || a[i + 1] < a[i])
    ensures IndexRange(0, 0) !in r
  {
    assert IndexRange(i, i) in r <==> IsPeak(a, IndexRange(i, i));
    assert IndexRange(0, 0) in r <==> IsPeak(a, IndexRange(0, 0));
  }

  /**
   A maximal run [s, e] of at least two equal values that ends before the
   last index is reported exactly when both its neighbours are lower.
   */
  lemma PeakPlateauReported(a: seq<int>, r: seq<IndexRange>, s: int, e: int)
    requires PeaksOutput(a, r)
    requires MaximalRun(a, s, e) && s < e <= |a| - 2
    ensures IndexRange(s, e) in r <==> (s == 0 || a[s - 1] < a[s]) && a[e + 1] < a[s]
  {
    PlateauPeakIsMaximalRun(a, s, e);
    assert IndexRange(s, e) in r <==> IsPeak(a, IndexRange(s, e));
  }

  /**
   A run of equal values that reaches the last index is never reported, and
   no multi-index range reaches into it: every plateau ends before the run
   starts.
   */
  lemma PeaksTrailingRun(a: seq<int>, r: seq<IndexRange>, s: int)
    requires PeaksOutput(a, r)
    requires 0 <= s < |a| - 1 && ConstantOn(a, s, |a| - 1)
    ensures forall p :: p in r && p.start < p.end ==> p.end < s
  {
    forall p | p in r && p.start < p.end
      ensures p.end < s
    {
      // a plateau steps down right after its end, which the trailing run never does
      assert IsPeak(a, p);
      assert a[p.end] == a[p.start];
    }
  }

  /**
   Every range `find_rightward_slopes` reports has at least two indices, ends
   before the last index, goes strictly down, and cannot be extended.
   */
  lemma SlopesShape(a: seq<int>, r: seq<IndexRange>)
    requires SlopesOutput(a, r)
    ensures forall p :: p in r ==> 0 <= p.start < p.end <= |a| - 2
    ensures forall p, k :: p in r && p.start <= k < p.end ==> a[k + 1] < a[k]
    ensures forall p :: p in r ==> a[p.start + 1] < a[p.start]
    ensures forall p :: p in r ==> p.end == |a| - 2 || a[p.end] <= a[p.end + 1]
    ensures forall p :: p in r ==> p.start == 0 || a[p.start - 1] <= a[p.start]
  {
    forall p, k | p in r && p.start <= k < p.end
      ensures a[k + 1] < a[k]
    {
      assert IsSlope(a, p);
    }
  }

  /** A non-decreasing signal, constant ones included, has no slopes. */
  lemma SlopesEmptyWhenNonDecreasing(a: seq<int>, r: seq<IndexRange>)
    requires SlopesOutput(a, r)
    requires NonDecreasing(a)
    ensures r == []
  {
    // every slope starts with a step down
    SlopesShape(a, r);
    FirstMember(r);
  }

  /** A signal of fewer than three values has no slopes. */
  lemma SlopesEmptyWhenShort(a: seq<int>, r: seq<IndexRange>)
    requires SlopesOutput(a, r)
    requires |a| < 3
    ensures r == []
  {
    SlopesShape(a, r);
    FirstMember(r);
  }

  /** A slope never covers two neighbouring equal values. */
  lemma SlopeAvoidsRun(a: seq<int>, p: IndexRange, k: int)
    requires 0 <= k < |a| - 1 && a[k] == a[k + 1]
    ensures IsSlope(a, p) ==> k + 1 <= p.start || p.end <= k
  {
  }

  /**
   A run of equal values splits a descent: no reported slope covers two
   neighbouring equal values.
   */
  lemma SlopesSplitAtRun(a: seq<int>, r: seq<IndexRange>, k: int)
    requires SlopesOutput(a, r)
    requires 0 <= k < |a| - 1 && a[k] == a[k + 1]
    ensures forall p :: p in r ==> k + 1 <= p.start || p.end <= k
  {
    forall p | p in r
      ensures k + 1 <= p.start || p.end <= k
    {
      SlopeAvoidsRun(a, p, k);
    }
  }
}
