/**
 The initiation-zone caller of findIZ.py: `find_plateau_peaks`, the
 plateau-only scan over the dominant-fraction signal.
 */
module FindIZ {
  import opened Signal

  /** The complete description of the list `find_plateau_peaks` returns. */
  ghost predicate PlateauOutput(a: seq<int>, r: seq<IndexRange>) {
    && SortedDisjoint(r)
    && (forall p {:trigger p in r} {:trigger IsPlateau(a, p)} :: p in r <==> IsPlateau(a, p))
  }

  /** `r` holds exactly the plateau peaks closed before iteration `i`. */
  ghost predicate PlateausBefore(a: seq<int>, i: int, r: seq<IndexRange>) {
    forall p {:trigger p in r} {:trigger IsPlateau(a, p)} :: p in r <==> IsPlateau(a, p) && p.end + 1 < i
  }

  /** The state of the `find_plateau_peaks` loop on entry to the iteration at index `i`. */
  ghost predicate PlateauScan(a: seq<int>, i: int, start: Option<int>, r: seq<IndexRange>) {
    && 1 <= i
    && (i <= |a| || (|a| == 0 && i == 1 && start.None?))
    && OpenRun(a, i, start)
    && RunOrdered(i, start, r)
    && PlateausBefore(a, i, r)
  }

  /** Model of `find_plateau_peaks`. */
  method FindPlateauPeaks(a: seq<int>) returns (r: seq<IndexRange>)
    ensures PlateauOutput(a, r)
  {
    var n := |a|;
    r := [];
    var start: Option<int> := None;
    var i := 1;
    while i < n
      invariant PlateauScan(a, i, start, r)
    {
      ghost var r0, start0 := r, start;
      if a[i] == a[i - 1] {
        if start.None? {
          start := Some(i - 1);
        }
      } else {
        if start.Some? {
          var s := start.value;
          var end := i - 1;
          var leftLower := s == 0 || a[s - 1] < a[s];
          var rightLower := i == n || a[i] < a[s];
          if leftLower && rightLower {
            r := r + [IndexRange(s, end)];
          }
          start := None;
        }
      }
      PlateauScanStep(a, i, start0, r0, start, r);
      i := i + 1;
    }
    if start.Some? {
      var s := start.value;
      var leftLower := s == 0 || a[s - 1] < a[s];
      var rightLower := a[n - 1] < a[s];
      // the run is still open, so it is constant up to the last index
      assert !rightLower;
      if leftLower && rightLower {
        r := r + [IndexRange(s, n - 1)];
      }
    }
    forall p | IsPlateau(a, p)
      ensures p.end + 1 < i
    {
    }
  }

  /** One iteration of `find_plateau_peaks` keeps PlateauScan. */
  lemma PlateauScanStep(a: seq<int>, i: int, start: Option<int>, r: seq<IndexRange>,
                        start': Option<int>, r': seq<IndexRange>)
    requires 1 <= i < |a|
    requires PlateauScan(a, i, start, r)
    requires start' == NextStart(a, i, start)
    requires r' == r + ClosedPlateau(a, i, start)
    ensures PlateauScan(a, i + 1, start', r')
  {
    PlateauStepMembers(a, i, start, r);
    PlateauStepOrder(a, i, start, r);
  }

  /** After the iteration at `i`, the list holds every plateau peak closed up to and including it. */
  lemma PlateauStepMembers(a: seq<int>, i: int, start: Option<int>, r: seq<IndexRange>)
    requires 1 <= i < |a|
    requires OpenRun(a, i, start)
    requires PlateausBefore(a, i, r)
    ensures PlateausBefore(a, i + 1, r + ClosedPlateau(a, i, start))
  {
    var added := ClosedPlateau(a, i, start);
    PlateauClosedAt(a, i, start);
    forall p {:trigger p in r + added}
      ensures p in r + added <==> IsPlateau(a, p) && p.end + 1 < i + 1
    {
      assert p in r + added <==> p in r || p in added;
    }
  }

  /** After the iteration at `i`, the list is still sorted and ends before the open run. */
  lemma PlateauStepOrder(a: seq<int>, i: int, start: Option<int>, r: seq<IndexRange>)
    requires 1 <= i < |a|
    requires OpenRun(a, i, start)
    requires RunOrdered(i, start, r)
    requires PlateausBefore(a, i, r)
    ensures RunOrdered(i + 1, NextStart(a, i, start), r + ClosedPlateau(a, i, start))
  {
    var plateau := ClosedPlateau(a, i, start);
    if plateau != [] {
      AppendSorted(r, plateau[0]);
    }
    if a[i] == a[i - 1] && start.None? && |r| > 0 {
      // every plateau in r was closed before i, so it ends before i - 1
      assert IsPlateau(a, r[|r| - 1]);
    }
  }

  // Properties of the list `find_plateau_peaks` returns, stated for any list
  // that meets its characterisation.

  /**
   Every reported plateau has at least two indices, ends before the last
   index, is constant, and has lower neighbours on both sides.
   */
  lemma PlateausShape(a: seq<int>, r: seq<IndexRange>)
    requires PlateauOutput(a, r)
    ensures forall p :: p in r ==> 0 <= p.start < p.end <= |a| - 2
    ensures forall p, k :: p in r && p.start <= k <= p.end ==> a[k] == a[p.start]
    ensures forall p :: p in r ==> a[p.start + 1] == a[p.start]
    ensures forall p :: p in r ==> (p.start == 0 || a[p.start - 1] < a[p.start]) && a[p.end + 1] < a[p.start]
  {
    forall p, k | p in r && p.start <= k <= p.end
      ensures a[k] == a[p.start]
    {
      assert IsPlateau(a, p);
    }
  }

  /**
   A maximal run [s, e] of at least two equal values that ends before the
   last index is reported exactly when both its neighbours are lower.
   */
  lemma PlateauReported(a: seq<int>, r: seq<IndexRange>, s: int, e: int)
    requires PlateauOutput(a, r)
    requires MaximalRun(a, s, e) && s < e <= |a| - 2
    ensures IndexRange(s, e) in r <==> (s == 0 || a[s - 1] < a[s]) && a[e + 1] < a[s]
  {
    PlateauPeakIsMaximalRun(a, s, e);
    assert IndexRange(s, e) in r <==> IsPlateau(a, IndexRange(s, e));
  }

  /**
   A run of equal values that reaches the last index is never reported, and
   every reported plateau ends before it starts.
   */
  lemma PlateausTrailingRun(a: seq<int>, r: seq<IndexRange>, s: int)
    requires PlateauOutput(a, r)
    requires 0 <= s < |a| - 1 && ConstantOn(a, s, |a| - 1)
    ensures forall p :: p in r ==> p.end < s
  {
    forall p | p in r
      ensures p.end < s
    {
      // a plateau steps down right after its end, which the trailing run never does
      assert IsPlateau(a, p);
      assert a[p.end] == a[p.start];
    }
  }

  /** A strictly increasing or strictly decreasing signal has no plateaus. */
  lemma PlateausEmptyWhenStrictlyMonotone(a: seq<int>, r: seq<IndexRange>)
    requires PlateauOutput(a, r)
    requires StrictlyIncreasing(a) || StrictlyDecreasing(a)
    ensures r == []
  {
    PlateausShape(a, r);
    FirstMember(r);
  }

  /** A signal of at most two values has no plateaus. */
  lemma PlateausEmptyWhenShort(a: seq<int>, r: seq<IndexRange>)
    requires PlateauOutput(a, r)
    requires |a| <= 2
    ensures r == []
  {
    PlateausShape(a, r);
    FirstMember(r);
  }
}
