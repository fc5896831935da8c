/**
 Worked inputs for the three scans: each lemma pins down the one list that
 meets a scan's characterisation on a small signal.
 */
module Examples {
  import opened Signal
  import opened FindFeatures
  import opened FindIZ

  /** `find_peaks([1, 5, 2])` is `[[1, 1]]`: a single-bin peak in the middle. */
  lemma PeaksMiddleSingleton(r: seq<IndexRange>)
    requires PeaksOutput([1, 5, 2], r)
    ensures r == [IndexRange(1, 1)]
  {
    var a, e := [1, 5, 2], [IndexRange(1, 1)];
    forall p
      ensures p in e <==> IsPeak(a, p)
    {
      if p.start < p.end {
        assert !ConstantOn(a, 0, 1) by { assert a[1] != a[0]; }
      }
    }
    SortedDisjointUnique(r, e);
  }

  /** `find_peaks([1, 2, 3, 4])` is `[[3, 3]]`: the last index of a rise. */
  lemma PeaksRisingSignal(r: seq<IndexRange>)
    requires PeaksOutput([1, 2, 3, 4], r)
    ensures r == [IndexRange(3, 3)]
  {
    var a, e := [1, 2, 3, 4], [IndexRange(3, 3)];
    forall p
      ensures p in e <==> IsPeak(a, p)
    {
      if p.start < p.end && 0 <= p.start && p.end < |a| {
        assert a[p.start + 1] != a[p.start];
      }
    }
    SortedDisjointUnique(r, e);
  }

  /** `find_peaks([5, 5, 5, 3, 3])` is `[[0, 2]]`: the trailing run is dropped. */
  lemma PeaksTrailingRunDropped(r: seq<IndexRange>)
    requires PeaksOutput([5, 5, 5, 3, 3], r)
    ensures r == [IndexRange(0, 2)]
  {
    var a, e := [5, 5, 5, 3, 3], [IndexRange(0, 2)];
    forall p
      ensures p in e <==> IsPeak(a, p)
    {
      if p == IndexRange(0, 2) {
        assert ConstantOn(a, 0, 2);
      }
      if p.start < p.end && 0 <= p.start && p.end < |a| {
        assert a[p.start + 1] != a[p.start] || a[p.end] != a[p.start] || p == IndexRange(0, 2)
          || p == IndexRange(0, 1) || p == IndexRange(1, 2) || p == IndexRange(3, 4);
      }
    }
    SortedDisjointUnique(r, e);
  }

  /** `find_plateau_peaks([5, 5, 5, 3, 3])` is `[[0, 2]]`. */
  lemma PlateausTrailingRunDropped(r: seq<IndexRange>)
    requires PlateauOutput([5, 5, 5, 3, 3], r)
    ensures r == [IndexRange(0, 2)]
  {
    var a, e := [5, 5, 5, 3, 3], [IndexRange(0, 2)];
    forall p
      ensures p in e <==> IsPlateau(a, p)
    {
      if p == IndexRange(0, 2) {
        assert ConstantOn(a, 0, 2);
      }
      if p.start < p.end && 0 <= p.start && p.end < |a| {
        assert a[p.start + 1] != a[p.start] || a[p.end] != a[p.start] || p == IndexRange(0, 2)
          || p == IndexRange(0, 1) || p == IndexRange(1, 2) || p == IndexRange(3, 4);
      }
    }
    SortedDisjointUnique(r, e);
  }

  /** `find_plateau_peaks([1, 2, 3, 4])` is empty. */
  lemma PlateausRisingSignal(r: seq<IndexRange>)
    requires PlateauOutput([1, 2, 3, 4], r)
    ensures r == []
  {
    PlateausEmptyWhenStrictlyMonotone([1, 2, 3, 4], r);
  }

  /**
   `find_rightward_slopes([5, 4, 4, 3, 2])` is `[[0, 1], [2, 3]]`: the run
   4, 4 splits the descent, and the last index is left out.
   */
  lemma SlopesSplitByRun(r: seq<IndexRange>)
    requires SlopesOutput([5, 4, 4, 3, 2], r)
    ensures r == [IndexRange(0, 1), IndexRange(2, 3)]
  {
    var a, e := [5, 4, 4, 3, 2], [IndexRange(0, 1), IndexRange(2, 3)];
    forall p
      ensures p in e <==> IsSlope(a, p)
    {
      SlopeAvoidsRun(a, p, 1);
      if p == IndexRange(0, 1) || p == IndexRange(2, 3) {
        assert StrictlyDecreasingOn(a, p.start, p.end);
      }
    }
    SortedDisjointUnique(r, e);
  }

  /** `find_rightward_slopes([5, 3, 3, 4])` is `[[0, 1]]`: the run ends the descent. */
  lemma SlopesStopAtRun(r: seq<IndexRange>)
    requires SlopesOutput([5, 3, 3, 4], r)
    ensures r == [IndexRange(0, 1)]
  {
    var a, e := [5, 3, 3, 4], [IndexRange(0, 1)];
    forall p
      ensures p in e <==> IsSlope(a, p)
    {
      SlopeAvoidsRun(a, p, 1);
      if p == IndexRange(0, 1) {
        assert StrictlyDecreasingOn(a, 0, 1);
      }
    }
    SortedDisjointUnique(r, e);
  }

  /** `find_rightward_slopes([5, 4, 3, 2, 1])` is `[[0, 3]]`: the last index is never included. */
  lemma SlopesStopBeforeLast(r: seq<IndexRange>)
    requires SlopesOutput([5, 4, 3, 2, 1], r)
    ensures r == [IndexRange(0, 3)]
  {
    var a, e := [5, 4, 3, 2, 1], [IndexRange(0, 3)];
    forall p
      ensures p in e <==> IsSlope(a, p)
    {
      if p == IndexRange(0, 3) {
        assert StrictlyDecreasingOn(a, 0, 3);
      }
    }
    SortedDisjointUnique(r, e);
  }
}
