/**
 How the two initiation-zone callers relate: findIZ.py's
 `find_plateau_peaks` shares the plateau tracking of featureCall's
 `find_peaks`, and the single-bin branch of `find_peaks` never touches it.
 */
module PeakRelations {
  import opened Signal
  import opened FindFeatures
  import opened FindIZ

  /**
   `find_plateau_peaks` returns the list `find_peaks` returns with its
   single-bin peaks removed, in the same order.
   */
  lemma {:induction false} PlateausArePeaksWithoutSingletons(a: seq<int>, r1: seq<IndexRange>, r2: seq<IndexRange>)
    requires PeaksOutput(a, r1)
    requires PlateauOutput(a, r2)
    ensures r2 == DropSingletons(r1)
  {
    var q := DropSingletons(r1);
    DropSingletonsSorted(r1);
    forall p
      ensures p in q <==> p in r2
    {
      assert p in r1 <==> IsPeak(a, p);
      assert p in r2 <==> IsPlateau(a, p);
    }
    SortedDisjointUnique(q, r2);
  }

  /** Running both scans on the same signal: the plateau list is the peak list without its single-bin peaks. */
  method BothScans(a: seq<int>) returns (peaks: seq<IndexRange>, plateaus: seq<IndexRange>)
    ensures plateaus == DropSingletons(peaks)
    ensures forall p :: p in peaks && p !in plateaus ==> p.start == p.end
  {
    peaks := FindPeaks(a);
    plateaus := FindPlateauPeaks(a);
    PlateausArePeaksWithoutSingletons(a, peaks, plateaus);
  }
}
