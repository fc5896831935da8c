/**
 Shared vocabulary of the feature callers: the inclusive index ranges they
 emit, and the shape predicates over a 1-D integer signal (the dominant
 S-phase fraction of each genomic bin) in which their contracts are stated.
 */
module Signal {

  /** Python's `None`-or-value for the open plateau start. */
  datatype Option<T> = None | Some(value: T)

  /** An inclusive pair `[start, end]` of indices into the signal. */
  datatype IndexRange = IndexRange(start: int, end: int)

  /** The signal is constant on the inclusive index range [s, e]. */
  ghost predicate ConstantOn(a: seq<int>, s: int, e: int)
    requires 0 <= s <= e < |a|
  {
    forall k :: s <= k <= e ==> a[k] == a[s]
  }

  /** Every step inside the inclusive index range [s, e] goes strictly down. */
  ghost predicate StrictlyDecreasingOn(a: seq<int>, s: int, e: int)
    requires 0 <= s <= e < |a|
  {
    forall k :: s <= k < e ==> a[k + 1] < a[k]
  }

  ghost predicate NonDecreasing(a: seq<int>) {
    forall k :: 0 <= k < |a| - 1 ==> a[k] <= a[k + 1]
  }

  ghost predicate StrictlyIncreasing(a: seq<int>) {
    forall k :: 0 <= k < |a| - 1 ==> a[k] < a[k + 1]
  }

  ghost predicate StrictlyDecreasing(a: seq<int>) {
    forall k :: 0 <= k < |a| - 1 ==> a[k + 1] < a[k]
  }

  /**
   A plateau peak: a constant run [s, e] of at least two indices that ends
   before the last index and is a strict local maximum -- its left neighbour,
   if any, is lower, and its right neighbour is lower.  The two strict
   comparisons also make the run maximal.
   */
  ghost predicate PlateauPeak(a: seq<int>, s: int, e: int) {
    && 0 <= s < e <= |a| - 2
    && ConstantOn(a, s, e)
    && (s == 0 || a[s - 1] < a[s])
    && a[e + 1] < a[s]
  }

  ghost predicate IsPlateau(a: seq<int>, p: IndexRange) {
    PlateauPeak(a, p.start, p.end)
  }

  /** A maximal run of equal values (of any length) that covers [s, e]. */
  ghost predicate MaximalRun(a: seq<int>, s: int, e: int) {
    && 0 <= s <= e < |a|
    && ConstantOn(a, s, e)
    && (s == 0 || a[s - 1] != a[s])
    && (e == |a| - 1 || a[e + 1] != a[e])
  }

  /**
   Each range is well formed and starts after the previous one ends: the
   output is sorted by start and pairwise disjoint.
   */
  ghost predicate SortedDisjoint(r: seq<IndexRange>) {
    && (forall k :: 0 <= k < |r| ==> r[k].start <= r[k].end)
    && (forall k :: 0 <= k < |r| - 1 ==> r[k].end < r[k + 1].start)
  }

  /** Appending a well-formed range past the last end keeps the list sorted and disjoint. */
  lemma AppendSorted(r: seq<IndexRange>, x: IndexRange)
    requires SortedDisjoint(r) && x.start <= x.end
    requires |r| > 0 ==> r[|r| - 1].end < x.start
    ensures SortedDisjoint(r + [x])
  {
  }

  /** A non-empty list has a first member. */
  lemma FirstMember(r: seq<IndexRange>)
    ensures |r| > 0 ==> r[0] in r
  {
  }

  /** The adjacent-pairs condition of SortedDisjoint extends to every pair. */
  lemma {:induction false} SortedDisjointPairwise(r: seq<IndexRange>)
    requires SortedDisjoint(r)
    ensures forall j, k :: 0 <= j < k < |r| ==> r[j].end < r[k].start
  {
    if |r| > 1 {
      SortedDisjointPairwise(r[1..]);
      assert forall k :: 1 <= k < |r| ==> r[k] == r[1..][k - 1];
      forall j, k | 0 <= j < k < |r|
        ensures r[j].end < r[k].start
      {
        if j == 0 && k > 1 {
          assert r[1..][0].end < r[1..][k - 1].start;
        }
      }
    }
  }

  /**
   In a sorted, disjoint list the first range starts no later than any member
   and ends before every later one starts.
   */
  lemma FirstIsLeast(r: seq<IndexRange>)
    requires SortedDisjoint(r) && |r| > 0
    ensures forall p :: p in r ==> r[0].start <= p.start
    ensures forall p :: p in r[1..] ==> r[0].end < p.start
    ensures forall p :: p in r ==> p == r[0] || r[0].end < p.start
  {
    SortedDisjointPairwise(r);
    forall p | p in r[1..]
      ensures r[0].end < p.start
    {
      var m :| 0 <= m < |r[1..]| && r[1..][m] == p;
      assert r[m + 1] == p;
    }
    assert r == [r[0]] + r[1..];
  }

  /**
   A sorted, disjoint sequence of ranges is determined by its members: two
   such sequences with the same members are equal.  This turns the
   membership characterisations of the detectors into equalities.
   */
  lemma {:induction false} SortedDisjointUnique(r1: seq<IndexRange>, r2: seq<IndexRange>)
    requires SortedDisjoint(r1) && SortedDisjoint(r2)
    requires forall p :: p in r1 <==> p in r2
    ensures r1 == r2
  {
    assert |r1| > 0 ==> r1[0] in r2;
    assert |r2| > 0 ==> r2[0] in r1;
    if |r1| > 0 && |r2| > 0 {
      HeadsAgree(r1, r2);
      TailsAgree(r1, r2);
      SortedDisjointUnique(r1[1..], r2[1..]);
      assert r1 == [r1[0]] + r1[1..];
      assert r2 == [r2[0]] + r2[1..];
    }
  }

  lemma HeadsAgree(r1: seq<IndexRange>, r2: seq<IndexRange>)
    requires SortedDisjoint(r1) && SortedDisjoint(r2) && |r1| > 0 && |r2| > 0
    requires r1[0] in r2 && r2[0] in r1
    ensures r1[0] == r2[0]
  {
    FirstIsLeast(r1);
    FirstIsLeast(r2);
  }

  lemma TailsAgree(r1: seq<IndexRange>, r2: seq<IndexRange>)
    requires SortedDisjoint(r1) && SortedDisjoint(r2) && |r1| > 0 && |r2| > 0
    requires forall p :: p in r1 <==> p in r2
    requires r1[0] == r2[0]
    ensures SortedDisjoint(r1[1..]) && SortedDisjoint(r2[1..])
    ensures forall p :: p in r1[1..] <==> p in r2[1..]
  {
    FirstIsLeast(r1);
    FirstIsLeast(r2);
    assert r1 == [r1[0]] + r1[1..];
    assert r2 == [r2[0]] + r2[1..];
    forall p
      ensures p in r1[1..] <==> p in r2[1..]
    {
      assert p in r1 <==> p == r1[0] || p in r1[1..];
      assert p in r2 <==> p == r2[0] || p in r2[1..];
    }
  }

  /** Distinct members of a sorted, disjoint list share no index. */
  lemma SortedDisjointNoOverlap(r: seq<IndexRange>)
    requires SortedDisjoint(r)
    ensures forall p, q :: p in r && q in r && p != q ==> p.end < q.start || q.end < p.start
  {
    SortedDisjointPairwise(r);
    forall p, q | p in r && q in r && p != q
      ensures p.end < q.start || q.end < p.start
    {
      var j :| 0 <= j < |r| && r[j] == p;
      var k :| 0 <= k < |r| && r[k] == q;
      assert j != k;
    }
  }

  /**
   The plateau peaks are exactly the maximal runs of at least two indices,
   ending before the last index, whose neighbours are both lower.
   */
  lemma PlateauPeakIsMaximalRun(a: seq<int>, s: int, e: int)
    ensures PlateauPeak(a, s, e) <==>
      && MaximalRun(a, s, e) && s < e <= |a| - 2
      && (s == 0 || a[s - 1] < a[s]) && a[e + 1] < a[s]
  {
    if PlateauPeak(a, s, e) {
      assert a[e] == a[s];
    }
  }

  /**
   The ranges of `r` that span more than one index, in their original order
   (the multi-index features of a peak list).
   */
  function DropSingletons(r: seq<IndexRange>): (q: seq<IndexRange>)
    ensures forall p {:trigger p in q} {:trigger p in r} :: p in q <==> p in r && p.start != p.end
  {
    if |r| == 0 then []
    else if r[0].start != r[0].end then [r[0]] + DropSingletons(r[1..])
    else DropSingletons(r[1..])
  }

  /** Dropping the singletons keeps a sorted, disjoint list sorted and disjoint. */
  lemma {:induction false} DropSingletonsSorted(r: seq<IndexRange>)
    requires SortedDisjoint(r)
    ensures SortedDisjoint(DropSingletons(r))
  {
    if |r| > 0 {
      var rest := DropSingletons(r[1..]);
      DropSingletonsSorted(r[1..]);
      if r[0].start != r[0].end && |rest| > 0 {
        SortedDisjointPairwise(r);
        assert rest[0] in r[1..];
        var m :| 0 <= m < |r[1..]| && r[1..][m] == rest[0];
        assert r[0].end < r[m + 1].start;
      }
    }
  }

  // The run tracking shared by `find_peaks` and `find_plateau_peaks`: both
  // loops run i from 1, open a plateau at i - 1 when a[i] == a[i - 1], and
  // close it when the run breaks at i.

  /** [s, e] is constant and cannot be extended to the left. */
  ghost predicate MaximalLeft(a: seq<int>, s: int, e: int) {
    && 0 <= s <= e < |a|
    && ConstantOn(a, s, e)
    && (s == 0 || a[s - 1] != a[s])
  }

  /**
   `start` is the open plateau start on entry to the iteration at index `i`:
   it is set exactly when a run of equal values ends at i - 1, and then holds
   the first index of that run.
   */
  ghost predicate OpenRun(a: seq<int>, i: int, start: Option<int>) {
    && (start.None? ==> i == 1 || (2 <= i <= |a| && a[i - 1] != a[i - 2]))
    && (start.Some? ==> 0 <= start.value < i - 1 && MaximalLeft(a, start.value, i - 1))
  }

  /** `r` is sorted and disjoint, ends before `i`, and before the open run. */
  ghost predicate RunOrdered(i: int, start: Option<int>, r: seq<IndexRange>) {
    && SortedDisjoint(r)
    && (|r| > 0 ==> r[|r| - 1].end < i)
    && (start.Some? && |r| > 0 ==> r[|r| - 1].end < start.value)
  }

  /**
   The plateau the iteration at index `i` appends, if any: the open run, when
   it breaks at `i` with a lower left neighbour (or none) and a lower value at
   `i`.
   */
  ghost function ClosedPlateau(a: seq<int>, i: int, start: Option<int>): (c: seq<IndexRange>)
    requires 1 <= i < |a|
    requires start.Some? ==> 0 <= start.value < |a|
    ensures |c| <= 1
    ensures OpenRun(a, i, start) ==> forall p {:trigger p in c} :: p in c ==> IsPlateau(a, p) && p.end + 1 == i
  {
    if a[i] != a[i - 1] && start.Some?
       && (start.value == 0 || a[start.value - 1] < a[start.value])
       && a[i] < a[start.value]
    then [IndexRange(start.value, i - 1)]
    else []
  }

  /**
   The run tracking after the iteration at index `i`: a run is open exactly
   when `i` continues the value at i - 1, and one iteration keeps `start` at
   the first index of the maximal run ending at the current index.
   */
  function NextStart(a: seq<int>, i: int, start: Option<int>): (s': Option<int>)
    requires 1 <= i < |a|
    ensures s'.Some? <==> a[i] == a[i - 1]
    ensures OpenRun(a, i, start) ==> OpenRun(a, i + 1, s')
  {
    if a[i] == a[i - 1] then (if start.None? then Some(i - 1) else start) else None
  }

  /**
   The plateau peaks closed by the iteration at index `i` are exactly the
   plateau it appends: a plateau peak [s, e] is closed one index after its
   end.
   */
  lemma PlateauClosedAt(a: seq<int>, i: int, start: Option<int>)
    requires 1 <= i < |a|
    requires OpenRun(a, i, start)
    ensures forall p {:trigger IsPlateau(a, p)} ::
      IsPlateau(a, p) && p.end + 1 == i ==> p in ClosedPlateau(a, i, start)
    ensures forall p {:trigger p in ClosedPlateau(a, i, start)} ::
      p in ClosedPlateau(a, i, start) ==> IsPlateau(a, p) && p.end + 1 == i
  {
    forall p {:trigger IsPlateau(a, p)} | IsPlateau(a, p) && p.end + 1 == i
      ensures start.Some? && p == IndexRange(start.value, i - 1)
    {
      // the plateau ends at i - 1, so a run of equal values ends there
      assert a[i - 2] == a[i - 1];
    }
    if start.Some? {
      var s := start.value;
      assert a[i - 1] == a[s];
      if ClosedPlateau(a, i, start) != [] {
        assert IsPlateau(a, IndexRange(s, i - 1));
      }
    }
  }
}
