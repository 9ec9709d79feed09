/**
 * The peak counter of `animate`: the number of interior samples of the window
 * that are strictly greater than both neighbours.
 */
module Peaks {

  /** Index `i` is an interior strict local maximum of `s`. */
  predicate IsPeak(s: seq<real>, i: int) {
    0 < i < |s| - 1 && s[i - 1] < s[i] && s[i + 1] < s[i]
  }

  /** Reference definition: the set of peak indices. */
  function PeakIndices(s: seq<real>): (p: set<int>)
    ensures forall i :: i in p <==> IsPeak(s, i)
  {
    set i | 0 < i < |s| - 1 && IsPeak(s, i)
  }

  /**
   * `len(find_peaks(data)[0])` under the strict-neighbour rule, computed by
   * extending the window one sample at a time: the newest sample turns its
   * predecessor into a peak or not.  The two ends never count.
   */
  function PeakCount(s: seq<real>): (n: nat)
    ensures |s| >= 2 ==> n <= |s| - 2
    decreases |s|
  {
    if |s| < 3 then 0 else PeakCount(s[..|s| - 1]) + (if IsPeak(s, |s| - 2) then 1 else 0)
  }

  /** Dropping the last sample keeps every peak except possibly the one before it. */
  lemma PrefixPeaks(s: seq<real>)
    requires |s| >= 1
    ensures PeakIndices(s) == PeakIndices(s[..|s| - 1]) + (if IsPeak(s, |s| - 2) then {|s| - 2} else {})
  {
    var p := s[..|s| - 1];
    forall i
      ensures IsPeak(s, i) <==> IsPeak(p, i) || (IsPeak(s, |s| - 2) && i == |s| - 2)
    {
      if 0 < i < |s| - 2 {
        assert s[i - 1] == p[i - 1] && s[i] == p[i] && s[i + 1] == p[i + 1];
      }
    }
  }

  /** The counter agrees with the reference definition. */
  lemma {:induction false} PeakCountIsCardinality(s: seq<real>)
    ensures PeakCount(s) == |PeakIndices(s)|
    decreases |s|
  {
    if |s| < 3 {
      assert PeakIndices(s) == {};
    } else {
      var p := s[..|s| - 1];
      PeakCountIsCardinality(p);
      PrefixPeaks(s);
      assert |s| - 2 !in PeakIndices(p);
    }
  }

  /** Two peaks are never adjacent, so at most half of the non-final samples are peaks. */
  lemma {:induction false} PeakCountAtMostHalf(s: seq<real>)
    requires |s| >= 1
    ensures 2 * PeakCount(s) <= |s| - 1
    decreases |s|
  {
    if |s| >= 3 {
      var p := s[..|s| - 1];
      if IsPeak(s, |s| - 2) {
        var q := s[..|s| - 2];
        assert p[..|p| - 1] == q;
        assert !IsPeak(p, |p| - 2);
        PeakCountAtMostHalf(q);
      } else {
        PeakCountAtMostHalf(p);
      }
    }
  }

  /** A window whose samples never decrease has no peak. */
  lemma NoPeaksInNonDecreasingWindow(s: seq<real>)
    requires forall i :: 0 <= i < |s| - 1 ==> s[i] <= s[i + 1]
    ensures PeakCount(s) == 0
  {
    PeakCountIsCardinality(s);
    assert PeakIndices(s) == {};
  }

  /** A constant window (in particular the all-zero cold-start window) has no peak. */
  lemma NoPeaksInConstantWindow(s: seq<real>, x: real)
    requires forall i :: 0 <= i < |s| ==> s[i] == x
    ensures PeakCount(s) == 0
  {
    NoPeaksInNonDecreasingWindow(s);
  }

  /**
   * Two windows whose neighbouring samples compare the same way have the
   * same peaks, whatever the sample values.
   */
  lemma SameShapeSamePeaks(s: seq<real>, t: seq<real>)
    requires |s| == |t|
    requires forall i :: 0 <= i < |s| - 1 ==>
      (s[i] < s[i + 1] <==> t[i] < t[i + 1]) && (s[i + 1] < s[i] <==> t[i + 1] < t[i])
    ensures PeakIndices(s) == PeakIndices(t)
    ensures PeakCount(s) == PeakCount(t)
  {
    forall i
      ensures IsPeak(s, i) <==> IsPeak(t, i)
    {
      if 0 < i < |s| - 1 {
        assert (s[i - 1] < s[i] <==> t[i - 1] < t[i]);
      }
    }
    assert PeakIndices(s) == PeakIndices(t);
    PeakCountIsCardinality(s);
    PeakCountIsCardinality(t);
  }

  /** Concrete windows: alternating, plateau and strictly increasing. */
  lemma PeakCountExamples()
    ensures PeakCount([0.0, 1.0, 0.0, 1.0, 0.0]) == 2
    ensures PeakCount([0.0, 1.0, 1.0, 0.0]) == 0
    ensures PeakCount([0.0, 1.0, 2.0, 3.0]) == 0
  {
  }
}
