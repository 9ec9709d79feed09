/**
 * The per-tick estimators of `animate`: the count rate over the summed
 * elapsed times, the dose from the peak count, and the calibration gate
 * decided by the oldest elapsed entry.
 */
module Estimators {
  import opened Wrappers
  import opened Windows

  /** Dose per detected count for the tube in use (`0.000057`). */
  const DOSE_PER_COUNT: real := 0.000057

  /** `np.sum(time_stamp)`: the total of the elapsed window, summed from the oldest entry. */
  function Sum(s: seq<real>): (t: real)
    ensures (forall i :: 0 <= i < |s| ==> s[i] >= 0.0) ==> t >= 0.0
    decreases |s|
  {
    if s == [] then 0.0 else s[0] + Sum(s[1..])
  }

  /** With non-negative entries the total is at least the oldest entry. */
  lemma SumAtLeastOldest(s: seq<real>)
    requires |s| >= 1
    requires forall i :: 0 <= i < |s| ==> s[i] >= 0.0
    ensures Sum(s) >= s[0]
  {
    assert forall i :: 0 <= i < |s| - 1 ==> s[1..][i] == s[i + 1];
  }

  /**
   * `counts / np.sum(time_stamp)`.  A zero total gives no finite number
   * (floating-point division by zero), modelled as `None`.
   */
  function Cpm(counts: nat, timeStamp: seq<real>): (r: Option<real>)
    ensures r.Some? <==> Sum(timeStamp) != 0.0
    ensures r.Some? ==> r.value * Sum(timeStamp) == counts as real
  {
    var total := Sum(timeStamp);
    if total == 0.0 then None else Some(counts as real / total)
  }

  /** `(counts * 0.000057) * 1000`. */
  function Dose(counts: nat): (r: real)
    ensures r >= 0.0
    ensures r * 1000.0 == counts as real * 57.0
  {
    (counts as real * DOSE_PER_COUNT) * 1000.0
  }

  /** More counts give a larger dose, and only more counts do. */
  lemma DoseMonotone(a: nat, b: nat)
    ensures a <= b <==> Dose(a) <= Dose(b)
    ensures a < b <==> Dose(a) < Dose(b)
  {
  }

  /** The two legends `animate` can show. */
  datatype Gate = Calibration | Active

  /** "Calibration" while the oldest elapsed entry is zero, "Active" otherwise. */
  function GateOf(timeStamp: seq<real>): (g: Gate)
    requires |timeStamp| >= 1
    ensures g == Calibration <==> timeStamp[0] == 0.0
  {
    if timeStamp[0] == 0.0 then Calibration else Active
  }

  /** When the gate is Active over non-negative elapsed times the rate is defined and non-negative. */
  lemma CpmDefinedWhenActive(counts: nat, timeStamp: seq<real>)
    requires |timeStamp| >= 1
    requires forall i :: 0 <= i < |timeStamp| ==> timeStamp[i] >= 0.0
    requires GateOf(timeStamp) == Active
    ensures Sum(timeStamp) > 0.0
    ensures Cpm(counts, timeStamp).Some? && Cpm(counts, timeStamp).value >= 0.0
  {
    SumAtLeastOldest(timeStamp);
  }

  /**
   * From the all-zero start with strictly positive elapsed times the gate is
   * Active exactly once at least `n` ticks have been pushed: it stays in
   * Calibration before that and never goes back afterwards.
   */
  lemma GateFromColdStart(n: nat, elapsed: seq<real>)
    requires n >= 1
    requires forall i :: 0 <= i < |elapsed| ==> elapsed[i] > 0.0
    ensures GateOf(PushAll(Zeros(n), elapsed)) == Active <==> |elapsed| >= n
  {
    PushAllAt(Zeros(n), elapsed, 0);
  }

  lemma CpmAndDoseExamples(timeStamp: seq<real>)
    requires Sum(timeStamp) == 60.0
    ensures Cpm(3, timeStamp) == Some(0.05)
    ensures Dose(10) == 0.57
  {
  }
}
