/**
 * The state `animate` updates in place every tick: the three deques `data`
 * (volts), `time_stamp` (elapsed seconds of each read) and `mSv_value`
 * (dose per tick), all of length `x_len`.  The bus read and the timer are
 * inputs of `Tick`; the plotting is not part of this model.
 */
module Pipeline {
  import opened Wrappers
  import opened Windows
  import opened Peaks
  import opened Adc
  import opened Estimators

  /** `x_len`: the number of points kept and displayed. */
  const X_LEN: nat := 500

  /** A `collections.deque` used as a fixed-length window. */
  class SlidingWindow {
    const capacity: nat
    var items: seq<real>

    ghost predicate Valid()
      reads this
    {
      capacity >= 1 && |items| == capacity
    }

    /** `deque(np.zeros(n))`. */
    constructor (n: nat)
      requires n >= 1
      ensures Valid() && capacity == n && items == Zeros(n)
    {
      capacity := n;
      items := Zeros(n);
    }

    /** `popleft()` then `append(x)`: the oldest element is returned and dropped, `x` becomes the newest. */
    method Push(x: real) returns (evicted: real)
      requires Valid()
      modifies this
      ensures Valid()
      ensures evicted == old(items)[0]
      ensures items == Shift(old(items), x)
    {
      evicted := items[0];
      items := items[1..];
      items := items + [x];
    }
  }

  /** What one tick computes: peak count, rate, dose and the legend shown. */
  datatype Snapshot = Snapshot(counts: nat, cpm: Option<real>, mSv: real, gate: Gate)

  /** The buffers of the Geiger counter and the per-tick step over them. */
  class GeigerMonitor {
    const xLen: nat
    const data: SlidingWindow
    const timeStamp: SlidingWindow
    const mSvValue: SlidingWindow

    // Everything pushed so far, oldest first.
    ghost var samples: seq<real>
    ghost var elapsed: seq<real>
    ghost var doses: seq<real>

    ghost predicate Valid()
      reads this, data, timeStamp, mSvValue
    {
      data != timeStamp && data != mSvValue && timeStamp != mSvValue &&
      xLen >= 1 &&
      data.Valid() && timeStamp.Valid() && mSvValue.Valid() &&
      data.capacity == xLen && timeStamp.capacity == xLen && mSvValue.capacity == xLen &&
      |samples| == |elapsed| == |doses| &&
      data.items == PushAll(Zeros(xLen), samples) &&
      timeStamp.items == PushAll(Zeros(xLen), elapsed) &&
      mSvValue.items == PushAll(Zeros(xLen), doses)
    }

    /** The three zero-filled deques of length `n`. */
    constructor (n: nat)
      requires n >= 1
      ensures Valid() && xLen == n
      ensures fresh(data) && fresh(timeStamp) && fresh(mSvValue)
      ensures data.items == Zeros(n) && timeStamp.items == Zeros(n) && mSvValue.items == Zeros(n)
      ensures samples == [] && elapsed == [] && doses == []
    {
      xLen := n;
      data := new SlidingWindow(n);
      timeStamp := new SlidingWindow(n);
      mSvValue := new SlidingWindow(n);
      samples, elapsed, doses := [], [], [];
    }

    /**
     * One call of `animate`: push the converted ADC byte and the read's
     * elapsed time, count the peaks of the new window, compute the rate and
     * the dose, push the dose, and decide the legend from the oldest elapsed
     * entry.
     */
    method Tick(adcByte: int, tickElapsed: real) returns (snap: Snapshot)
      requires Valid()
      requires 0 <= adcByte <= 255
      modifies this, data, timeStamp, mSvValue
      ensures Valid()
      ensures samples == old(samples) + [AdcToVolts(adcByte)]
      ensures elapsed == old(elapsed) + [tickElapsed]
      ensures doses == old(doses) + [snap.mSv]
      ensures data.items == Shift(old(data.items), AdcToVolts(adcByte))
      ensures timeStamp.items == Shift(old(timeStamp.items), tickElapsed)
      ensures mSvValue.items == Shift(old(mSvValue.items), snap.mSv)
      ensures snap.counts == PeakCount(data.items)
      ensures snap.cpm == Cpm(snap.counts, timeStamp.items)
      ensures snap.mSv == Dose(snap.counts)
      ensures snap.gate == GateOf(timeStamp.items)
    {
      var sample := AdcToVolts(adcByte);
      var _ := data.Push(sample);
      var _ := timeStamp.Push(tickElapsed);

      var counts := PeakCount(data.items);
      var cpm := Cpm(counts, timeStamp.items);
      var mSv := Dose(counts);

      var _ := mSvValue.Push(mSv);

      PushAllSnoc(Zeros(xLen), samples, sample);
      PushAllSnoc(Zeros(xLen), elapsed, tickElapsed);
      PushAllSnoc(Zeros(xLen), doses, mSv);
      samples, elapsed, doses := samples + [sample], elapsed + [tickElapsed], doses + [mSv];

      snap := Snapshot(counts, cpm, mSv, GateOf(timeStamp.items));
    }
  }

  /**
   * Sample `i` of the window and elapsed time `i` were read in the same tick,
   * for every monitor state reached by ticks from the cold start.
   */
  lemma SamplesAndTimesAligned(n: nat, samples: seq<real>, elapsed: seq<real>, i: int)
    requires n >= 1 && |samples| == |elapsed|
    requires 0 <= i < n
    ensures var k := |samples| + i - n;
      if k < 0 then PushAll(Zeros(n), samples)[i] == 0.0 && PushAll(Zeros(n), elapsed)[i] == 0.0
      else PushAll(Zeros(n), samples)[i] == samples[k] && PushAll(Zeros(n), elapsed)[i] == elapsed[k]
  {
    PushAllAt(Zeros(n), samples, i);
    PushAllAt(Zeros(n), elapsed, i);
  }

  /** Feeding the same sample at least `n` times fills the window with it, and it then has no peak. */
  lemma SteadySignalHasNoPeaks(n: nat, earlier: seq<real>, x: real, k: nat)
    requires n >= 1 && k >= n
    ensures PushAll(Zeros(n), earlier + seq(k, _ => x)) == seq(n, _ => x)
    ensures PeakCount(PushAll(Zeros(n), earlier + seq(k, _ => x))) == 0
  {
    RepeatedValueFillsWindow(Zeros(n), earlier, x, k);
    NoPeaksInConstantWindow(seq(n, _ => x), x);
  }

  /**
   * A window of 5 fed samples 0,1,0,1,0,1,0 with elapsed times 0,0,0,0,0,1,1:
   * the window holds 0,1,0,1,0 with two peaks, and the oldest elapsed entry
   * is still zero, so the legend still reads Calibration.
   */
  lemma ColdStartExample()
    ensures PushAll(Zeros(5), [0.0, 1.0, 0.0, 1.0, 0.0, 1.0, 0.0]) == [0.0, 1.0, 0.0, 1.0, 0.0]
    ensures PeakCount(PushAll(Zeros(5), [0.0, 1.0, 0.0, 1.0, 0.0, 1.0, 0.0])) == 2
    ensures PushAll(Zeros(5), [0.0, 0.0, 0.0, 0.0, 0.0, 1.0, 1.0]) == [0.0, 0.0, 0.0, 1.0, 1.0]
    ensures GateOf(PushAll(Zeros(5), [0.0, 0.0, 0.0, 0.0, 0.0, 1.0, 1.0])) == Calibration
  {
    var s := [0.0, 1.0, 0.0, 1.0, 0.0, 1.0, 0.0];
    var e := [0.0, 0.0, 0.0, 0.0, 0.0, 1.0, 1.0];
    PushAllFullWindow(Zeros(5), s);
    PushAllFullWindow(Zeros(5), e);
    PeakCountExamples();
  }

  /** A client: `X_LEN` positive-time ticks from the cold start turn the legend Active. */
  method ActiveAfterFullWindow(m: GeigerMonitor, adcByte: int, tickElapsed: real) returns (snap: Snapshot)
    requires m.Valid() && m.xLen == X_LEN
    requires 0 <= adcByte <= 255 && tickElapsed > 0.0
    requires |m.elapsed| == X_LEN - 1
    requires forall i :: 0 <= i < |m.elapsed| ==> m.elapsed[i] > 0.0
    modifies m, m.data, m.timeStamp, m.mSvValue
    ensures snap.gate == Active && snap.cpm.Some?
  {
    snap := m.Tick(adcByte, tickElapsed);
    GateFromColdStart(X_LEN, m.elapsed);
    forall i | 0 <= i < X_LEN
      ensures m.timeStamp.items[i] >= 0.0
    {
      PushAllAt(Zeros(X_LEN), m.elapsed, i);
    }
    CpmDefinedWhenActive(snap.counts, m.timeStamp.items);
  }
}
