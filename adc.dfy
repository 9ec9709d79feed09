/**
 * The conversion in `read_pin`: the ADC returns one byte, which is scaled to
 * volts against a 3.3 V reference over 256 steps.  The bus exchange itself is
 * not part of this model; the byte is an input.
 */
module Adc {
  import opened Peaks

  /** Volts for one ADC byte: `byte * 3.3 / 256`. */
  function AdcToVolts(b: int): (v: real)
    requires 0 <= b <= 255
    ensures 0.0 <= v < 3.3
  {
    (b as real * 3.3) / 256.0
  }

  /** The conversion is strictly increasing, so it preserves every comparison. */
  lemma AdcToVoltsOrder(a: int, b: int)
    requires 0 <= a <= 255 && 0 <= b <= 255
    ensures a < b <==> AdcToVolts(a) < AdcToVolts(b)
  {
  }

  predicate IsByteWindow(bytes: seq<int>) {
    forall i :: 0 <= i < |bytes| ==> 0 <= bytes[i] <= 255
  }

  /** A window of ADC bytes as volts. */
  function Volts(bytes: seq<int>): (v: seq<real>)
    requires IsByteWindow(bytes)
    ensures |v| == |bytes|
    ensures forall i :: 0 <= i < |bytes| ==> v[i] == AdcToVolts(bytes[i])
  {
    seq(|bytes|, i requires 0 <= i < |bytes| => AdcToVolts(bytes[i]))
  }

  /** A window of ADC bytes as raw numbers. */
  function Raw(bytes: seq<int>): (r: seq<real>)
    ensures |r| == |bytes|
    ensures forall i :: 0 <= i < |bytes| ==> r[i] == bytes[i] as real
  {
    seq(|bytes|, i requires 0 <= i < |bytes| => bytes[i] as real)
  }

  /** Counting peaks on volts or on raw bytes finds the same peaks. */
  lemma PeaksIgnoreVoltScaling(bytes: seq<int>)
    requires IsByteWindow(bytes)
    ensures PeakIndices(Volts(bytes)) == PeakIndices(Raw(bytes))
    ensures PeakCount(Volts(bytes)) == PeakCount(Raw(bytes))
  {
    var v, r := Volts(bytes), Raw(bytes);
    forall i | 0 <= i < |bytes| - 1
      ensures (v[i] < v[i + 1] <==> r[i] < r[i + 1]) && (v[i + 1] < v[i] <==> r[i + 1] < r[i])
    {
      AdcToVoltsOrder(bytes[i], bytes[i + 1]);
      AdcToVoltsOrder(bytes[i + 1], bytes[i]);
    }
    SameShapeSamePeaks(v, r);
  }
}
