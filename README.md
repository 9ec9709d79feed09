# Geiger counter signal pipeline — Dafny model

This project models the per-tick signal processing of `Geiger_2.0.py`, a
Raspberry Pi Geiger–Müller counter display. Every animation tick, `animate`
reads one ADC byte and converts it to volts. It pushes that voltage into the
`data` window. Into the `time_stamp` window it pushes the time measured from
line 70 to line 74, which covers the two `popleft` calls, the `append` and,
mostly, the read. It counts the local maxima (pulses) that `find_peaks`
reports in the voltage window; the model counts by the strict-neighbour rule
(see "## Left out"). From the count it derives a
rate (`counts / sum(time_stamp)`) and a dose (`counts * 0.000057 * 1000`). It
pushes the dose into the `mSv_value` window. The legend reads "Calibration"
while the oldest elapsed entry is still a cold-start zero, and shows the rate
and dose otherwise.

Layout:

- `wrappers.dfy`: `Option`, used for a rate that has no finite value.
- `windows.dfy` (module `Windows`): the fixed-length window as values. `Zeros` is the cold start, `Shift` is one `popleft` plus `append`, and `PushAll` is a whole stream of pushes. Lemmas cover suffix form, the entry at each index, and eviction.
- `peaks.dfy` (module `Peaks`): the strict-neighbour peak rule. `PeakIndices` is the reference set and `PeakCount` is the counter. Lemmas prove the counter agrees with the set and prove its bounds.
- `adc.dfy` (module `Adc`): the byte-to-volts conversion of `read_pin`. It proves that the conversion does not change which samples are peaks.
- `estimators.dfy` (module `Estimators`): `Sum`, `Cpm`, `Dose` and the calibration gate `GateOf`, with their lemmas.
- `pipeline.dfy` (module `Pipeline`): the mutable state. `SlidingWindow` is one deque. `GeigerMonitor` owns the three deques and has `Tick`, one call of `animate`. Ghost histories of everything pushed tie each deque to `PushAll` from the all-zero start. A lemma here shows the sample and elapsed windows stay index-aligned.

Samples and elapsed times are Dafny `real`s, so the arithmetic is exact.
The rate keeps the source's formula: peak count divided by the summed elapsed
entries, in seconds.

## Model

| member | source | states |
|---|---|---|
| `Windows.Zeros` | Geiger_2.0.py:28-30 | the cold-start window has length `x_len` and every entry is zero |
| `Windows.Shift` | Geiger_2.0.py:71-72 | one eviction plus one append keeps the length, moves every retained entry one place left and puts the new value last |
| `Windows.PushAll` | Geiger_2.0.py:71-74 | any number of ticks keeps the window length unchanged |
| `Windows.PushAllSnoc` | Geiger_2.0.py:71-74 | one more tick is one more shift of the window |
| `Windows.PushAllIsSuffix` | Geiger_2.0.py:71-74 | after any stream of pushes the window is exactly the last `x_len` values of cold-start zeros followed by the stream |
| `Windows.PushAllAt` | Geiger_2.0.py:71-74 | entry `i` is the value pushed at tick `ticks + i - x_len`, or a cold-start zero when that tick has not happened |
| `Windows.PushAllFullWindow` | Geiger_2.0.py:71-74 | after at least `x_len` pushes no cold-start entry is left; the window is the last `x_len` values pushed |
| `Windows.RepeatedValueFillsWindow` | Geiger_2.0.py:71-72 | pushing the same value at least `x_len` times leaves `x_len` copies of it |
| `Peaks.PeakIndices` | Geiger_2.0.py:76 | reference definition: exactly the indices satisfying `Peaks.IsPeak`, the strict-neighbour test (interior index, strictly above both neighbours) |
| `Peaks.PeakCount` | Geiger_2.0.py:76-77 | the ends never count, so a window of length N has at most N-2 peaks |
| `Peaks.PrefixPeaks` | Geiger_2.0.py:76 | dropping the newest sample removes only a peak at the second-to-last index |
| `Peaks.PeakCountIsCardinality` | Geiger_2.0.py:76-77 | `counts` equals the number of interior strict local maxima |
| `Peaks.PeakCountAtMostHalf` | Geiger_2.0.py:76-77 | peaks are never adjacent, so `2 * counts <= N - 1` |
| `Peaks.NoPeaksInNonDecreasingWindow` | Geiger_2.0.py:76-77 | a non-decreasing window, strictly increasing ones included, has count 0 |
| `Peaks.NoPeaksInConstantWindow` | Geiger_2.0.py:28-30 | a constant window has count 0; this includes the all-zero cold start |
| `Peaks.SameShapeSamePeaks` | Geiger_2.0.py:76 | the peak set depends only on how neighbouring samples compare |
| `Peaks.PeakCountExamples` | Geiger_2.0.py:76-77 | `[0,1,0,1,0]` has 2 peaks; the plateau `[0,1,1,0]` and `[0,1,2,3]` have none (strict rule; `find_peaks` reports 1 for the plateau, see Left out) |
| `Adc.AdcToVolts` | Geiger_2.0.py:37 | a byte gives a voltage in `[0, 3.3)` |
| `Adc.AdcToVoltsOrder` | Geiger_2.0.py:37 | the conversion is strictly increasing in the byte |
| `Adc.Volts` | Geiger_2.0.py:37 | a byte window converts entry by entry to volts |
| `Adc.PeaksIgnoreVoltScaling` | Geiger_2.0.py:37 | peaks counted on volts are the same as peaks counted on raw bytes |
| `Estimators.Sum` | Geiger_2.0.py:79 | the total of the elapsed window, summed from the oldest entry; non-negative elapsed times give a non-negative total |
| `Estimators.SumAtLeastOldest` | Geiger_2.0.py:79 | with non-negative entries the total is at least the oldest entry |
| `Estimators.Cpm` | Geiger_2.0.py:79 | the rate is defined exactly when the elapsed total is non-zero, and then rate times total equals counts |
| `Estimators.Dose` | Geiger_2.0.py:80 | the dose is non-negative and equals `counts * 57 / 1000` |
| `Estimators.DoseMonotone` | Geiger_2.0.py:80 | the dose increases strictly with counts, in both directions |
| `Estimators.GateOf` | Geiger_2.0.py:87-92 | the two legend branches are exclusive and exhaustive; Calibration exactly when `time_stamp[0] == 0` |
| `Estimators.CpmDefinedWhenActive` | Geiger_2.0.py:79-92 | with non-negative elapsed times, an Active gate means a positive total, so the rate is defined and non-negative |
| `Estimators.GateFromColdStart` | Geiger_2.0.py:87-92 | from zeros, with positive elapsed times, the gate is Active exactly when at least `x_len` ticks have run; it never returns to Calibration |
| `Estimators.CpmAndDoseExamples` | Geiger_2.0.py:79-80 | 3 counts over 60 s give 0.05; 10 counts give a dose of 0.57 |
| `Pipeline.SlidingWindow.constructor` | Geiger_2.0.py:28 | a new deque holds `n` zeros |
| `Pipeline.SlidingWindow.Push` | Geiger_2.0.py:71-72 | returns the oldest entry and leaves the shifted window with the new value last; the length stays the same |
| `Pipeline.GeigerMonitor.constructor` | Geiger_2.0.py:28-30 | three distinct zero-filled deques of length `n`, with empty histories |
| `Pipeline.GeigerMonitor.Tick` | Geiger_2.0.py:68-96 | each deque gets exactly one shift; counts, rate, dose and legend come from the new windows; the dose is pushed; each deque stays equal to the cold start plus every value pushed |
| `Pipeline.SamplesAndTimesAligned` | Geiger_2.0.py:71-74 | for any run of ticks, sample `i` and elapsed time `i` come from the same tick, or both are cold-start zeros |
| `Pipeline.SteadySignalHasNoPeaks` | Geiger_2.0.py:71-77 | feeding one value `x_len` times or more leaves a constant window with count 0 |
| `Pipeline.ColdStartExample` | Geiger_2.0.py:68-92 | window 5 with samples 0,1,0,1,0,1,0 and times 0,0,0,0,0,1,1 gives the window 0,1,0,1,0 with 2 peaks; the gate is still Calibration |
| `Pipeline.ActiveAfterFullWindow` | Geiger_2.0.py:87-96 | the `x_len`-th positive-time tick from the cold start shows the Active legend with a defined rate |

## Left out

- Pipeline.GeigerMonitor.Tick: a failing ADC read is not modelled; `Tick` models only a tick whose read succeeds. In the source, an exception from `bus.write_byte` or `bus.read_byte` leaves `animate` after `data.popleft()` (Geiger_2.0.py:71) has already run, so `data` is one entry short and no longer in step with `time_stamp`. The length and alignment results hold only for ticks whose read succeeds.
- The I2C exchange in `read_pin` (`smbus` `write_byte`/`read_byte`, Geiger_2.0.py:14, 34-38) is hardware I/O. The ADC byte is an input of `Tick`. The `while True` around it returns on its first pass, so it is not modelled.
- The wall-clock timer (`timer()`, Geiger_2.0.py:70, 74) is left out. The elapsed time of the read is an input of `Tick`.
- All matplotlib work is left out: figure setup, axis labels, line updates, legends and the `FuncAnimation` scheduler (Geiger_2.0.py:24-25, 41-64, 88-89, 95-103, 105-109). `Tick` returns the legend choice as a `Gate` value. The frame number `i` that `animate` receives is unused and not modelled.
- The display rounding `round(cpm)` and `round(mSv, 2)` and the legend text formatting (Geiger_2.0.py:93-96) are left out.
- Peaks.PeakCount: scipy's `find_peaks` also reports one index, its middle, for a flat plateau whose two sides are both lower. This model counts only strict local maxima, so it does not reproduce that.
- Estimators.Cpm: IEEE floating point is not modelled; samples, times, rate and dose are exact reals. A zero elapsed total gives `inf` or `nan` in the source with a runtime warning. The model collapses both into `None`.
- Pipeline.SlidingWindow.constructor: a window length of 0 is excluded (`n >= 1`). With length 0 the source's `popleft` on an empty deque raises `IndexError` on the first tick.
- The source computes and pushes the dose on every tick, including while the legend reads Calibration. The model does the same and does not push a placeholder during calibration.
- Active is permanent only while pushed elapsed times are positive. The source decides the legend by `time_stamp[0] == 0` alone. A zero reading would bring Calibration back once it became the oldest entry.
