# DiscoLights sample aggregator in Dafny

DiscoLights drives lights from music. Its `SampleAggregator` gets one audio
sample per `Add` call and runs two independent accumulators over the stream.

- **Spectral block accumulator.** If `PerformFFT` is on and somebody
  subscribes to `FftCalculated`, each sample is scaled by a Hamming window
  weight. It is stored at the write position `fftPos` of a 1024-entry complex
  buffer, with imaginary part 0. When the position reaches the end of the
  buffer:
  - the position wraps to 0;
  - the buffer is Fourier-transformed in place;
  - `FftCalculated` is raised with a payload that refers to that same buffer.
- **Amplitude window accumulator.** A running `maxValue` and `minValue`, both
  starting at 0, take in every sample, and a 32-bit `count` is incremented.
  When `count` reaches a positive `NotificationCount`:
  - `MaximumCalculated` is raised with the two extrema, if anybody subscribes;
  - the window is reset in every case.

The model has three modules:

- `CSharpInt` (`csharp_int.dfy`) covers the C# `int`: unchecked `x++` with its
  wrap-around, and the two's-complement bit pattern.
- `Dsp` (`dsp.dfy`) covers NAudio's `Complex` record and the in-place FFT.
  The FFT is an imperative method proved against a transform function that is
  passed in.
- `Audio` (`sample_aggregator.dfy`) holds three layers:
  - the event payloads;
  - pure step functions. `WindowStep`/`WindowEvents` and
    `SpectralStep`/`SpectralEvents` give what one `Add` does to each
    accumulator and which events it raises. Lemmas state the properties of
    these functions, and that they keep the invariants `WindowInv` and
    `SpectralInv`;
  - the class `SampleAggregator`, with the C# fields, the buffer as an
    `array`, and a ghost log of the events raised. Each method is proved to
    move the fields exactly as the step functions say. `Valid()` is the class
    invariant, and `Add` and `Reset` preserve it.

The invariant (`Consistent`, on the snapshots of the fields) ties the 32-bit `count` and the running extrema to the samples
of the open window. It also ties the buffer below `fftPos` to the windowed
samples of the current block.

It also states the spectrum cadence: of the samples that took the spectral
path, every full 1024 raised exactly one spectrum event, and `fftPos` holds
the rest.

The constructor's power-of-two check is dead. Line 29 of `SampleAggregator.cs` tests the field
`fftLength` while it still holds its default 0, and line 33 then hard-codes
1024. So the constructor never throws, and no other length can be configured.

`ConstructorCheckPasses` and the `assert false`
in the constructor's throw branch record that the check is dead.
`MinValuePassesCheck` records that the bit test also accepts `int.MinValue`.

## Model

| member | source | states |
|---|---|---|
| Audio.NewMaxSampleEventArgs | DiscoLights/DiscoLights.Audio/SampleAggregator.cs:87-91 | the payload's `MaxSample` is the second (`maxValue`) argument and `MinSample` the first (`minValue`) |
| Audio.FftEventArgs.constructor | DiscoLights/DiscoLights.Audio/SampleAggregator.cs:104-107 | the payload refers to the given buffer itself, not to a copy |
| Audio.IsPowerOfTwo | DiscoLights/DiscoLights.Audio/SampleAggregator.cs:74-77 | the bit test `x & (x - 1) == 0` holds exactly when `x` equals its own lowest set bit `x & -x` |
| Audio.IsPowerOfTwoIff | DiscoLights/DiscoLights.Audio/SampleAggregator.cs:74-77 | `x & (x - 1) == 0` holds exactly when `x` is 0 or has a single bit set (both directions) |
| Audio.BitValue | DiscoLights/DiscoLights.Audio/SampleAggregator.cs:74-77 | the pattern with only bit k set (k < 32) passes the check, and read as an unsigned number it is 2^k |
| Audio.AcceptedValue | DiscoLights/DiscoLights.Audio/SampleAggregator.cs:74-77 | every nonzero pattern that passes the check is bit k alone for some k < 32, with unsigned value 2^k |
| Audio.MinValuePassesCheck | DiscoLights/DiscoLights.Audio/SampleAggregator.cs:74-77 | the check also accepts `int.MinValue`, whose pattern is bit 31 alone |
| Audio.ConstructorCheckPasses | DiscoLights/DiscoLights.Audio/SampleAggregator.cs:27-33 | the check passes on the default `fftLength` 0 that the constructor tests at line 29; it would also pass on the hard-coded 1024 = 2^10 of line 33, which is never tested |
| Audio.SampleAggregator.constructor | DiscoLights/DiscoLights.Audio/SampleAggregator.cs:27-37 | never throws; establishes `Valid()` with a fresh 1024-entry zero buffer shared with a fresh payload, `m` = 10, `fftPos` 0, empty window, every flag off, an empty event log |
| CSharpInt.IncrementWrap | DiscoLights/DiscoLights.Audio/SampleAggregator.cs:63 | unchecked `count++` on the wrapped value of n gives the wrapped value of n + 1 |
| CSharpInt.CountedIsWrapped | DiscoLights/DiscoLights.Audio/SampleAggregator.cs:63 | a counter incremented n times from 0 holds n reduced into the `int` range, so it equals n up to `int.MaxValue` |
| Audio.MaxWith0IsMaximum | DiscoLights/DiscoLights.Audio/SampleAggregator.cs:61 | the running maximum is at least 0 and every sample, and is 0 or one of the samples |
| Audio.MinWith0IsMinimum | DiscoLights/DiscoLights.Audio/SampleAggregator.cs:62 | the running minimum is at most 0 and every sample, and is 0 or one of the samples |
| Audio.ExtremaSnoc | DiscoLights/DiscoLights.Audio/SampleAggregator.cs:61-62 | folding a sample into the extrema of a window gives the extrema of the window extended by that sample |
| Audio.WindowStep | DiscoLights/DiscoLights.Audio/SampleAggregator.cs:61-71 | once the incremented count reaches a positive threshold the window is reset to the empty one; otherwise the window is extended by exactly the new sample and counted by a wrapping increment |
| Audio.WindowEvents | DiscoLights/DiscoLights.Audio/SampleAggregator.cs:64-69 | at most one event, and it is a min/max event; one is raised if and only if the threshold is reached and somebody listens (the two directions are separate clauses) |
| Audio.WindowStepKeepsInv | DiscoLights/DiscoLights.Audio/SampleAggregator.cs:61-70 | the reset window and every step keep the fields a summary of the open window: extrema from 0 and the 32-bit sample count |
| Audio.WindowStepThreshold | DiscoLights/DiscoLights.Audio/SampleAggregator.cs:63-71 | with a positive threshold, `count` ends below it even when the threshold was lowered in between; with a non-positive one, no event is raised and `count` only advances |
| Audio.WindowEventIsExtrema | DiscoLights/DiscoLights.Audio/SampleAggregator.cs:64-69 | an amplitude event is raised exactly when the threshold is reached and somebody listens, and it carries the extrema of {0} and every sample of the window, the new one included |
| Audio.WindowBounds | DiscoLights/DiscoLights.Audio/SampleAggregator.cs:42 | a valid window has `minValue <= 0 <= maxValue`, and both bracket every sample of the window |
| Audio.AmplitudeExample | DiscoLights/DiscoLights.Audio/SampleAggregator.cs:61-71 | with `NotificationCount` 5 and a listener, from a reset window the samples 0.1, -0.3, 0.7 and -0.9 raise nothing; 0.2 raises the single event (min -0.9, max 0.7) and leaves the empty window |
| Audio.SpectralStep | DiscoLights/DiscoLights.Audio/SampleAggregator.cs:47-59 | disabled, the spectral state is unchanged; enabled, the position advances by one or, after the last slot, wraps to 0; it always stays inside the buffer |
| Audio.SpectralEvents | DiscoLights/DiscoLights.Audio/SampleAggregator.cs:52-57 | at most one event, and it is a spectrum event; one is raised if and only if the step is enabled and the sample fills the last slot of the buffer |
| Audio.SpectralStepKeepsInv | DiscoLights/DiscoLights.Audio/SampleAggregator.cs:49-55 | the step keeps `fftPos` inside the buffer, keeps the buffer's length, and keeps the windowed block below the position |
| Audio.SpectralStepDisabled | DiscoLights/DiscoLights.Audio/SampleAggregator.cs:47 | with FFT off or nobody listening, the spectral state is unchanged and no event is raised |
| Audio.SpectralStepWithinBlock | DiscoLights/DiscoLights.Audio/SampleAggregator.cs:49-51 | within a block only entry `fftPos` is written, with the weighted sample and imaginary part 0; the position advances by one and no event is raised |
| Audio.SpectralStepCompletesBlock | DiscoLights/DiscoLights.Audio/SampleAggregator.cs:52-57 | the sample that fills the buffer wraps the position to 0; the buffer becomes the forward transform of the whole windowed block; exactly one spectrum event carrying it is raised |
| Audio.SpectralStepCadence | DiscoLights/DiscoLights.Audio/SampleAggregator.cs:49-57 | "samples fed = 1024 × spectra raised + `fftPos`" is preserved by the step |
| Audio.WindowEventsNoSpectrum | DiscoLights/DiscoLights.Audio/SampleAggregator.cs:64-69 | the amplitude half never raises a spectrum event |
| Audio.SpectralHalfKeepsConsistent | DiscoLights/DiscoLights.Audio/SampleAggregator.cs:47-59 | the spectral half keeps the spectral invariant and the one-spectrum-per-1024-samples cadence of the log; it does not touch the window |
| Audio.WindowHalfKeepsConsistent | DiscoLights/DiscoLights.Audio/SampleAggregator.cs:61-71 | the amplitude half keeps the window invariant; its events add no spectrum, so the cadence holds with the same count of samples fed |
| Audio.StepKeepsInvariants | DiscoLights/DiscoLights.Audio/SampleAggregator.cs:45-72 | one sample through both accumulators, spectral half first, keeps both invariants and the one-spectrum-per-1024-samples cadence of the event log |
| Dsp.FFT | DiscoLights/DiscoLights.Audio/SampleAggregator.cs:56 | changes only the given array, whose contents become the transform of its old contents; the length is 2^m |
| Audio.SampleAggregator.Reset | DiscoLights/DiscoLights.Audio/SampleAggregator.cs:39-43 | clears `count`, `maxValue`, `minValue` (and the window) and changes no other field: not the buffer, `fftPos` or `NotificationCount`; keeps the class invariant `Valid()` |
| Audio.SampleAggregator.AddToSpectrum | DiscoLights/DiscoLights.Audio/SampleAggregator.cs:47-59 | the spectral fields and the buffer move as `SpectralStep` says; the log grows by `SpectralEvents`; nothing else changes |
| Audio.SampleAggregator.AddToWindow | DiscoLights/DiscoLights.Audio/SampleAggregator.cs:61-71 | the window fields move as `WindowStep` says (reset whether or not anybody listens); the log grows by `WindowEvents`; nothing else changes |
| Audio.SampleAggregator.Add | DiscoLights/DiscoLights.Audio/SampleAggregator.cs:45-72 | keeps `Valid()`; spectral then amplitude step; the log grows by the spectrum event and then the amplitude event; the buffer object, the payload, the configuration and the flags are untouched |

## Left out

- NAudio's `FastFourierTransform.FFT` and `HammingWindow` are foreign code on floats. The transform is a function value given to the constructor; the model assumes only that it keeps the length. The window weights for n = 0 .. 1023 are a 1024-entry table given to the constructor, so bounds and symmetry of the weights are not stated.
- Floating point is not modelled. Samples, weights and extrema are reals, and the `(float)` cast at line 49 is the identity.
- `m = (int)Math.Log(fftLength, 2.0)` (line 34) is modelled as the exact value 10.
- C# events and multicast delegates are reduced to a "has subscriber" flag per event plus a ghost log of raised events; subscriber code is not run. A spectrum event records the buffer's contents at the moment of notification. The aliasing of the payload is captured only as `fftArgs.Result == fftBuffer`: later mutation of a buffer a subscriber kept is not modelled.
- The auto-properties `NotificationCount` and `PerformFFT`, and subscribing and unsubscribing, are plain field assignments by the client. `Valid()` does not depend on them.
- `Add` is written as `AddToSpectrum` followed by `AddToWindow`, in the source's order. Lines 49-50 write `X` and then `Y` of one `Complex` entry; the model writes the whole entry at once, which stores the same value.
- `fftPos`, `fftLength` and `m` are unbounded integers. The invariant keeps them within 1024, so C# overflow cannot arise. `count` and `NotificationCount` are 32-bit, with `count++` wrapping.
- The constructor's `ArgumentException` is not modelled as an error result, because the check that would throw it is dead.
- Audio capture and the lighting consumers are outside the core.
- IsPowerOfTwoIff: characterises the C# `int` argument by its two's-complement pattern (`Bits`), and `BitValue` gives the unsigned value of each accepted pattern. The corollary that the accepted non-negative ints are exactly 0 and 2^0 .. 2^30 is not proved: it needs `(x as bv32) as int == x` for a symbolic `x`, which is beyond the solver's resource limit.
