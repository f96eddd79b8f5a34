/**
 * DiscoLights' sample aggregator: it is fed one audio sample per `Add` call
 * and runs two independent accumulators over the stream.
 *
 *  - The spectral block accumulator stores each sample, weighted by a Hamming
 *    window, at a circular position of a 1024-entry complex buffer; when the
 *    position wraps, the buffer is Fourier-transformed in place and a spectrum
 *    event is raised.
 *  - The amplitude window accumulator keeps a running minimum and maximum
 *    (both starting at 0) and a sample counter; when the counter reaches
 *    `NotificationCount` it raises a min/max event and resets.
 *
 * Events and their subscribers are reduced to two "has subscriber" flags and
 * a ghost log of the events raised, in order.
 */
module Audio {

  import opened CSharpInt
  import opened Dsp

  /** The payload of `MaximumCalculated`. */
  datatype MaxSampleEventArgs = MaxSampleEventArgs(MaxSample: real, MinSample: real)

  /** `new MaxSampleEventArgs(minValue, maxValue)`: note the argument order, minimum first. */
  function NewMaxSampleEventArgs(minValue: real, maxValue: real): (e: MaxSampleEventArgs)
    ensures e.MaxSample == maxValue && e.MinSample == minValue
  {
    MaxSampleEventArgs(maxValue, minValue)
  }

  /** The payload of `FftCalculated`: a reference to the aggregator's own buffer, not a copy. */
  class FftEventArgs {
    const Result: array<Complex>

    constructor (result: array<Complex>)
      ensures Result == result
    {
      Result := result;
    }
  }

  /**
   * An event as a subscriber receives it. A spectrum event records what the
   * shared buffer holds at the moment of the synchronous notification.
   */
  datatype Event =
    | MaximumCalculated(args: MaxSampleEventArgs)
    | FftCalculated(result: seq<Complex>)

  function Max(a: real, b: real): real
  {
    if a >= b then a else b
  }

  function Min(a: real, b: real): real
  {
    if a <= b then a else b
  }

  /** The running maximum the aggregator keeps: it starts at 0 and folds in the samples in order. */
  function MaxWith0(s: seq<real>): real
  {
    if s == [] then 0.0 else Max(MaxWith0(s[..|s| - 1]), s[|s| - 1])
  }

  /** The running minimum the aggregator keeps: it starts at 0 and folds in the samples in order. */
  function MinWith0(s: seq<real>): real
  {
    if s == [] then 0.0 else Min(MinWith0(s[..|s| - 1]), s[|s| - 1])
  }

  /** The running maximum is the largest element of {0} together with the samples. */
  lemma {:induction false} MaxWith0IsMaximum(s: seq<real>)
    ensures 0.0 <= MaxWith0(s)
    ensures forall i :: 0 <= i < |s| ==> s[i] <= MaxWith0(s)
    ensures MaxWith0(s) == 0.0 || exists i :: 0 <= i < |s| && s[i] == MaxWith0(s)
  {
    if s != [] {
      var init := s[..|s| - 1];
      MaxWith0IsMaximum(init);
      assert forall i :: 0 <= i < |init| ==> s[i] == init[i];
    }
  }

  /** The running minimum is the smallest element of {0} together with the samples. */
  lemma {:induction false} MinWith0IsMinimum(s: seq<real>)
    ensures MinWith0(s) <= 0.0
    ensures forall i :: 0 <= i < |s| ==> MinWith0(s) <= s[i]
    ensures MinWith0(s) == 0.0 || exists i :: 0 <= i < |s| && s[i] == MinWith0(s)
  {
    if s != [] {
      var init := s[..|s| - 1];
      MinWith0IsMinimum(init);
      assert forall i :: 0 <= i < |init| ==> s[i] == init[i];
    }
  }

  /** One step of the running extrema: folding in a sample. */
  lemma ExtremaSnoc(s: seq<real>, value: real)
    ensures MaxWith0(s + [value]) == Max(MaxWith0(s), value)
    ensures MinWith0(s + [value]) == Min(MinWith0(s), value)
  {
    assert (s + [value])[..|s|] == s;
  }

  /** The min/max event for a closed amplitude window: the extrema of {0} together with its samples. */
  function AmplitudeEvent(samples: seq<real>): Event
  {
    MaximumCalculated(NewMaxSampleEventArgs(MinWith0(samples), MaxWith0(samples)))
  }

  /** The number of spectrum events in a log. */
  function SpectrumCount(events: seq<Event>): nat
  {
    if events == [] then 0
    else SpectrumCount(events[..|events| - 1]) + (if events[|events| - 1].FftCalculated? then 1 else 0)
  }

  /** Spectrum events in a log made of two parts are counted part by part. */
  lemma {:induction false} SpectrumCountAppend(a: seq<Event>, b: seq<Event>)
    ensures SpectrumCount(a + b) == SpectrumCount(a) + SpectrumCount(b)
    decreases |b|
  {
    if b != [] {
      var init := b[..|b| - 1];
      var last := if b[|b| - 1].FftCalculated? then 1 else 0;
      assert (a + b)[..|a + b| - 1] == a + init;
      assert (a + b)[|a + b| - 1] == b[|b| - 1];
      assert SpectrumCount(a + b) == SpectrumCount(a + init) + last;
      assert SpectrumCount(b) == SpectrumCount(init) + last;
      SpectrumCountAppend(a, init);
    } else {
      assert a + b == a;
    }
  }

  // The amplitude window accumulator (SampleAggregator.cs, lines 39-43 and 61-71).

  /**
   * The fields `count`, `maxValue` and `minValue`, with the samples added since
   * the last reset, which the class itself does not keep.
   */
  datatype WindowState = WindowState(count: int32, maxValue: real, minValue: real, samples: seq<real>)

  /** The window as `Reset()` leaves it. */
  const EmptyWindow := WindowState(0, 0.0, 0.0, [])

  /** The fields summarize the samples: the running extrema from 0, and the 32-bit count of samples. */
  predicate WindowInv(w: WindowState)
  {
    w.maxValue == MaxWith0(w.samples) && w.minValue == MinWith0(w.samples) && w.count == Counted(|w.samples|)
  }

  /** Whether adding a sample reaches the threshold: the counter is incremented before the test. */
  predicate Reached(w: WindowState, notificationCount: int32)
  {
    Increment(w.count) >= notificationCount && notificationCount > 0
  }

  /** The amplitude half of `Add`: fold the sample in, and reset once the threshold is reached. */
  function WindowStep(w: WindowState, value: real, notificationCount: int32): (r: WindowState)
    ensures Reached(w, notificationCount) ==> r == EmptyWindow
    ensures !Reached(w, notificationCount) ==> r.count == Increment(w.count) && r.samples == w.samples + [value]
  {
    if Reached(w, notificationCount) then EmptyWindow
    else WindowState(Increment(w.count), Max(w.maxValue, value), Min(w.minValue, value), w.samples + [value])
  }

  /** The events the amplitude half of `Add` raises: one, built before the reset, if anybody listens. */
  function WindowEvents(w: WindowState, value: real, notificationCount: int32, hasMaxSubscriber: bool): (es: seq<Event>)
    ensures |es| <= 1
    ensures es != [] ==> Reached(w, notificationCount) && hasMaxSubscriber
    ensures Reached(w, notificationCount) && hasMaxSubscriber ==> |es| == 1
    ensures forall e :: e in es ==> e.MaximumCalculated?
  {
    if Reached(w, notificationCount) && hasMaxSubscriber
    then [MaximumCalculated(NewMaxSampleEventArgs(Min(w.minValue, value), Max(w.maxValue, value)))]
    else []
  }

  /** The reset window is a summary of no samples, and each step keeps the fields a summary of the window. */
  lemma WindowStepKeepsInv(w: WindowState, value: real, notificationCount: int32)
    requires WindowInv(w)
    ensures WindowInv(EmptyWindow)
    ensures WindowInv(WindowStep(w, value, notificationCount))
  {
    ExtremaSnoc(w.samples, value);
  }

  /**
   * With a positive threshold the counter ends below it, because it is reset
   * or has not reached it, even if the threshold was lowered below the counter
   * in between. With a non-positive threshold nothing is ever raised and the
   * counter only advances.
   */
  lemma WindowStepThreshold(w: WindowState, value: real, notificationCount: int32, hasMaxSubscriber: bool)
    ensures notificationCount > 0 ==> WindowStep(w, value, notificationCount).count < notificationCount
    ensures notificationCount <= 0 ==>
      WindowStep(w, value, notificationCount).count == Increment(w.count) &&
      WindowStep(w, value, notificationCount).samples == w.samples + [value] &&
      WindowEvents(w, value, notificationCount, hasMaxSubscriber) == []
  {
  }

  /**
   * An event is raised exactly when the threshold is reached and somebody
   * listens, and it carries the extrema of {0} together with every sample of
   * the window, the new one included.
   */
  lemma WindowEventIsExtrema(w: WindowState, value: real, notificationCount: int32, hasMaxSubscriber: bool)
    requires WindowInv(w)
    ensures WindowEvents(w, value, notificationCount, hasMaxSubscriber) ==
      (if Reached(w, notificationCount) && hasMaxSubscriber then [AmplitudeEvent(w.samples + [value])] else [])
  {
    ExtremaSnoc(w.samples, value);
  }

  /** The running extrema never cross 0, and they bracket every sample of the open window. */
  lemma WindowBounds(w: WindowState)
    requires WindowInv(w)
    ensures w.minValue <= 0.0 <= w.maxValue
    ensures forall i :: 0 <= i < |w.samples| ==> w.minValue <= w.samples[i] <= w.maxValue
  {
    MaxWith0IsMaximum(w.samples);
    MinWith0IsMinimum(w.samples);
  }

  // The spectral block accumulator (SampleAggregator.cs, lines 47-59).

  /**
   * A sample as the spectral buffer stores it: its real part scaled by the
   * window weight, its imaginary part 0.
   */
  function Weighted(value: real, weight: real): Complex
  {
    Complex(value * weight, 0.0)
  }

  /** The write position `fftPos`, the buffer's contents, and the samples stored since the last transform. */
  datatype SpectralState = SpectralState(pos: int, buffer: seq<Complex>, block: seq<real>)

  /**
   * The position lies inside the buffer, and below it the buffer holds the
   * block, each sample scaled by the window weight at its index, imaginary part 0.
   */
  predicate SpectralInv(s: SpectralState, weights: seq<real>)
  {
    |s.buffer| == |weights| && 0 <= s.pos < |s.buffer| && |s.block| == s.pos &&
    forall i :: 0 <= i < s.pos ==> s.buffer[i] == Weighted(s.block[i], weights[i])
  }

  /**
   * The buffer contents a block of samples produces: each sample weighted by
   * the window weight at its index, imaginary part 0.
   */
  function Windowed(block: seq<real>, weights: seq<real>): (r: seq<Complex>)
    requires |block| <= |weights|
    ensures |r| == |block|
    ensures forall i :: 0 <= i < |block| ==> r[i] == Weighted(block[i], weights[i])
  {
    if block == [] then []
    else Windowed(block[..|block| - 1], weights) + [Weighted(block[|block| - 1], weights[|block| - 1])]
  }

  /**
   * The spectral half of `Add` when it is `enabled` (FFT on and somebody
   * listening): write the weighted sample at the position and advance it; when
   * it reaches the end, wrap it to 0 and transform the buffer in place.
   */
  function SpectralStep(s: SpectralState, value: real, enabled: bool, weights: seq<real>,
                        fft: (bool, int, seq<Complex>) -> seq<Complex>, m: int): (r: SpectralState)
    requires 0 <= s.pos < |s.buffer| <= |weights|
    ensures !enabled ==> r == s
    ensures enabled ==> (r.pos == 0 <==> s.pos == |s.buffer| - 1)
    ensures enabled && r.pos != 0 ==> r.pos == s.pos + 1
    ensures 0 <= r.pos < |s.buffer|
  {
    if !enabled then s
    else
      var buffer := s.buffer[s.pos := Weighted(value, weights[s.pos])];
      if s.pos + 1 >= |buffer| then SpectralState(0, fft(true, m, buffer), [])
      else SpectralState(s.pos + 1, buffer, s.block + [value])
  }

  /** The spectrum event the spectral half of `Add` raises when the position wraps: the transformed buffer. */
  function SpectralEvents(s: SpectralState, value: real, enabled: bool, weights: seq<real>,
                          fft: (bool, int, seq<Complex>) -> seq<Complex>, m: int): (es: seq<Event>)
    requires 0 <= s.pos < |s.buffer| <= |weights|
    ensures |es| <= 1
    ensures es != [] <==> enabled && s.pos == |s.buffer| - 1
    ensures forall e :: e in es ==> e.FftCalculated?
  {
    if enabled && s.pos + 1 >= |s.buffer| then [FftCalculated(SpectralStep(s, value, enabled, weights, fft, m).buffer)]
    else []
  }

  /** The step keeps the position inside the buffer, the length of the buffer, and what it holds. */
  lemma SpectralStepKeepsInv(s: SpectralState, value: real, enabled: bool, weights: seq<real>,
                             fft: (bool, int, seq<Complex>) -> seq<Complex>, m: int)
    requires SpectralInv(s, weights) && KeepsLength(fft)
    ensures SpectralInv(SpectralStep(s, value, enabled, weights, fft, m), weights)
  {
    var r := SpectralStep(s, value, enabled, weights, fft, m);
    if enabled && s.pos + 1 < |s.buffer| {
      assert forall i :: 0 <= i < r.pos ==> r.buffer[i] == Weighted(r.block[i], weights[i]) by {
        forall i | 0 <= i < r.pos
          ensures r.buffer[i] == Weighted(r.block[i], weights[i])
        {
          if i < s.pos {
            assert r.block[i] == s.block[i];
          }
        }
      }
    }
  }

  /** Switched off, or with nobody listening, the step changes nothing and raises nothing. */
  lemma SpectralStepDisabled(s: SpectralState, value: real, weights: seq<real>,
                             fft: (bool, int, seq<Complex>) -> seq<Complex>, m: int)
    requires 0 <= s.pos < |s.buffer| <= |weights|
    ensures SpectralStep(s, value, false, weights, fft, m) == s
    ensures SpectralEvents(s, value, false, weights, fft, m) == []
  {
  }

  /**
   * Within a block, the step writes the weighted sample with imaginary part 0
   * at the position and nowhere else, advances the position and raises nothing.
   */
  lemma SpectralStepWithinBlock(s: SpectralState, value: real, weights: seq<real>,
                                fft: (bool, int, seq<Complex>) -> seq<Complex>, m: int)
    requires SpectralInv(s, weights) && s.pos + 1 < |s.buffer|
    ensures var r := SpectralStep(s, value, true, weights, fft, m);
      r.pos == s.pos + 1 && |r.buffer| == |s.buffer| && r.block == s.block + [value] &&
      r.buffer[s.pos] == Weighted(value, weights[s.pos]) &&
      (forall i :: 0 <= i < |s.buffer| && i != s.pos ==> r.buffer[i] == s.buffer[i])
    ensures SpectralEvents(s, value, true, weights, fft, m) == []
  {
  }

  /**
   * The sample that fills the buffer completes the block: the position wraps
   * to 0 and the buffer, and the one event raised, hold the transform of the
   * whole windowed block.
   */
  lemma SpectralStepCompletesBlock(s: SpectralState, value: real, weights: seq<real>,
                                   fft: (bool, int, seq<Complex>) -> seq<Complex>, m: int)
    requires SpectralInv(s, weights) && s.pos + 1 == |s.buffer|
    ensures var r := SpectralStep(s, value, true, weights, fft, m);
      r.pos == 0 && r.block == [] && r.buffer == fft(true, m, Windowed(s.block + [value], weights)) &&
      SpectralEvents(s, value, true, weights, fft, m) == [FftCalculated(r.buffer)]
  {
    var filled := s.buffer[s.pos := Weighted(value, weights[s.pos])];
    var windowed := Windowed(s.block + [value], weights);
    assert filled == windowed by {
      assert forall i :: 0 <= i < |filled| ==> filled[i] == windowed[i] by {
        forall i | 0 <= i < |filled|
          ensures filled[i] == windowed[i]
        {
          if i < s.pos {
            assert (s.block + [value])[i] == s.block[i];
          }
        }
      }
    }
    assert SpectralStep(s, value, true, weights, fft, m).buffer == fft(true, m, filled);
  }

  /** A log of one event counts one spectrum event if it is one. */
  lemma SpectrumCountSingle(e: Event)
    ensures SpectrumCount([e]) == if e.FftCalculated? then 1 else 0
  {
    assert [e][..0] == [];
  }

  /**
   * One spectrum event per full buffer: if `fed` samples have taken the
   * spectral path and `spectra` events have been raised, with the position
   * holding the rest, then the same holds after the step.
   */
  lemma SpectralStepCadence(s: SpectralState, value: real, enabled: bool, weights: seq<real>,
                            fft: (bool, int, seq<Complex>) -> seq<Complex>, m: int, fed: nat, spectra: nat)
    requires SpectralInv(s, weights) && |s.buffer| == 1024
    requires fed == spectra * 1024 + s.pos
    ensures var r := SpectralStep(s, value, enabled, weights, fft, m);
      fed + (if enabled then 1 else 0) ==
      (spectra + SpectrumCount(SpectralEvents(s, value, enabled, weights, fft, m))) * 1024 + r.pos
  {
    if enabled && s.pos + 1 == |s.buffer| {
      SpectrumCountSingle(SpectralEvents(s, value, enabled, weights, fft, m)[0]);
    }
  }

  /** The amplitude half of `Add` raises no spectrum event. */
  lemma WindowEventsNoSpectrum(w: WindowState, value: real, notificationCount: int32, hasMaxSubscriber: bool)
    ensures SpectrumCount(WindowEvents(w, value, notificationCount, hasMaxSubscriber)) == 0
  {
    if Reached(w, notificationCount) && hasMaxSubscriber {
      SpectrumCountSingle(WindowEvents(w, value, notificationCount, hasMaxSubscriber)[0]);
    }
  }

  /**
   * Both accumulators summarize what they were fed, and the log holds one
   * spectrum event per full buffer of the `fed` samples that took the spectral
   * path, with the write position holding the rest.
   */
  ghost predicate Consistent(s: SpectralState, w: WindowState, log: seq<Event>, fed: int, weights: seq<real>)
  {
    SpectralInv(s, weights) && WindowInv(w) && fed == SpectrumCount(log) * 1024 + s.pos
  }

  /** The spectral half of `Add` keeps the accumulators consistent with the log. */
  lemma SpectralHalfKeepsConsistent(s: SpectralState, w: WindowState, value: real, enabled: bool, weights: seq<real>,
                                    fft: (bool, int, seq<Complex>) -> seq<Complex>, m: int, fed: nat, log: seq<Event>)
    requires Consistent(s, w, log, fed, weights) && |s.buffer| == 1024 && KeepsLength(fft)
    ensures Consistent(SpectralStep(s, value, enabled, weights, fft, m), w,
                       log + SpectralEvents(s, value, enabled, weights, fft, m),
                       fed + (if enabled then 1 else 0), weights)
  {
    SpectralStepKeepsInv(s, value, enabled, weights, fft, m);
    SpectrumCountAppend(log, SpectralEvents(s, value, enabled, weights, fft, m));
    SpectralStepCadence(s, value, enabled, weights, fft, m, fed, SpectrumCount(log));
  }

  /** The amplitude half of `Add` keeps the accumulators consistent with the log. */
  lemma WindowHalfKeepsConsistent(s: SpectralState, w: WindowState, value: real, notificationCount: int32,
                                  hasMaxSubscriber: bool, weights: seq<real>, fed: nat, log: seq<Event>)
    requires Consistent(s, w, log, fed, weights)
    ensures Consistent(s, WindowStep(w, value, notificationCount),
                       log + WindowEvents(w, value, notificationCount, hasMaxSubscriber), fed, weights)
  {
    WindowStepKeepsInv(w, value, notificationCount);
    WindowEventsNoSpectrum(w, value, notificationCount, hasMaxSubscriber);
    SpectrumCountAppend(log, WindowEvents(w, value, notificationCount, hasMaxSubscriber));
  }

  /** One sample through both accumulators, spectral half first, keeps them consistent with the log. */
  lemma StepKeepsInvariants(s: SpectralState, w: WindowState, value: real, enabled: bool,
                            notificationCount: int32, hasMaxSubscriber: bool, weights: seq<real>,
                            fft: (bool, int, seq<Complex>) -> seq<Complex>, m: int, fed: nat, log: seq<Event>)
    requires Consistent(s, w, log, fed, weights) && |s.buffer| == 1024 && KeepsLength(fft)
    ensures Consistent(SpectralStep(s, value, enabled, weights, fft, m), WindowStep(w, value, notificationCount),
                       log + SpectralEvents(s, value, enabled, weights, fft, m) +
                       WindowEvents(w, value, notificationCount, hasMaxSubscriber),
                       fed + (if enabled then 1 else 0), weights)
  {
    var s' := SpectralStep(s, value, enabled, weights, fft, m);
    var log' := log + SpectralEvents(s, value, enabled, weights, fft, m);
    SpectralHalfKeepsConsistent(s, w, value, enabled, weights, fft, m, fed, log);
    WindowHalfKeepsConsistent(s', w, value, notificationCount, hasMaxSubscriber, weights,
                              fed + (if enabled then 1 else 0), log');
  }

  /** `StepKeepsInvariants` for a state already known to be the stepped one. */
  lemma SteppedIsConsistent(s: SpectralState, w: WindowState, value: real, enabled: bool,
                            notificationCount: int32, hasMaxSubscriber: bool, weights: seq<real>,
                            fft: (bool, int, seq<Complex>) -> seq<Complex>, m: int, fed: nat, log: seq<Event>,
                            s': SpectralState, w': WindowState, log': seq<Event>, fed': int)
    requires Consistent(s, w, log, fed, weights) && |s.buffer| == 1024 && KeepsLength(fft)
    requires s' == SpectralStep(s, value, enabled, weights, fft, m) && w' == WindowStep(w, value, notificationCount)
    requires log' == log + SpectralEvents(s, value, enabled, weights, fft, m) +
                     WindowEvents(w, value, notificationCount, hasMaxSubscriber)
    requires fed' == fed + (if enabled then 1 else 0)
    ensures Consistent(s', w', log', fed', weights)
  {
    StepKeepsInvariants(s, w, value, enabled, notificationCount, hasMaxSubscriber, weights, fft, m, fed, log);
  }

  /** The private `IsPowerOfTwo(x)`: `(x & (x - 1)) == 0` on the bits of a C# `int`. */
  predicate IsPowerOfTwo(x: bv32)
    ensures IsPowerOfTwo(x) <==> x & (0 - x) == x
  {
    x & (x - 1) == 0
  }

  /** The pattern with only bit `k` set. */
  function Bit(k: bv32): bv32
    requires k < 32
  {
    1 << k
  }

  /** Exactly one bit is set. */
  ghost predicate IsSingleBit(x: bv32)
  {
    exists k: bv32 :: k < 32 && x == Bit(k)
  }

  lemma {:induction false} LowestSetBit(x: bv32, k: bv32)
    requires IsPowerOfTwo(x) && x != 0
    requires k < 32 && x & (Bit(k) - 1) == 0
    ensures IsSingleBit(x)
    decreases 32 - k
  {
    if x & Bit(k) != 0 {
      assert x == Bit(k);
    } else {
      assert k < 31;
      LowestSetBit(x, k + 1);
    }
  }

  /**
   * The check holds exactly of 0 and of the patterns with a single bit set.
   * Read as unsigned numbers these are 0 and 2^0 .. 2^31 (`BitValue`,
   * `AcceptedValue`); bit 31 alone is the pattern of `int.MinValue`
   * (`MinValuePassesCheck`).
   */
  lemma IsPowerOfTwoIff(x: bv32)
    ensures IsPowerOfTwo(x) <==> x == 0 || IsSingleBit(x)
  {
    if IsPowerOfTwo(x) && x != 0 {
      LowestSetBit(x, 0);
    }
    if IsSingleBit(x) {
      var k :| k < 32 && x == Bit(k);
      assert x & (x - 1) == 0;
    }
  }

  /** Doubling a pattern whose top bit is clear doubles its unsigned value. */
  lemma DoubleBits(b: bv32)
    requires b < 0x8000_0000
    ensures (b << 1) as int == 2 * (b as int)
  {
  }

  /** Read as an unsigned number, the pattern with only bit `k` set is 2^k, and the check accepts it. */
  lemma {:induction false} BitValue(k: bv32)
    requires k < 32
    ensures IsPowerOfTwo(Bit(k)) && Bit(k) as int == Pow2(k as int)
    decreases k
  {
    if k > 0 {
      BitValue(k - 1);
      var b := Bit(k - 1);
      assert Bit(k) == b << 1;
      DoubleBits(b);
      assert (k - 1) as int == k as int - 1;
    }
    IsPowerOfTwoIff(Bit(k));
  }

  /** Every nonzero pattern the check accepts is a single bit `k`, whose unsigned value is 2^k. */
  lemma AcceptedValue(x: bv32)
    requires IsPowerOfTwo(x) && x != 0
    ensures exists k: bv32 :: k < 32 && x == Bit(k) && x as int == Pow2(k as int)
  {
    IsPowerOfTwoIff(x);
    var k :| k < 32 && x == Bit(k);
    BitValue(k);
  }

  /**
   * The check passes on 0, the default that the constructor actually tests
   * before it sets the length. The hard-coded 1024 = 2^10, which is never
   * tested, would also pass.
   */
  lemma ConstructorCheckPasses()
    ensures IsPowerOfTwo(Bits(0))
    ensures IsPowerOfTwo(1024) && Bit(10) == 1024
  {
  }

  /** Consequently the check does not reject every negative length: `int.MinValue` passes. */
  lemma MinValuePassesCheck()
    ensures IsPowerOfTwo(Bits(MinValue)) && Bits(MinValue) == Bit(31)
  {
  }

  /**
   * The amplitude accumulator with `NotificationCount` 5 and a listener, fed
   * 0.1, -0.3, 0.7, -0.9, 0.2 from a reset window: the first four samples raise
   * nothing, the fifth raises the event (min -0.9, max 0.7) and resets the
   * window. These are the extrema of the samples themselves, because the
   * window holds samples on both sides of 0.
   */
  lemma AmplitudeExample()
    ensures var w1 := WindowStep(EmptyWindow, 0.1, 5);
      var w2 := WindowStep(w1, -0.3, 5);
      var w3 := WindowStep(w2, 0.7, 5);
      var w4 := WindowStep(w3, -0.9, 5);
      WindowEvents(EmptyWindow, 0.1, 5, true) == [] && WindowEvents(w1, -0.3, 5, true) == [] &&
      WindowEvents(w2, 0.7, 5, true) == [] && WindowEvents(w3, -0.9, 5, true) == [] &&
      WindowEvents(w4, 0.2, 5, true) == [MaximumCalculated(MaxSampleEventArgs(0.7, -0.9))] &&
      WindowStep(w4, 0.2, 5) == EmptyWindow
    ensures AmplitudeEvent([0.1, -0.3, 0.7, -0.9, 0.2]) == MaximumCalculated(MaxSampleEventArgs(0.7, -0.9))
  {
    var s := [0.1, -0.3, 0.7, -0.9, 0.2];
    ExtremaSnoc([], 0.1);
    ExtremaSnoc(s[..1], -0.3);
    ExtremaSnoc(s[..2], 0.7);
    ExtremaSnoc(s[..3], -0.9);
    ExtremaSnoc(s[..4], 0.2);
    assert [0.1] == s[..1] && s[..1] + [-0.3] == s[..2] && s[..2] + [0.7] == s[..3];
    assert s[..3] + [-0.9] == s[..4] && s[..4] + [0.2] == s;
  }

  class SampleAggregator {
    // volume
    var hasMaxSubscriber: bool          // MaximumCalculated != null
    var maxValue: real
    var minValue: real
    var NotificationCount: int32
    var count: int32

    // FFT
    var hasFftSubscriber: bool          // FftCalculated != null
    var PerformFFT: bool
    var fftBuffer: array<Complex>
    var fftArgs: FftEventArgs
    var fftPos: int
    var fftLength: int
    var m: int

    /** The weights `FastFourierTransform.HammingWindow(n, 1024)` of NAudio, for n = 0 .. 1023. */
    const hamming: seq<real>
    /** NAudio's `FastFourierTransform.FFT(forward, m, data)`, as a function of the data it overwrites. */
    const fft: (bool, int, seq<Complex>) -> seq<Complex>

    /** Every event raised so far, in order. */
    ghost var events: seq<Event>
    /** The samples added since the last reset of the amplitude window. */
    ghost var windowSamples: seq<real>
    /** The samples stored in the spectral buffer since the last transform. */
    ghost var block: seq<real>
    /** How many samples have taken the spectral path in all. */
    ghost var fftSamples: nat

    /** The amplitude window accumulator's state. */
    ghost function Window(): WindowState
      reads this`count, this`maxValue, this`minValue, this`windowSamples
    {
      WindowState(count, maxValue, minValue, windowSamples)
    }

    /** The spectral block accumulator's state. */
    ghost function Spectral(): SpectralState
      reads this`fftPos, this`fftBuffer, this`block, fftBuffer
    {
      SpectralState(fftPos, fftBuffer[..], block)
    }

    /** Whether the spectral path runs for a sample: FFT switched on and somebody listening. */
    predicate Enabled()
      reads this`PerformFFT, this`hasFftSubscriber
    {
      PerformFFT && hasFftSubscriber
    }

    /** What the constructor fixes: a 2^m-entry buffer, shared with the spectrum event's payload. */
    ghost predicate Fixed()
      reads this`fftLength, this`fftBuffer, this`m, this`fftArgs
    {
      fftLength == 1024 && fftBuffer.Length == fftLength && 0 <= m && Pow2(m) == fftLength &&
      fftArgs.Result == fftBuffer && |hamming| == fftLength && KeepsLength(fft)
    }

    ghost predicate Valid()
      reads this, fftBuffer
    {
      Fixed() && Consistent(Spectral(), Window(), events, fftSamples, hamming)
    }

    constructor (hammingWindow: seq<real>, transform: (bool, int, seq<Complex>) -> seq<Complex>)
      requires |hammingWindow| == 1024 && KeepsLength(transform)
      ensures Valid() && fresh(fftBuffer) && fresh(fftArgs)
      ensures hamming == hammingWindow && fft == transform && fftLength == 1024 && m == 10
      ensures Spectral() == SpectralState(0, seq(1024, _ => Complex(0.0, 0.0)), [])
      ensures Window() == EmptyWindow
      ensures NotificationCount == 0 && !PerformFFT && !hasFftSubscriber && !hasMaxSubscriber
      ensures events == [] && fftSamples == 0
    {
      // Fields start at their C# defaults, so the check below sees fftLength == 0.
      fftLength := 0;
      if !IsPowerOfTwo(Bits(0)) {
        // "FFT Length must be a power of two." is never thrown.
        assert false;
      }
      fftLength := 1024;
      m := 10;
      var buffer := new Complex[1024](_ => Complex(0.0, 0.0));
      fftBuffer := buffer;
      fftArgs := new FftEventArgs(buffer);
      hamming, fft := hammingWindow, transform;
      hasMaxSubscriber, hasFftSubscriber, PerformFFT := false, false, false;
      maxValue, minValue, NotificationCount, count := 0.0, 0.0, 0, 0;
      fftPos := 0;
      events, windowSamples, block, fftSamples := [], [], [], 0;
    }

    /** Clears the amplitude window; the spectral state and the configuration are untouched. */
    method Reset()
      modifies this`count, this`maxValue, this`minValue, this`windowSamples
      ensures Window() == EmptyWindow
      ensures old(Valid()) ==> Valid()
    {
      count := 0;
      maxValue, minValue := 0.0, 0.0;
      windowSamples := [];
    }

    /** The spectral half of `Add`: store the windowed sample; transform and publish a full buffer. */
    method AddToSpectrum(value: real)
      requires Fixed() && 0 <= fftPos < fftBuffer.Length
      modifies this`fftPos, this`block, this`fftSamples, this`events, fftBuffer
      ensures Spectral() == SpectralStep(old(Spectral()), value, Enabled(), hamming, fft, m)
      ensures events == old(events) + SpectralEvents(old(Spectral()), value, Enabled(), hamming, fft, m)
      ensures fftSamples == old(fftSamples) + (if Enabled() then 1 else 0)
    {
      if PerformFFT && hasFftSubscriber {
        fftBuffer[fftPos] := Weighted(value, hamming[fftPos]);
        ghost var filled := fftBuffer[..];
        assert filled == old(fftBuffer[..])[fftPos := Weighted(value, hamming[fftPos])];
        block := block + [value];
        fftPos := fftPos + 1;
        fftSamples := fftSamples + 1;
        if fftPos >= fftBuffer.Length {
          fftPos := 0;
          FFT(fft, true, m, fftBuffer);
          assert fftBuffer[..] == fft(true, m, filled);
          block := [];
          events := events + [FftCalculated(fftArgs.Result[..])];
        }
      }
    }

    /** The amplitude half of `Add`: fold the sample in; at the threshold, publish and reset. */
    method AddToWindow(value: real)
      modifies this`count, this`maxValue, this`minValue, this`windowSamples, this`events
      ensures Window() == WindowStep(old(Window()), value, NotificationCount)
      ensures events == old(events) + WindowEvents(old(Window()), value, NotificationCount, hasMaxSubscriber)
    {
      maxValue := Max(maxValue, value);
      minValue := Min(minValue, value);
      count := Increment(count);
      windowSamples := windowSamples + [value];
      if count >= NotificationCount && NotificationCount > 0 {
        if hasMaxSubscriber {
          events := events + [MaximumCalculated(NewMaxSampleEventArgs(minValue, maxValue))];
        }
        Reset();
      }
    }

    /** Feeds one sample to both accumulators, the spectral one first. */
    method Add(value: real)
      requires Valid()
      modifies this`fftPos, this`block, this`fftSamples, fftBuffer
      modifies this`count, this`maxValue, this`minValue, this`windowSamples, this`events
      ensures Valid()
      ensures Spectral() == SpectralStep(old(Spectral()), value, Enabled(), hamming, fft, m)
      ensures Window() == WindowStep(old(Window()), value, NotificationCount)
      ensures events == old(events) +
        SpectralEvents(old(Spectral()), value, Enabled(), hamming, fft, m) +
        WindowEvents(old(Window()), value, NotificationCount, hasMaxSubscriber)
      ensures fftSamples == old(fftSamples) + (if Enabled() then 1 else 0)
    {
      ghost var s, w, e, fed := Spectral(), Window(), events, fftSamples;
      AddToSpectrum(value);
      AddToWindow(value);
      SteppedIsConsistent(s, w, value, Enabled(), NotificationCount, hasMaxSubscriber, hamming, fft, m, fed, e,
                          Spectral(), Window(), events, fftSamples);
    }
  }
}
