/**
 * The two NAudio.Dsp facilities the aggregator calls: the `Complex` sample
 * record and the in-place fast Fourier transform. The numerical content of
 * the transform is foreign code; it enters the model as a function value
 * supplied by the caller. (The Hamming window weights are not part of this
 * module: they are a 1024-entry table given to `SampleAggregator`'s
 * constructor.)
 */
module Dsp {

  /** NAudio's `Complex` struct: real part `X`, imaginary part `Y`. */
  datatype Complex = Complex(X: real, Y: real)

  function Pow2(k: nat): nat
  {
    if k == 0 then 1 else 2 * Pow2(k - 1)
  }

  /** A transform of type `fft(forward, m, data)` that returns as many values as it is given. */
  ghost predicate KeepsLength(fft: (bool, int, seq<Complex>) -> seq<Complex>)
  {
    forall forward, m, data :: |fft(forward, m, data)| == |data|
  }

  /**
   * `FastFourierTransform.FFT(forward, m, data)`: transforms the first 2^m
   * entries of `data` in place. It touches nothing but `data`, and afterwards
   * `data` holds the transform of what it held before.
   */
  method FFT(fft: (bool, int, seq<Complex>) -> seq<Complex>, forward: bool, m: nat, data: array<Complex>)
    requires KeepsLength(fft)
    requires data.Length == Pow2(m)
    modifies data
    ensures data[..] == fft(forward, m, old(data[..]))
  {
    var result := fft(forward, m, data[..]);
    forall i | 0 <= i < data.Length {
      data[i] := result[i];
    }
  }
}
