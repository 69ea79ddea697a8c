/** `calculate_spectrum`: the magnitude of the discrete Fourier transform and the
    frequency of each bin, both cut to the first half. The transform itself is numpy's
    and enters the model as the parameter `magnitude`, standing for
    `abs(fft(data))`. */
module Spectrum {
  import opened Outcome

  /** numpy's `fftfreq(n, d)`: bin `k` holds `k / (n * d)` for `k <= (n - 1) / 2` and
      `(k - n) / (n * d)` after, so the negative frequencies come second. */
  function FftFreq(n: nat, d: real): (f: seq<real>)
    requires n > 0 && d > 0.0
    ensures |f| == n
  {
    seq(n, k requires 0 <= k < n =>
      (if k <= (n - 1) / 2 then k else k - n) as real * (1.0 / (n as real * d)))
  }

  /** With a positive spacing, bin `k` is non-negative exactly in the first `(n - 1) / 2 + 1` bins. */
  lemma FftFreqSign(n: nat, d: real, k: nat)
    requires n > 0 && d > 0.0 && k < n
    ensures FftFreq(n, d)[k] >= 0.0 <==> k <= (n - 1) / 2
  {
    var v := 1.0 / (n as real * d);
    assert v > 0.0;
    var f := FftFreq(n, d);
    if k > (n - 1) / 2 {
      assert f[k] == (k - n) as real * v;
      assert (k - n) as real < 0.0;
    }
  }

  /** With `d = 1 / fs`, a bin in the first half lies at `k * fs / n`. */
  lemma FftFreqFirstHalf(n: nat, samplerate: nat, k: nat)
    requires n > 0 && samplerate > 0 && k < n / 2
    ensures FftFreq(n, 1.0 / samplerate as real)[k] == k as real * samplerate as real / n as real
  {
    var fs, nr := samplerate as real, n as real;
    assert k <= (n - 1) / 2;
    assert nr * (1.0 / fs) == nr / fs;
    assert 1.0 / (nr / fs) == fs / nr;
  }

  /** The bins the truncation drops: for even `n` all of them are negative, from the
      Nyquist bin `-fs / 2` on; for odd `n` the first dropped bin is still positive. */
  lemma DroppedBins(n: nat, d: real)
    requires n > 0 && d > 0.0
    ensures n % 2 == 0 ==> forall k :: n / 2 <= k < n ==> FftFreq(n, d)[k] < 0.0
    ensures n % 2 == 1 && n > 1 ==> FftFreq(n, d)[n / 2] > 0.0
  {
    forall k | n / 2 <= k < n ensures n % 2 == 0 ==> FftFreq(n, d)[k] < 0.0 {
      FftFreqSign(n, d, k);
    }
    if n % 2 == 1 && n > 1 {
      var v := 1.0 / (n as real * d);
      assert v > 0.0;
      assert FftFreq(n, d)[n / 2] == (n / 2) as real * v;
    }
  }

  /** The two index-aligned arrays `calculate_spectrum` returns. */
  datatype HalfSpectrum = HalfSpectrum(freqs: seq<real>, magnitudes: seq<real>)

  /** `calculate_spectrum(data, samplerate)`. The transform of no samples is refused, and
      the bin spacing `1 / samplerate` divides by zero for a zero rate. */
  function CalculateSpectrum(data: seq<real>, samplerate: nat, magnitude: seq<real> -> seq<real>): (r: Result<HalfSpectrum>)
    requires |magnitude(data)| == |data|
    requires forall k :: 0 <= k < |data| ==> magnitude(data)[k] >= 0.0
    ensures |data| == 0 ==> r == Failure(EmptyTransform)
    ensures |data| > 0 && samplerate == 0 ==> r == Failure(DivisionByZero)
    ensures r.Success? <==> |data| > 0 && samplerate > 0
    ensures r.Success? ==>
      && |r.value.freqs| == |data| / 2
      && |r.value.magnitudes| == |data| / 2
      && (forall k :: 0 <= k < |data| / 2 ==>
            r.value.freqs[k] == k as real * samplerate as real / |data| as real)
      && (forall k :: 0 <= k < |data| / 2 ==>
            r.value.magnitudes[k] == magnitude(data)[k] && r.value.magnitudes[k] >= 0.0)
  {
    if |data| == 0 then Failure(EmptyTransform)
    else if samplerate == 0 then Failure(DivisionByZero)
    else
      var n := |data|;
      var spectrum := magnitude(data);
      var freqs := FftFreq(n, 1.0 / samplerate as real);
      assert forall k :: 0 <= k < n / 2 ==> freqs[k] == k as real * samplerate as real / n as real by {
        forall k | 0 <= k < n / 2
          ensures freqs[k] == k as real * samplerate as real / n as real
        {
          FftFreqFirstHalf(n, samplerate, k);
        }
      }
      Success(HalfSpectrum(freqs[..n / 2], spectrum[..n / 2]))
  }

  /** The kept bins start at 0 Hz, rise strictly and stay below the Nyquist frequency. */
  lemma HalfSpectrumBins(data: seq<real>, samplerate: nat, magnitude: seq<real> -> seq<real>)
    requires |magnitude(data)| == |data|
    requires forall k :: 0 <= k < |data| ==> magnitude(data)[k] >= 0.0
    requires |data| > 0 && samplerate > 0
    ensures var f := CalculateSpectrum(data, samplerate, magnitude).value.freqs;
      && (|f| > 0 ==> f[0] == 0.0)
      && (forall k :: 0 <= k < |f| ==> 0.0 <= f[k] < samplerate as real / 2.0)
      && (forall j, k :: 0 <= j < k < |f| ==> f[j] < f[k])
  {
    var f := CalculateSpectrum(data, samplerate, magnitude).value.freqs;
    BinLayout(f, |data|, samplerate as real);
  }

  /** Bins laid out at `k * fs / n` for `k < n / 2`, stated on the sequence alone. */
  lemma BinLayout(f: seq<real>, n: nat, fs: real)
    requires fs > 0.0 && |f| == n / 2
    requires forall k :: 0 <= k < |f| ==> f[k] == k as real * fs / n as real
    ensures |f| > 0 ==> f[0] == 0.0
    ensures forall k :: 0 <= k < |f| ==> 0.0 <= f[k] < fs / 2.0
    ensures forall j, k :: 0 <= j < k < |f| ==> f[j] < f[k]
  {
    forall k | 0 <= k < |f| ensures 0.0 <= f[k] < fs / 2.0 {
      BinBelowNyquist(k, n, fs);
    }
    forall j, k | 0 <= j < k < |f| ensures f[j] < f[k] {
      BinsIncrease(j, k, n as real, fs);
    }
  }

  lemma BinBelowNyquist(k: nat, n: nat, fs: real)
    requires fs > 0.0 && k < n / 2
    ensures 0.0 <= k as real * fs / n as real < fs / 2.0
  {
    var nr := n as real;
    assert 2 * k < n;
    assert 2.0 * k as real < nr;
    assert k as real * fs / nr == (k as real / nr) * fs;
    assert k as real / nr < 0.5 by {
      assert (k as real / nr) * nr == k as real;
    }
  }

  lemma BinsIncrease(j: nat, k: nat, nr: real, fs: real)
    requires j < k && nr > 0.0 && fs > 0.0
    ensures j as real * fs / nr < k as real * fs / nr
  {
    assert k as real * fs / nr - j as real * fs / nr == (k - j) as real * fs / nr;
    assert (k - j) as real * fs > 0.0;
  }
}
