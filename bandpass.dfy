/** `filter`: the band edges are normalised by the Nyquist frequency and handed to a
    Butterworth band-pass design, whose coefficients drive a zero-phase filter. The
    design and the filtering are scipy's and enter the model as the parameter
    `zeroPhase`; the checks scipy makes on its inputs are modelled. */
module Bandpass {
  import opened Outcome

  /** The order `filter` uses when its caller gives none. */
  const DefaultOrder: nat := 4

  /** Band edges as fractions of the Nyquist frequency `0.5 * fs`. */
  function NormalisedBand(lowcut: real, highcut: real, fs: nat): (r: Result<(real, real)>)
    ensures r.Failure? <==> fs == 0
    ensures r.Failure? ==> r.error == DivisionByZero
    ensures r.Success? ==>
      var (low, high) := r.value;
      var nyquist := fs as real / 2.0;
      && low * nyquist == lowcut && high * nyquist == highcut
      && (low < high <==> lowcut < highcut)
      && (0.0 < low <==> 0.0 < lowcut)
      && (high < 1.0 <==> highcut < nyquist)
  {
    if fs == 0 then Failure(DivisionByZero)
    else
      var nyquist := 0.5 * fs as real;
      NormaliseScales(lowcut, highcut, nyquist);
      Success((lowcut / nyquist, highcut / nyquist))
  }

  /** Division by a positive Nyquist frequency is undone by multiplying and keeps order. */
  lemma NormaliseScales(lowcut: real, highcut: real, nyquist: real)
    requires nyquist > 0.0
    ensures (lowcut / nyquist) * nyquist == lowcut && (highcut / nyquist) * nyquist == highcut
    ensures lowcut / nyquist < highcut / nyquist <==> lowcut < highcut
    ensures 0.0 < lowcut / nyquist <==> 0.0 < lowcut
    ensures highcut / nyquist < 1.0 <==> highcut < nyquist
  {
    assert highcut / nyquist - lowcut / nyquist == (highcut - lowcut) / nyquist;
    QuotientSign(highcut - lowcut, nyquist);
    QuotientSign(lowcut, nyquist);
    assert nyquist / nyquist == 1.0;
    assert nyquist / nyquist - highcut / nyquist == (nyquist - highcut) / nyquist;
    QuotientSign(nyquist - highcut, nyquist);
  }

  lemma QuotientSign(x: real, d: real)
    requires d > 0.0
    ensures 0.0 < x / d <==> 0.0 < x
  {
    assert (x / d) * d == x;
  }

  /** The Butterworth design accepts a band only when 0 < low < high < 1. */
  predicate CriticalFrequenciesValid(low: real, high: real) {
    0.0 < low < high < 1.0
  }

  /** An order-`order` band-pass design has `2 * order + 1` coefficients on each side;
      zero-phase filtering pads by three times that and needs a strictly longer input. */
  function PadLength(order: nat): (p: nat)
    ensures p > 6 * order
  {
    3 * (2 * order + 1)
  }

  /** `filter(data, lowcut, highcut, fs, order)`. The normalisation divides by zero for a
      zero rate; the design rejects edges outside (0, 1) or out of order; the zero-phase
      pass rejects inputs no longer than its padding. `zeroPhase(order, low, high, data)`
      stands for designing the filter from the normalised edges and running it. */
  function Filter(data: seq<real>, lowcut: real, highcut: real, fs: nat, order: nat,
                  zeroPhase: (nat, real, real, seq<real>) -> seq<real>): (r: Result<seq<real>>)
    ensures fs == 0 ==> r == Failure(DivisionByZero)
    ensures fs > 0 && !(0.0 < lowcut < highcut < fs as real / 2.0) ==>
      r == Failure(CriticalFrequencyOutOfRange)
    ensures fs > 0 && 0.0 < lowcut < highcut < fs as real / 2.0 && |data| <= PadLength(order) ==>
      r == Failure(SignalTooShort)
    ensures r.Success? <==> fs > 0 && 0.0 < lowcut < highcut < fs as real / 2.0 && |data| > PadLength(order)
    ensures r.Success? ==>
      r.value == zeroPhase(order, 2.0 * lowcut / fs as real, 2.0 * highcut / fs as real, data)
  {
    match NormalisedBand(lowcut, highcut, fs)
    case Failure(e) => Failure(e)
    case Success((low, high)) =>
      if !CriticalFrequenciesValid(low, high) then Failure(CriticalFrequencyOutOfRange)
      else if |data| <= PadLength(order) then Failure(SignalTooShort)
      else
        assert low == 2.0 * lowcut / fs as real && high == 2.0 * highcut / fs as real;
        Success(zeroPhase(order, low, high, data))
  }

  /** A band passes the design exactly when it lies strictly inside (0, fs / 2). */
  lemma BandAcceptedIffBelowNyquist(lowcut: real, highcut: real, fs: nat)
    requires fs > 0
    ensures NormalisedBand(lowcut, highcut, fs).Success?
    ensures var (low, high) := NormalisedBand(lowcut, highcut, fs).value;
      CriticalFrequenciesValid(low, high) <==> 0.0 < lowcut < highcut < fs as real / 2.0
  {
  }
}
