/** The band table the viewer offers: each named band is a (lowcut, highcut) pair in Hz
    that is passed to `filter`. A mode name that is not in the table fails the lookup. */
module Bands {
  import opened Outcome
  import Bandpass

  datatype Band = Low | Mid | High

  function Name(b: Band): string {
    match b
    case Low => "low"
    case Mid => "mid"
    case High => "high"
  }

  /** The (lowcut, highcut) pair of each band. */
  function Cutoffs(b: Band): (c: (real, real))
    ensures 0.0 < c.0 < c.1
  {
    match b
    case Low => (20.0, 200.0)
    case Mid => (200.0, 2000.0)
    case High => (2000.0, 20000.0)
  }

  /** The table lookup by mode name. */
  function Lookup(mode: string): (r: Result<(real, real)>)
    ensures r.Success? <==> exists b :: Name(b) == mode
    ensures forall b :: Name(b) == mode ==> r == Success(Cutoffs(b))
    ensures r.Failure? ==> r.error == UnknownMode
  {
    if mode == Name(Low) then Success(Cutoffs(Low))
    else if mode == Name(Mid) then Success(Cutoffs(Mid))
    else if mode == Name(High) then Success(Cutoffs(High))
    else
      assert forall b :: Name(b) != mode;
      Failure(UnknownMode)
  }

  /** The bands tile 20 Hz to 20 kHz without gaps: each one starts where the last ended. */
  lemma BandsAdjacent()
    ensures Cutoffs(Low).0 == 20.0 && Cutoffs(High).1 == 20000.0
    ensures Cutoffs(Low).1 == Cutoffs(Mid).0 && Cutoffs(Mid).1 == Cutoffs(High).0
  {
  }

  /** A band passes the filter design exactly when the sample rate exceeds twice its
      upper edge. */
  lemma BandAccepted(b: Band, fs: nat)
    requires fs > 0
    ensures var (low, high) := Bandpass.NormalisedBand(Cutoffs(b).0, Cutoffs(b).1, fs).value;
      Bandpass.CriticalFrequenciesValid(low, high) <==> fs as real > 2.0 * Cutoffs(b).1
  {
    Bandpass.BandAcceptedIffBelowNyquist(Cutoffs(b).0, Cutoffs(b).1, fs);
  }

  /** At 44.1 kHz every band is accepted; at 32 kHz the high band is not. */
  lemma BandsAtCommonRates()
    ensures forall b :: var (low, high) := Bandpass.NormalisedBand(Cutoffs(b).0, Cutoffs(b).1, 44100).value;
      Bandpass.CriticalFrequenciesValid(low, high)
    ensures var (low, high) := Bandpass.NormalisedBand(Cutoffs(High).0, Cutoffs(High).1, 32000).value;
      !Bandpass.CriticalFrequenciesValid(low, high)
  {
    forall b ensures var (low, high) := Bandpass.NormalisedBand(Cutoffs(b).0, Cutoffs(b).1, 44100).value;
      Bandpass.CriticalFrequenciesValid(low, high)
    {
      BandAccepted(b, 44100);
    }
    BandAccepted(High, 32000);
  }
}
