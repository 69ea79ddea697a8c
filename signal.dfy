/** `process_file`: the WAV data read from the converted path is reduced to one mono
    channel, and a time axis with one point per sample is laid beside it. */
module Signal {
  import opened Outcome
  import Paths

  /** Samples of a 16-bit PCM file, as scipy's WAV reader returns them. */
  type Int16 = x: int | -0x8000 <= x < 0x8000

  const Int16Modulus: int := 0x1_0000

  /** The array the WAV reader returns: one dimension for a mono file, two (frames by
      channels) otherwise. */
  datatype WavData =
    | Mono(samples: seq<Int16>)
    | Frames(frames: seq<seq<Int16>>, channels: nat)

  /** A two-dimensional array has the same number of columns in every row. */
  predicate Rectangular(d: WavData) {
    d.Frames? ==> forall i :: 0 <= i < |d.frames| ==> |d.frames[i]| == d.channels
  }

  /** The downmix of `process_file`: mono data passes through; otherwise each frame
      becomes the mean of its columns 0 and 1, and selecting column 1 fails when the
      array has fewer than two columns. The sum is exact here; see DownmixWrapped for
      the 16-bit sum the array arithmetic actually performs. */
  function Downmix(d: WavData): (r: Result<seq<real>>)
    requires Rectangular(d)
    ensures r.Failure? <==> d.Frames? && d.channels < 2
    ensures r.Failure? ==> r.error == MissingChannel
    ensures d.Mono? ==>
      && |r.value| == |d.samples|
      && forall i :: 0 <= i < |d.samples| ==> r.value[i] == d.samples[i] as real
    ensures d.Frames? && r.Success? ==>
      && |r.value| == |d.frames|
      && forall i :: 0 <= i < |d.frames| ==> r.value[i] == (d.frames[i][0] as int + d.frames[i][1] as int) as real / 2.0
  {
    match d
    case Mono(s) => Success(seq(|s|, i requires 0 <= i < |s| => s[i] as real))
    case Frames(f, c) =>
      if c < 2 then Failure(MissingChannel)
      else Success(seq(|f|, i requires 0 <= i < |f| && |f[i]| == c => (f[i][0] as int + f[i][1] as int) as real / 2.0))
  }

  /** Columns after the second have no influence on the downmix. */
  lemma DownmixIgnoresExtraChannels(a: seq<seq<Int16>>, ca: nat, b: seq<seq<Int16>>, cb: nat)
    requires Rectangular(Frames(a, ca)) && Rectangular(Frames(b, cb))
    requires ca >= 2 && cb >= 2 && |a| == |b|
    requires forall i :: 0 <= i < |a| ==> a[i][..2] == b[i][..2]
    ensures Downmix(Frames(a, ca)) == Downmix(Frames(b, cb))
  {
    var ra, rb := Downmix(Frames(a, ca)).value, Downmix(Frames(b, cb)).value;
    forall i | 0 <= i < |a| ensures ra[i] == rb[i] {
      assert a[i][0] == a[i][..2][0] && a[i][1] == a[i][..2][1];
      assert b[i][0] == b[i][..2][0] && b[i][1] == b[i][..2][1];
    }
    assert ra == rb;
  }

  /** Swapping the two channels does not change the downmix. */
  lemma DownmixSymmetric(a: seq<seq<Int16>>, b: seq<seq<Int16>>)
    requires Rectangular(Frames(a, 2)) && Rectangular(Frames(b, 2)) && |a| == |b|
    requires forall i :: 0 <= i < |a| ==> b[i] == [a[i][1], a[i][0]]
    ensures Downmix(Frames(a, 2)) == Downmix(Frames(b, 2))
  {
    var ra, rb := Downmix(Frames(a, 2)).value, Downmix(Frames(b, 2)).value;
    forall i | 0 <= i < |a| ensures ra[i] == rb[i] {
      assert b[i][0] == a[i][1] && b[i][1] == a[i][0];
    }
    assert ra == rb;
  }

  /** Each downmixed sample lies between its two channel values, so it stays in the
      16-bit range. */
  lemma DownmixBetweenChannels(d: WavData, i: int)
    requires Rectangular(d) && d.Frames? && d.channels >= 2
    requires 0 <= i < |d.frames|
    ensures var r := Downmix(d).value[i];
      var l, m := d.frames[i][0] as real, d.frames[i][1] as real;
      (l <= r <= m || m <= r <= l) && -32768.0 <= r <= 32767.0
  {
  }

  /** Left [1, 3] and right [3, 1] mix down to [2, 2]. */
  lemma DownmixExample()
    ensures Downmix(Frames([[1, 3], [3, 1]], 2)) == Success([2.0, 2.0])
  {
    var r := Downmix(Frames([[1, 3], [3, 1]], 2)).value;
    assert |r| == 2 && r[0] == 2.0 && r[1] == 2.0;
    assert r == [2.0, 2.0];
  }

  /** Two's-complement wrap-around of a 16-bit integer sum. */
  function Wrap16(x: int): (r: Int16)
    ensures (r - x) % Int16Modulus == 0
    ensures -0x8000 <= x < 0x8000 ==> r == x
  {
    (x + 0x8000) % Int16Modulus - 0x8000
  }

  /** The downmix exactly as the array code computes it: the two int16 columns are added
      in 16 bits, wrapping around, before the division by 2. */
  function DownmixWrapped(d: WavData): (r: Result<seq<real>>)
    requires Rectangular(d)
    ensures r.Failure? <==> d.Frames? && d.channels < 2
    ensures d.Frames? && r.Success? ==>
      && |r.value| == |d.frames|
      && forall i :: 0 <= i < |d.frames| ==> r.value[i] == Wrap16(d.frames[i][0] as int + d.frames[i][1] as int) as real / 2.0
  {
    match d
    case Mono(s) => Success(seq(|s|, i requires 0 <= i < |s| => s[i] as real))
    case Frames(f, c) =>
      if c < 2 then Failure(MissingChannel)
      else Success(seq(|f|, i requires 0 <= i < |f| && |f[i]| == c => Wrap16(f[i][0] as int + f[i][1] as int) as real / 2.0))
  }

  /** While no frame's sum leaves the 16-bit range the wrapped downmix is the mean. */
  lemma WrappedAgreesWithoutOverflow(d: WavData)
    requires Rectangular(d)
    requires d.Frames? && d.channels >= 2 ==>
      forall i :: 0 <= i < |d.frames| ==> -0x8000 <= d.frames[i][0] as int + d.frames[i][1] as int < 0x8000
    ensures DownmixWrapped(d) == Downmix(d)
  {
    if d.Frames? && d.channels >= 2 {
      var w, m := DownmixWrapped(d).value, Downmix(d).value;
      forall i | 0 <= i < |d.frames| ensures w[i] == m[i] { }
      assert w == m;
    }
  }

  /** Two loud channels overflow: both at 30000 mix down to -2768 instead of 30000. */
  lemma WrappedOverflowExample()
    ensures DownmixWrapped(Frames([[30000, 30000]], 2)) == Success([-2768.0])
    ensures Downmix(Frames([[30000, 30000]], 2)) == Success([30000.0])
  {
    assert Wrap16(60000) == -5536;
    var w := DownmixWrapped(Frames([[30000, 30000]], 2)).value;
    assert |w| == 1 && w[0] == -2768.0;
    assert w == [-2768.0];
    var m := Downmix(Frames([[30000, 30000]], 2)).value;
    assert |m| == 1 && m[0] == 30000.0;
    assert m == [30000.0];
  }

  /** numpy's `linspace(start, stop, num, endpoint=False)`: `num` points spaced by
      `(stop - start) / num`, the first at `start`. */
  function LinspaceOpen(start: real, stop: real, num: nat): (r: seq<real>)
    ensures |r| == num
  {
    seq(num, i requires 0 <= i < num => start + i as real * ((stop - start) / num as real))
  }

  /** The time axis of `process_file`: `linspace(0, n / fs, n, endpoint=False)`, so entry
      `i` is `i / fs` seconds and the duration `n / fs` itself is not included. */
  function TimeAxis(n: nat, samplerate: nat): (t: seq<real>)
    requires samplerate > 0
    ensures |t| == n
    ensures forall i :: 0 <= i < n ==> t[i] == i as real / samplerate as real
  {
    var t := LinspaceOpen(0.0, n as real / samplerate as real, n);
    forall i | 0 <= i < n ensures t[i] == i as real / samplerate as real {
      StepIsPeriod(n, samplerate, i);
    }
    t
  }

  /** Splitting `n / fs` into `n` steps gives steps of one sample period. */
  lemma StepIsPeriod(n: nat, samplerate: nat, i: nat)
    requires samplerate > 0 && i < n
    ensures i as real * ((n as real / samplerate as real - 0.0) / n as real) == i as real / samplerate as real
  {
    var fs, nr := samplerate as real, n as real;
    assert (nr / fs) / nr == 1.0 / fs;
  }

  /** The axis starts at 0, ends one period before the duration, increases strictly and
      never reaches the duration. */
  lemma TimeAxisBounds(n: nat, samplerate: nat)
    requires samplerate > 0
    ensures var t := TimeAxis(n, samplerate);
      && (n > 0 ==> t[0] == 0.0 && t[n - 1] == (n - 1) as real / samplerate as real)
      && (forall i :: 0 <= i < n ==> 0.0 <= t[i] < n as real / samplerate as real)
      && (forall i, j :: 0 <= i < j < n ==> t[i] < t[j])
  {
    var t := TimeAxis(n, samplerate);
    var fs := samplerate as real;
    forall i | 0 <= i < n ensures 0.0 <= t[i] < n as real / fs {
      DivMonotone(i as real, n as real, fs);
    }
    forall i, j | 0 <= i < j < n ensures t[i] < t[j] {
      DivMonotone(i as real, j as real, fs);
    }
  }

  lemma DivMonotone(x: real, y: real, d: real)
    requires 0.0 <= x < y && d > 0.0
    ensures 0.0 <= x / d < y / d
  {
    assert y / d - x / d == (y - x) / d;
  }

  /** What `process_file` returns. */
  datatype Loaded = Loaded(samplerate: nat, data: seq<real>, time: seq<real>)

  /** `process_file`: the file at the converted path is read with `wavRead` (the WAV
      reader), mixed down, and given its time axis. The time axis divides by the sample
      rate, so a rate of zero fails. */
  function ProcessFile(filename: string, wavRead: string -> (nat, WavData)): (r: Result<Loaded>)
    requires Rectangular(wavRead(Paths.ConvertToWav(filename)).1)
    ensures var (fs, d) := wavRead(Paths.ConvertToWav(filename));
      && (d.Frames? && d.channels < 2 ==> r == Failure(MissingChannel))
      && (!(d.Frames? && d.channels < 2) && fs == 0 ==> r == Failure(DivisionByZero))
      && (r.Success? <==> !(d.Frames? && d.channels < 2) && fs > 0)
    ensures r.Success? ==> var (fs, d) := wavRead(Paths.ConvertToWav(filename));
      && r.value.samplerate == fs
      && Downmix(d) == Success(r.value.data)
      && |r.value.time| == |r.value.data|
      && forall i :: 0 <= i < |r.value.time| ==> r.value.time[i] == i as real / fs as real
  {
    var (samplerate, raw) := wavRead(Paths.ConvertToWav(filename));
    match Downmix(raw)
    case Failure(e) => Failure(e)
    case Success(data) =>
      if samplerate == 0 then Failure(DivisionByZero)
      else Success(Loaded(samplerate, data, TimeAxis(|data|, samplerate)))
  }
}
