# PythonRT60 analysis core in Dafny

This project models the data-shaping core of a small audio viewer (`main.py`). The code
takes an audio path, rewrites an MP3 path to the path of its WAV copy, and reads the
samples. It mixes stereo frames down to one mono channel and builds the time axis of
the samples. It also normalises band edges by the Nyquist frequency before a
Butterworth band-pass filter, and cuts the FFT magnitude spectrum and its frequency
bins to their first half. The constant table of named bands the viewer passes to the
filter (`GUI.py`) is modelled too.

Each Python function becomes a pure Dafny function. The Python exceptions the code can
raise become `Failure` values of one `Result` type (`outcome.dfy`). The numeric
library calls the code delegates to become function parameters:
- reading a WAV file (`wavRead`);
- the FFT magnitude `abs(fft(data))` (`magnitude`);
- the Butterworth design followed by zero-phase filtering (`zeroPhase`).

The input checks those library calls make are part of the model:
- numpy's FFT refuses zero samples;
- scipy's design refuses edges outside (0, 1) or out of order;
- scipy's zero-phase filter refuses an input no longer than its padding of
  `3 * (2 * order + 1)` samples.

Arithmetic is exact (`real` and `int`). The one place where the array integer width
changes the result, the 16-bit sum of two channels, is modelled both ways (see
Findings).

Modules: `Outcome` (errors), `Paths` (`convert_to_wav`), `Signal` (`process_file`),
`Bandpass` (`filter`), `Spectrum` (`calculate_spectrum`), `Bands` (the band table).

The design description of the system differs from the code in three places. In each
one the model follows the code:
- More than two channels: the code averages columns 0 and 1 and ignores the rest; it
  does not reject such data.
- A 2-D array with fewer than two columns fails when column 1 is selected
  (`MissingChannel`).
- A sample rate of zero fails in the divisions by the rate (`DivisionByZero`). This
  happens in the time axis, in the Nyquist normalisation and in the FFT bin spacing.

## Model

| member | source | states |
|---|---|---|
| `Paths.Replace` | main.py:22 | Python's left-to-right `str.replace`; when the pattern and its replacement have equal length the result has the input's length |
| `Paths.ReplaceMp3At` | main.py:22 | at each index, a character inside an occurrence of ".mp3" at offset d becomes character d of ".wav", and a character outside every occurrence is kept |
| `Paths.ReplaceMp3Spec` | main.py:22 | the same pointwise statement for every index at once, so every occurrence is replaced, not only the suffix |
| `Paths.ReplaceMp3KeepsSuffix` | main.py:21-22 | a path ending in ".mp3" is rewritten to one ending in ".wav" |
| `Paths.ReplaceMp3LeavesNone` | main.py:22 | no ".mp3" is left anywhere in the rewritten path |
| `Paths.ConvertToWav` | main.py:19-25 | a path not ending in ".mp3" is returned unchanged; otherwise the result has the same length, ends in ".wav", differs from the input, contains no ".mp3", and keeps every character outside an occurrence |
| `Paths.ConvertRewritesInnerOccurrence` | main.py:21-22 | "a.mp3.d/x.mp3" becomes "a.wav.d/x.wav": the directory part is rewritten as well |
| `Signal.Downmix` | main.py:35-38 | mono data passes through sample for sample; 2-D data gives one sample per frame equal to the mean of columns 0 and 1; fewer than two columns fails with MissingChannel |
| `Signal.DownmixIgnoresExtraChannels` | main.py:36-38 | two frame arrays that agree on columns 0 and 1 mix down identically, whatever the other columns hold |
| `Signal.DownmixSymmetric` | main.py:36-38 | swapping the two channels leaves the downmix unchanged |
| `Signal.DownmixBetweenChannels` | main.py:38 | each mixed sample lies between its two channel values and so within the 16-bit range |
| `Signal.DownmixExample` | main.py:35-38 | left [1, 3] and right [3, 1] mix down to [2, 2] |
| `Signal.Wrap16` | main.py:38 | the 16-bit two's-complement value congruent to the exact sum modulo 65536, equal to it when it fits |
| `Signal.DownmixWrapped` | main.py:38 | the downmix as the int16 arrays compute it: each frame is the wrapped 16-bit sum of columns 0 and 1, halved |
| `Signal.WrappedAgreesWithoutOverflow` | main.py:38 | when no frame's sum leaves the 16-bit range, the wrapped downmix equals the exact mean |
| `Signal.WrappedOverflowExample` | main.py:38 | frames [[30000, 30000]] give -2768 with the 16-bit sum but 30000 as the mean |
| `Signal.LinspaceOpen` | main.py:39 | numpy's `linspace` without end point yields exactly `num` points |
| `Signal.TimeAxis` | main.py:39 | the time axis has one entry per sample and entry i is i / samplerate |
| `Signal.TimeAxisBounds` | main.py:39 | the axis starts at 0, its last entry is (n - 1) / samplerate, it increases strictly, and every entry is below the duration n / samplerate |
| `Signal.ProcessFile` | main.py:29-40 | reads the converted path; fails with MissingChannel for a 2-D array with fewer than two columns, else with DivisionByZero for a zero rate, and succeeds otherwise with the rate, the downmix and an equally long time axis of i / samplerate |
| `Bandpass.NormalisedBand` | main.py:11-13 | fails for a zero rate; otherwise the edges times the Nyquist frequency fs / 2 give back lowcut and highcut, their order matches that of lowcut and highcut, and high < 1 exactly when highcut is below Nyquist |
| `Bandpass.PadLength` | main.py:15 | the padding of the zero-phase pass exceeds six times the order |
| `Bandpass.Filter` | main.py:10-15 | fails with DivisionByZero for a zero rate, with CriticalFrequencyOutOfRange unless 0 < lowcut < highcut < fs / 2, with SignalTooShort for inputs no longer than the padding; otherwise filters with edges 2 * lowcut / fs and 2 * highcut / fs |
| `Bandpass.BandAcceptedIffBelowNyquist` | main.py:11-14 | the normalised band passes the design exactly when 0 < lowcut < highcut < fs / 2 |
| `Spectrum.FftFreq` | main.py:48 | numpy's `fftfreq` gives one frequency per sample |
| `Spectrum.FftFreqSign` | main.py:48 | with a positive spacing, bin k is non-negative exactly when k <= (n - 1) / 2 |
| `Spectrum.FftFreqFirstHalf` | main.py:48 | with spacing 1 / samplerate, every bin k below n / 2 lies at k * samplerate / n |
| `Spectrum.DroppedBins` | main.py:50-51 | for an even length every bin cut off is negative; for an odd length the first bin cut off is still positive |
| `Spectrum.CalculateSpectrum` | main.py:44-53 | fails with EmptyTransform for no samples, else with DivisionByZero for a zero rate; otherwise both arrays have length floor(n / 2), bin k is k * samplerate / n, and magnitude k is the transform's magnitude k and is non-negative |
| `Spectrum.HalfSpectrumBins` | main.py:48-51 | the kept bins start at 0, rise strictly and stay below the Nyquist frequency samplerate / 2 |
| `Bands.Cutoffs` | GUI.py:83 | every band's lower edge is positive and below its upper edge |
| `Bands.Lookup` | GUI.py:83-84 | a mode name finds its band's (lowcut, highcut) pair exactly when it is "low", "mid" or "high"; any other name fails with UnknownMode |
| `Bands.BandsAdjacent` | GUI.py:83 | the bands tile 20 Hz to 20 kHz, each starting where the previous one ends |
| `Bands.BandAccepted` | GUI.py:83-87 | a band passes the filter design exactly when the sample rate exceeds twice its upper edge |
| `Bands.BandsAtCommonRates` | GUI.py:83-87 | at 44100 Hz all three bands pass the design; at 32000 Hz the high band does not |

## Findings

| source | as written | input that shows it | evidently intended | confidence | as-written member | corrected member |
|---|---|---|---|---|---|---|
| main.py:38 | `left_channel + right_channel` adds two int16 arrays in 16 bits, wrapping around, before the division by 2 | one frame with both channels at 30000 mixes down to -2768.0 | the mean of the two channels, 30000.0 | likely for 16-bit files such as the default stereo file; not executed | `Signal.WrappedOverflowExample` | `Signal.Downmix` |

`Signal.ProcessFile` uses the corrected `Signal.Downmix`. `Signal.DownmixWrapped` is
the code as written.

## Left out

- The MP3-to-WAV transcoding and file export (main.py:23) are I/O and not modelled. `Paths.ConvertToWav` returns only the path.
- Reading the WAV file (main.py:32) is I/O. `Signal.ProcessFile` takes the reader as the parameter `wavRead` and requires only that a 2-D result is rectangular, as every numpy array is.
- WAV sample formats other than 16-bit PCM are not modelled: 8-bit unsigned, 32-bit integer and floating point. `Signal.WavData` holds int16 samples only.
- The FFT values themselves (main.py:46-47) are not modelled. `Spectrum.CalculateSpectrum` takes `abs(fft(data))` as the parameter `magnitude`, which it requires to have one entry per sample, all non-negative.
- The Butterworth coefficients and the zero-phase filtering (main.py:14-15) are floating-point library code. `Bandpass.Filter` takes them as the parameter `zeroPhase`. The model includes the library's input checks but says nothing about the filtered values.
- Floating-point rounding in the divisions, `linspace` and `fftfreq` is not modelled. Arithmetic is exact.
- Python's `str.replace` with an empty pattern is not modelled: the code only replaces ".mp3".
- GUI.py is not modelled apart from its band table: widgets, plotting, the file dialog and the mutable display mode. Its `load_audio` repeats `process_file`.
- RT60 decay-time estimation does not appear in the modelled files and is not part of this model.
