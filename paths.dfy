/** The path rewrite of `convert_to_wav`: an MP3 path is mapped to the path of the WAV
    file the converter writes. The transcoding itself is not part of this model. */
module Paths {

  const Mp3: string := ".mp3"
  const Wav: string := ".wav"

  predicate EndsWith(s: string, suffix: string) {
    |suffix| <= |s| && s[|s| - |suffix|..] == suffix
  }

  /** `pat` occurs in `s` starting at index `j`. */
  predicate OccursAt(s: string, pat: string, j: int) {
    0 <= j && j + |pat| <= |s| && s[j..j + |pat|] == pat
  }

  /** Index `i` of `s` lies inside some occurrence of ".mp3". */
  predicate Covered(s: string, i: int) {
    exists j :: j <= i < j + |Mp3| && OccursAt(s, Mp3, j)
  }

  /** Python's `str.replace(pat, rep)`: scan from the left and replace each occurrence
      of `pat`, resuming the scan after the replaced text. */
  function Replace(s: string, pat: string, rep: string): (r: string)
    requires pat != []
    ensures |pat| == |rep| ==> |r| == |s|
    decreases |s|
  {
    if |s| < |pat| then s
    else if s[..|pat|] == pat then rep + Replace(s[|pat|..], pat, rep)
    else [s[0]] + Replace(s[1..], pat, rep)
  }

  /** `convert_to_wav` without its export side effect: the path the WAV data is read from. */
  function ConvertToWav(path: string): (r: string)
    ensures !EndsWith(path, Mp3) ==> r == path
    ensures EndsWith(path, Mp3) ==> |r| == |path| && EndsWith(r, Wav) && r != path
    ensures EndsWith(path, Mp3) ==> forall j :: !OccursAt(r, Mp3, j)
    ensures EndsWith(path, Mp3) ==> forall i :: 0 <= i < |path| && !Covered(path, i) ==> r[i] == path[i]
  {
    if EndsWith(path, Mp3) then
      ReplaceMp3Spec(path);
      ReplaceMp3KeepsSuffix(path);
      ReplaceMp3LeavesNone(path);
      Replace(path, Mp3, Wav)
    else
      path
  }

  /** Two occurrences of ".mp3" never overlap: ".mp3" has no proper border. */
  lemma NoOverlap(s: string, j: int, k: int)
    requires OccursAt(s, Mp3, j) && OccursAt(s, Mp3, k)
    requires j <= k < j + |Mp3|
    ensures j == k
  {
    assert s[k] == s[k..k + 4][0] == '.';
    assert s[k] == s[j..j + 4][k - j];
  }

  /** Occurrences in a suffix of `s` are occurrences in `s`, shifted by the cut. */
  lemma ShiftOccurs(s: string, pat: string, c: nat, j: int)
    requires c <= |s|
    ensures 0 <= j ==> (OccursAt(s[c..], pat, j) <==> OccursAt(s, pat, j + c))
  {
    if 0 <= j && j + |pat| <= |s| - c {
      assert s[c..][j..j + |pat|] == s[j + c..j + c + |pat|];
    }
  }

  /** Pointwise meaning of the replacement: every character inside an occurrence of
      ".mp3" becomes the matching character of ".wav"; every other character is kept. */
  lemma {:induction false} ReplaceMp3At(s: string, i: int)
    requires 0 <= i < |s|
    ensures |Replace(s, Mp3, Wav)| == |s|
    ensures forall j :: j <= i < j + |Mp3| && OccursAt(s, Mp3, j) ==> Replace(s, Mp3, Wav)[i] == Wav[i - j]
    ensures !Covered(s, i) ==> Replace(s, Mp3, Wav)[i] == s[i]
    decreases |s|
  {
    var r := Replace(s, Mp3, Wav);
    if |s| < 4 {
      assert r == s;
    } else if s[..4] == Mp3 {
      assert OccursAt(s, Mp3, 0);
      var t := s[4..];
      assert r == Wav + Replace(t, Mp3, Wav);
      if i < 4 {
        forall j | j <= i < j + 4 && OccursAt(s, Mp3, j)
          ensures r[i] == Wav[i - j]
        {
          NoOverlap(s, 0, j);
        }
        assert j0: i <= i < 0 + 4 && OccursAt(s, Mp3, 0);
      } else {
        ReplaceMp3At(t, i - 4);
        assert r[i] == Replace(t, Mp3, Wav)[i - 4];
        forall j | j <= i < j + 4 && OccursAt(s, Mp3, j)
          ensures r[i] == Wav[i - j]
        {
          if j < 4 { NoOverlap(s, 0, j); }
          ShiftOccurs(s, Mp3, 4, j - 4);
        }
        if !Covered(s, i) {
          forall j | j <= i - 4 < j + 4 ensures !OccursAt(t, Mp3, j) {
            ShiftOccurs(s, Mp3, 4, j);
          }
        }
      }
    } else {
      assert !OccursAt(s, Mp3, 0);
      var t := s[1..];
      assert r == [s[0]] + Replace(t, Mp3, Wav);
      if i == 0 {
        forall j | j <= 0 < j + 4 && OccursAt(s, Mp3, j) ensures false { }
      } else {
        ReplaceMp3At(t, i - 1);
        assert r[i] == Replace(t, Mp3, Wav)[i - 1];
        forall j | j <= i < j + 4 && OccursAt(s, Mp3, j)
          ensures r[i] == Wav[i - j]
        {
          ShiftOccurs(s, Mp3, 1, j - 1);
        }
        if !Covered(s, i) {
          forall j | j <= i - 1 < j + 4 ensures !OccursAt(t, Mp3, j) {
            ShiftOccurs(s, Mp3, 1, j);
          }
        }
      }
    }
  }

  /** The pointwise meaning, for every index at once. */
  lemma ReplaceMp3Spec(s: string)
    ensures |Replace(s, Mp3, Wav)| == |s|
    ensures forall i, j :: 0 <= i < |s| && j <= i < j + |Mp3| && OccursAt(s, Mp3, j) ==> Replace(s, Mp3, Wav)[i] == Wav[i - j]
    ensures forall i :: 0 <= i < |s| && !Covered(s, i) ==> Replace(s, Mp3, Wav)[i] == s[i]
  {
    forall i | 0 <= i < |s|
      ensures forall j :: j <= i < j + |Mp3| && OccursAt(s, Mp3, j) ==> Replace(s, Mp3, Wav)[i] == Wav[i - j]
      ensures !Covered(s, i) ==> Replace(s, Mp3, Wav)[i] == s[i]
    {
      ReplaceMp3At(s, i);
    }
  }

  /** A trailing ".mp3" becomes a trailing ".wav". */
  lemma ReplaceMp3KeepsSuffix(s: string)
    requires EndsWith(s, Mp3)
    ensures EndsWith(Replace(s, Mp3, Wav), Wav)
  {
    var r := Replace(s, Mp3, Wav);
    var j := |s| - 4;
    assert OccursAt(s, Mp3, j);
    forall d | 0 <= d < 4 ensures r[j + d] == Wav[d] {
      ReplaceMp3At(s, j + d);
    }
    assert r[j..] == Wav;
  }

  /** No ".mp3" survives the replacement, including the ones before the extension. */
  lemma ReplaceMp3LeavesNone(s: string)
    ensures forall j :: !OccursAt(Replace(s, Mp3, Wav), Mp3, j)
  {
    forall j | 0 <= j && j + 4 <= |s|
      ensures !OccursAt(Replace(s, Mp3, Wav), Mp3, j)
    {
      NoMp3At(s, j);
    }
  }

  /** The result has no ".mp3" at index `j`: its characters would all have to be copied
      from the input, giving an input occurrence that covers them after all. */
  lemma NoMp3At(s: string, j: int)
    requires 0 <= j && j + 4 <= |s|
    ensures !OccursAt(Replace(s, Mp3, Wav), Mp3, j)
  {
    var r := Replace(s, Mp3, Wav);
    WindowChars(r, j);
    WindowChars(s, j);
    TailCopied(s, j);
    if r[j] == '.' && !Covered(s, j + 1) { DotStartsUncovered(s, j); }
    assert OccursAt(s, Mp3, j) ==> Covered(s, j + 1) by {
      assert j <= j + 1 < j + 4;
    }
  }

  /** The characters 'm', 'p', '3' of the result are copied from uncovered input positions. */
  lemma TailCopied(s: string, j: int)
    requires 0 <= j && j + 4 <= |s|
    ensures var r := Replace(s, Mp3, Wav);
      r[j + 1] == 'm' && r[j + 2] == 'p' && r[j + 3] == '3' ==>
        !Covered(s, j + 1) && s[j + 1] == 'm' && s[j + 2] == 'p' && s[j + 3] == '3'
  {
    var r := Replace(s, Mp3, Wav);
    if r[j + 1] !in Wav { UncoveredAt(s, j + 1); }
    if r[j + 2] !in Wav { UncoveredAt(s, j + 2); }
    if r[j + 3] !in Wav { UncoveredAt(s, j + 3); }
  }

  /** An occurrence of ".mp3", character by character. */
  lemma WindowChars(s: string, j: int)
    requires 0 <= j && j + 4 <= |s|
    ensures OccursAt(s, Mp3, j) <==> s[j] == '.' && s[j + 1] == 'm' && s[j + 2] == 'p' && s[j + 3] == '3'
  {
    assert s[j..j + 4] == [s[j], s[j + 1], s[j + 2], s[j + 3]];
  }

  /** A '.' in the result followed by a copied character is itself copied. */
  lemma DotStartsUncovered(s: string, j: int)
    requires 0 <= j && j + 1 < |s|
    requires !Covered(s, j + 1)
    requires Replace(s, Mp3, Wav)[j] == '.'
    ensures !Covered(s, j) && Replace(s, Mp3, Wav)[j] == s[j]
  {
    ReplaceMp3At(s, j);
  }

  /** A character of the result that does not occur in ".wav" comes from an uncovered input position. */
  lemma UncoveredAt(s: string, i: int)
    requires 0 <= i < |s|
    requires Replace(s, Mp3, Wav)[i] !in Wav
    ensures !Covered(s, i) && Replace(s, Mp3, Wav)[i] == s[i]
  {
    ReplaceMp3At(s, i);
  }

  /** The rewrite reaches past the extension: "a.mp3.d/x.mp3" becomes "a.wav.d/x.wav". */
  lemma ConvertRewritesInnerOccurrence()
    ensures ConvertToWav("a.mp3.d/x.mp3") == "a.wav.d/x.wav"
  {
    ReplaceSample();
    assert EndsWith("a.mp3.d/x.mp3", Mp3);
  }

  lemma ReplaceSample()
    ensures Replace("a.mp3.d/x.mp3", Mp3, Wav) == "a.wav.d/x.wav"
  {
    ReplaceSampleTail();
    assert ".mp3.d/x.mp3"[..4] == Mp3;
    assert ".mp3.d/x.mp3"[4..] == ".d/x.mp3";
    assert Replace(".mp3.d/x.mp3", Mp3, Wav) == Wav + Replace(".d/x.mp3", Mp3, Wav);
    assert "a.mp3.d/x.mp3"[..4] != Mp3 by { assert "a.mp3.d/x.mp3"[0] == 'a'; }
    assert "a.mp3.d/x.mp3"[1..] == ".mp3.d/x.mp3";
    assert Replace("a.mp3.d/x.mp3", Mp3, Wav) == "a" + Replace(".mp3.d/x.mp3", Mp3, Wav);
  }

  lemma ReplaceSampleTail()
    ensures Replace(".d/x.mp3", Mp3, Wav) == ".d/x.wav"
  {
    assert Replace(".mp3", Mp3, Wav) == Wav + Replace("", Mp3, Wav) == ".wav";
    assert Replace("x.mp3", Mp3, Wav) == "x" + Replace(".mp3", Mp3, Wav);
    assert Replace("/x.mp3", Mp3, Wav) == "/" + Replace("x.mp3", Mp3, Wav);
    assert Replace("d/x.mp3", Mp3, Wav) == "d" + Replace("/x.mp3", Mp3, Wav);
    assert ".d/x.mp3"[..4] != Mp3 by { assert ".d/x.mp3"[1] == 'd'; }
    assert Replace(".d/x.mp3", Mp3, Wav) == "." + Replace("d/x.mp3", Mp3, Wav);
  }
}
