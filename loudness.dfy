/**
 * The loudness classifier (`audio_analysis`): the decoded track is cut into
 * consecutive windows of `int(sr / 16)` samples, the last one possibly
 * shorter, and every window is labelled 0 (quiet), 1 (medium) or 2 (loud)
 * by its root-mean-square amplitude against 0.1 and 0.125.
 */
module Loudness {
  import opened Wrappers

  const Fps: nat := 16

  /** `int(sr * (1 / fps))`: 1/16 is exact in binary, so this is the floor of `sr / 16`. */
  function FrameSamples(sr: nat): nat {
    sr / Fps
  }

  /** `[y[i:i + step] for i in range(0, len(y), step)]`. */
  function Windows<T>(y: seq<T>, step: nat): (ws: seq<seq<T>>)
    requires step > 0
    ensures forall k :: 0 <= k < |ws| ==> 0 < |ws[k]| <= step
    decreases |y|
  {
    if |y| == 0 then []
    else if |y| <= step then [y]
    else [y[..step]] + Windows(y[step..], step)
  }

  function Flatten<T>(ws: seq<seq<T>>): seq<T> {
    if ws == [] then [] else ws[0] + Flatten(ws[1..])
  }

  function Min(a: nat, b: nat): nat {
    if a <= b then a else b
  }

  /** Window `k` is the slice of the signal that starts at sample `k * step`. */
  lemma {:induction false} WindowAt<T>(y: seq<T>, step: nat, k: nat)
    requires step > 0 && k < |Windows(y, step)|
    ensures k * step < |y|
    ensures Windows(y, step)[k] == y[k * step .. Min(k * step + step, |y|)]
    decreases |y|
  {
    if k > 0 {
      var rest := y[step..];
      assert Windows(y, step)[k] == Windows(rest, step)[k - 1];
      WindowAt(rest, step, k - 1);
      var j := (k - 1) * step;
      assert j + step == k * step;
      DropSlice(y, step, j, Min(j + step, |rest|));
    }
  }

  /** Slicing after dropping a prefix is slicing further along. */
  lemma DropSlice<T>(y: seq<T>, step: nat, a: nat, b: nat)
    requires step <= |y| && a <= b <= |y| - step
    ensures y[step..][a..b] == y[step + a .. step + b]
  {
  }

  /** There are `ceil(len(y) / step)` windows: just enough to cover the signal. */
  lemma {:induction false} WindowCount<T>(y: seq<T>, step: nat)
    requires step > 0
    ensures var n := |Windows(y, step)|; |y| <= n * step < |y| + step
    decreases |y|
  {
    if |y| > step {
      WindowCount(y[step..], step);
      var n := |Windows(y[step..], step)|;
      assert (n + 1) * step == n * step + step;
    }
  }

  /** Every window is full except possibly the last, which is never empty. */
  lemma {:induction false} WindowsFull<T>(y: seq<T>, step: nat)
    requires step > 0
    ensures var ws := Windows(y, step);
            && (forall k :: 0 <= k < |ws| - 1 ==> |ws[k]| == step)
            && (|ws| > 0 ==> 0 < |ws[|ws| - 1]| <= step)
    decreases |y|
  {
    if |y| > step {
      WindowsFull(y[step..], step);
    }
  }

  /** Put back together, the windows reproduce the signal. */
  lemma {:induction false} WindowsCover<T>(y: seq<T>, step: nat)
    requires step > 0
    ensures Flatten(Windows(y, step)) == y
    decreases |y|
  {
    if |y| > step {
      WindowsCover(y[step..], step);
      var ws := Windows(y, step);
      assert ws[1..] == Windows(y[step..], step);
      assert y[..step] + y[step..] == y;
    } else if |y| > 0 {
      assert Windows(y, step)[1..] == [];
    }
  }

  // ---- Classification ----

  /** The source's rule on the root-mean-square amplitude. */
  function Classify(rms: real): nat {
    if rms < 0.1 then 0 else if rms < 0.125 then 1 else 2
  }

  /** The same rule on the mean square, against 0.1² = 1/100 and 0.125² = 1/64. */
  function ClassifyMeanSquare(ms: real): (bucket: nat)
    ensures bucket <= 2
  {
    if ms < 0.01 then 0 else if ms < 0.015625 then 1 else 2
  }

  function SumSquares(w: seq<real>): (r: real)
    ensures r >= 0.0
  {
    if w == [] then 0.0 else w[0] * w[0] + SumSquares(w[1..])
  }

  /** `np.mean(frame ** 2)`. */
  function MeanSquare(w: seq<real>): (r: real)
    requires |w| > 0
    ensures r >= 0.0
  {
    SumSquares(w) / (|w| as real)
  }

  /** Labels are 0, 1 or 2, and a louder window never gets a lower label. */
  lemma ClassifyMonotone(a: real, b: real)
    requires a <= b
    ensures Classify(a) <= Classify(b) <= 2
  {
  }

  lemma SquareBelow(r: real, t: real)
    requires 0.0 <= r && 0.0 < t
    ensures r < t <==> r * r < t * t
  {
    if r < t {
      assert r * (t - r) >= 0.0;
      assert t * (t - r) > 0.0;
    } else {
      assert r * (r - t) >= 0.0;
      assert t * (r - t) >= 0.0;
    }
  }

  /** Classifying the square root of the mean square is classifying the mean square against the squared thresholds. */
  lemma ClassifyBySquare(rms: real, ms: real)
    requires rms >= 0.0 && rms * rms == ms
    ensures ClassifyMeanSquare(ms) == Classify(rms)
  {
    SquareBelow(rms, 0.1);
    SquareBelow(rms, 0.125);
  }

  datatype AnalysisError =
    | AudioReadError  // librosa could not decode the file
    | ZeroStep        // `range` with step 0: the sample rate is below 16

  /** A decoded track: samples and sample rate. */
  datatype Track = Track(samples: seq<real>, rate: nat)

  /** `audio_analysis`: one label per window, in window order. */
  method AudioAnalysis(path: string, load: string -> Option<Track>) returns (r: Result<seq<nat>, AnalysisError>)
    ensures r == Err(AudioReadError) <==> load(path).None?
    ensures r == Err(ZeroStep) <==> load(path).Some? && FrameSamples(load(path).value.rate) == 0
    ensures r.Ok? ==>
      && load(path).Some? && FrameSamples(load(path).value.rate) > 0
      && var ws := Windows(load(path).value.samples, FrameSamples(load(path).value.rate));
         && |r.value| == |ws|
         && forall k :: 0 <= k < |ws| ==> |ws[k]| > 0 && r.value[k] == ClassifyMeanSquare(MeanSquare(ws[k]))
  {
    var loaded := load(path);
    if loaded.None? {
      return Err(AudioReadError);
    }
    var step := FrameSamples(loaded.value.rate);
    if step == 0 {
      return Err(ZeroStep);
    }
    var frames := Windows(loaded.value.samples, step);
    WindowsFull(loaded.value.samples, step);
    var volumeClass: seq<nat> := [];
    var i := 0;
    while i < |frames|
      invariant 0 <= i <= |frames|
      invariant |volumeClass| == i
      invariant forall k :: 0 <= k < i ==> volumeClass[k] == ClassifyMeanSquare(MeanSquare(frames[k]))
    {
      volumeClass := volumeClass + [ClassifyMeanSquare(MeanSquare(frames[i]))];
      i := i + 1;
    }
    r := Ok(volumeClass);
  }

  lemma {:induction false} SilentSumSquares(w: seq<real>)
    requires forall i :: 0 <= i < |w| ==> w[i] == 0.0
    ensures SumSquares(w) == 0.0
  {
    if w != [] {
      SilentSumSquares(w[1..]);
    }
  }

  /** A silent track is quiet in every window. */
  lemma SilentIsQuiet(y: seq<real>, step: nat, k: nat)
    requires step > 0 && k < |Windows(y, step)|
    requires forall i :: 0 <= i < |y| ==> y[i] == 0.0
    ensures |Windows(y, step)[k]| > 0 && ClassifyMeanSquare(MeanSquare(Windows(y, step)[k])) == 0
  {
    WindowAt(y, step, k);
    WindowsFull(y, step);
    SilentSumSquares(Windows(y, step)[k]);
  }

  lemma {:induction false} FullScaleSumSquares(w: seq<real>)
    requires forall i :: 0 <= i < |w| ==> w[i] == 1.0 || w[i] == -1.0
    ensures SumSquares(w) == |w| as real
  {
    if w != [] {
      FullScaleSumSquares(w[1..]);
    }
  }

  /** A window of full-scale samples gets the loudest label. */
  lemma FullScaleIsLoud(w: seq<real>)
    requires |w| > 0 && forall i :: 0 <= i < |w| ==> w[i] == 1.0 || w[i] == -1.0
    ensures ClassifyMeanSquare(MeanSquare(w)) == 2
  {
    FullScaleSumSquares(w);
    assert MeanSquare(w) == (|w| as real) / (|w| as real) == 1.0;
  }

  /**
   * At librosa's default rate of 22050 Hz a window is 1378 samples, a little
   * under 1/16 s, so ten seconds of audio give 161 windows rather than 160.
   */
  lemma TenSecondsAtDefaultRate<T>(y: seq<T>)
    requires |y| == 10 * 22050
    ensures |Windows(y, FrameSamples(22050))| == 161
  {
    WindowCount(y, 1378);
    var n := |Windows(y, 1378)|;
    assert 220500 <= n * 1378 < 220500 + 1378;
  }
}
