/** The segmenter: one decoded sample buffer becomes an ordered list of
    fixed-length, energy-qualified segments (or the whole clip, when it is
    shorter than one segment). */
module Segmentation {
  import opened Signal

  /** The sample counts and quotas the processor derives at construction. */
  datatype Config = Config(
    targetSr: int,
    targetSamples: int,
    gapSamples: int,
    calibrationSamples: int,
    evalSamples: int)
  {
    /** Window length positive, and each step moves forward (otherwise the
        window loop never ends). */
    predicate Valid() {
      targetSamples > 0 && targetSamples + gapSamples > 0
    }

    function Step(): (k: nat)
      requires Valid()
      ensures k > 0
    {
      targetSamples + gapSamples
    }
  }

  /** Python's `int(x)` on a float: truncation toward zero. */
  function TruncToInt(x: real): (r: int)
    ensures 0.0 <= x ==> r >= 0 && r as real <= x < r as real + 1.0
    ensures x < 0.0 ==> r <= 0 && r as real - 1.0 < x <= r as real
  {
    if x >= 0.0 then x.Floor else -((-x).Floor)
  }

  /** The constructor's derivation of sample counts from seconds. */
  function MakeConfig(
    targetSr: int, targetDuration: real,
    calibrationSamples: int, evalSamples: int, gapDuration: real): (c: Config)
    ensures c.targetSr == targetSr
    ensures c.calibrationSamples == calibrationSamples && c.evalSamples == evalSamples
    // `int(target_sr * target_duration)`: the product truncated toward zero
    ensures var x := targetSr as real * targetDuration;
      (0.0 <= x ==> 0 <= c.targetSamples && c.targetSamples as real <= x < c.targetSamples as real + 1.0) &&
      (x < 0.0 ==> c.targetSamples <= 0 && c.targetSamples as real - 1.0 < x <= c.targetSamples as real)
    // `int(target_sr * gap_duration)`, likewise
    ensures var y := targetSr as real * gapDuration;
      (0.0 <= y ==> 0 <= c.gapSamples && c.gapSamples as real <= y < c.gapSamples as real + 1.0) &&
      (y < 0.0 ==> c.gapSamples <= 0 && c.gapSamples as real - 1.0 < y <= c.gapSamples as real)
  {
    Config(targetSr, TruncToInt(targetSr as real * targetDuration),
           TruncToInt(targetSr as real * gapDuration), calibrationSamples, evalSamples)
  }

  /** The defaults: 10-second windows and 2-second gaps at 44100 Hz. */
  lemma DefaultSampleCounts()
    ensures MakeConfig(44100, 10.0, 300, 1000, 2.0) == Config(44100, 441000, 88200, 300, 1000)
  {
    assert 44100 as real * 10.0 == 441000.0;
    assert 44100 as real * 2.0 == 88200.0;
  }

  /** What the decoder gives back for one file: no audio track, a mono
      buffer and its rate, or an exception. */
  datatype LoadOutcome = NoAudio | Decoded(samples: seq<real>, sr: int) | LoadError

  datatype Segment = Segment(samples: seq<real>, sr: int)

  /** What segmenting one file gives: its segments, or an exception that
      the batcher's per-file handler catches. */
  datatype Processed = Segments(segments: seq<Segment>) | Raised

  /** How many windows of `width` samples, starting at multiples of `step`,
      fit in `len` samples. */
  function WindowCount(len: nat, width: nat, step: nat): nat
    requires step > 0
  {
    if len < width then 0 else (len - width) / step + 1
  }

  lemma MulMono(a: nat, b: nat, step: nat)
    requires a <= b
    ensures a * step <= b * step
  {
  }

  /** A window starting at `k * step` fits exactly when `k` is below the
      window count: the loop stops at the first window that would overrun. */
  lemma WindowFits(len: nat, width: nat, step: nat, k: nat)
    requires step > 0
    ensures k * step + width <= len <==> k < WindowCount(len, width, step)
  {
    if len < width {
      MulMono(0, k, step);
    } else if k <= (len - width) / step {
      FitsBelow(len - width, step, k);
    } else {
      OverrunsAbove(len - width, step, k);
    }
  }

  /** A start at or below the last multiple of `step` within `room` fits. */
  lemma FitsBelow(room: nat, step: nat, k: nat)
    requires step > 0 && k <= room / step
    ensures k * step <= room
  {
    var q := room / step;
    assert q * step <= room;
    MulMono(k, q, step);
  }

  /** A start past the last multiple of `step` within `room` overruns. */
  lemma OverrunsAbove(room: nat, step: nat, k: nat)
    requires step > 0 && k > room / step
    ensures k * step > room
  {
    var q := room / step;
    assert room == q * step + room % step && room % step < step;
    MulMono(q + 1, k, step);
    assert (q + 1) * step == q * step + step;
  }

  /** The windows the loop attempts: window `k` covers
      `[k * step, k * step + width)` of the buffer. */
  function Windows(buf: seq<real>, width: nat, step: nat): (ws: seq<seq<real>>)
    requires step > 0
    ensures |ws| == WindowCount(|buf|, width, step)
  {
    var n := WindowCount(|buf|, width, step);
    seq(n, k requires 0 <= k < n =>
      WindowFits(|buf|, width, step, k);
      buf[k * step .. k * step + width])
  }

  /** Every attempted window has exactly `width` samples and lies inside
      the buffer, at the start `k * step`. */
  lemma WindowGeometry(buf: seq<real>, width: nat, step: nat, k: nat)
    requires step > 0 && k < |Windows(buf, width, step)|
    ensures k * step + width <= |buf|
    ensures |Windows(buf, width, step)[k]| == width
    ensures Windows(buf, width, step)[k] == buf[k * step .. k * step + width]
  {
    WindowFits(|buf|, width, step, k);
  }

  /** The windows that pass the energy floor, in order, as segments. */
  function Kept(ws: seq<seq<real>>, sr: int): seq<Segment> {
    if ws == [] then []
    else
      var last := ws[|ws| - 1];
      Kept(ws[..|ws| - 1], sr) + (if Energetic(last) then [Segment(last, sr)] else [])
  }

  lemma KeptSnoc(ws: seq<seq<real>>, k: nat, sr: int)
    requires k < |ws|
    ensures Kept(ws[..k + 1], sr) == Kept(ws[..k], sr) + (if Energetic(ws[k]) then [Segment(ws[k], sr)] else [])
  {
    assert ws[..k + 1][..k] == ws[..k];
  }

  lemma NextStart(k: nat, step: nat)
    ensures k * step + step == (k + 1) * step
  {
  }

  lemma {:induction false} KeptBound(ws: seq<seq<real>>, sr: int)
    ensures |Kept(ws, sr)| <= |ws|
  {
    if ws != [] {
      KeptBound(ws[..|ws| - 1], sr);
    }
  }

  /** A segment is kept exactly when it is an attempted window that passes
      the energy floor. */
  lemma {:induction false} KeptMembers(ws: seq<seq<real>>, sr: int, g: Segment)
    ensures g in Kept(ws, sr) <==> g.sr == sr && g.samples in ws && Energetic(g.samples)
  {
    if ws != [] {
      var init := ws[..|ws| - 1];
      KeptMembers(init, sr, g);
      assert ws == init + [ws[|ws| - 1]];
    }
  }

  /** The positions of the windows that pass the energy floor. */
  function EnergeticIndices(ws: seq<seq<real>>): (ks: seq<nat>)
    ensures forall j :: 0 <= j < |ks| ==> ks[j] < |ws|
  {
    if ws == [] then []
    else EnergeticIndices(ws[..|ws| - 1]) + (if Energetic(ws[|ws| - 1]) then [|ws| - 1] else [])
  }

  /** The kept segments are the windows that pass the energy floor, in
      increasing window order: segment `j` is window `ks[j]`, the `ks` rise
      strictly, and every window that passes is among them. */
  lemma {:induction false} KeptInOrder(ws: seq<seq<real>>, sr: int)
    ensures var ks := EnergeticIndices(ws);
      |ks| == |Kept(ws, sr)| &&
      (forall j :: 0 <= j < |ks| ==> Kept(ws, sr)[j] == Segment(ws[ks[j]], sr)) &&
      (forall a, b :: 0 <= a < b < |ks| ==> ks[a] < ks[b]) &&
      (forall k :: 0 <= k < |ws| ==> (Energetic(ws[k]) <==> k in ks))
  {
    KeptAt(ws, sr);
    IndicesRise(ws);
    IndicesComplete(ws);
  }

  lemma {:induction false} KeptAt(ws: seq<seq<real>>, sr: int)
    ensures var ks := EnergeticIndices(ws);
      |ks| == |Kept(ws, sr)| &&
      forall j :: 0 <= j < |ks| ==> Kept(ws, sr)[j] == Segment(ws[ks[j]], sr)
  {
    if ws != [] {
      var init := ws[..|ws| - 1];
      KeptAt(init, sr);
      var ks := EnergeticIndices(ws);
      var ks0 := EnergeticIndices(init);
      assert forall j :: 0 <= j < |ks0| ==> ks[j] == ks0[j] && ws[ks0[j]] == init[ks0[j]];
    }
  }

  lemma {:induction false} IndicesRise(ws: seq<seq<real>>)
    ensures forall a, b :: 0 <= a < b < |EnergeticIndices(ws)| ==> EnergeticIndices(ws)[a] < EnergeticIndices(ws)[b]
  {
    if ws != [] {
      var init := ws[..|ws| - 1];
      IndicesRise(init);
      var ks := EnergeticIndices(ws);
      var ks0 := EnergeticIndices(init);
      if Energetic(ws[|init|]) {
        assert ks == ks0 + [|init|];
        forall a, b | 0 <= a < b < |ks|
          ensures ks[a] < ks[b]
        {
          assert ks[a] == ks0[a] < |init|;
          if b < |ks0| {
            assert ks[b] == ks0[b];
          }
        }
      } else {
        assert ks == ks0;
      }
    }
  }

  lemma {:induction false} IndicesComplete(ws: seq<seq<real>>)
    ensures var ks := EnergeticIndices(ws);
      forall k :: 0 <= k < |ws| ==> (Energetic(ws[k]) <==> k in ks)
  {
    if ws != [] {
      var init := ws[..|ws| - 1];
      IndicesComplete(init);
      assert forall k :: 0 <= k < |init| ==> ws[k] == init[k];
    }
  }

  /** The segmenter as a function of the configuration and the decoder's
      outcome. */
  function SegmentsOf(cfg: Config, loaded: LoadOutcome): Processed
    requires cfg.Valid()
  {
    match loaded
    case LoadError => Raised
    case NoAudio => Segments([])
    case Decoded(audio, sr) =>
      if |audio| < cfg.targetSamples then
        Segments(if Energetic(audio) then [Segment(audio, sr)] else [])
      else
        Segments(Kept(Windows(Preprocess(audio), cfg.targetSamples, cfg.Step()), sr))
  }

  /** A clip shorter than one window is kept whole and unprocessed when it
      passes the energy floor, and dropped otherwise; a file with no audio
      track gives no segments. */
  lemma ShortClipFallback(cfg: Config, audio: seq<real>, sr: int)
    requires cfg.Valid() && |audio| < cfg.targetSamples
    ensures SegmentsOf(cfg, NoAudio) == Segments([])
    ensures Energetic(audio) ==> SegmentsOf(cfg, Decoded(audio, sr)) == Segments([Segment(audio, sr)])
    ensures !Energetic(audio) ==> SegmentsOf(cfg, Decoded(audio, sr)) == Segments([])
  {
  }

  /** Five seconds at 44100 Hz of a steady 0.05 amplitude (RMS 0.05),
      with 10-second windows: kept whole, as one segment. */
  lemma FiveSecondClip(cfg: Config)
    requires cfg.Valid() && cfg.targetSamples == 441000
    ensures SegmentsOf(cfg, Decoded(Constant(220500, 0.05), 44100))
         == Segments([Segment(Constant(220500, 0.05), 44100)])
  {
    ConstantEnergy(220500, 0.05);
  }

  /** Twenty-five seconds at 44100 Hz with 10-second windows and 2-second
      gaps: windows start at 0 and 529200; a third, at 1058400, would run
      past the end. */
  lemma TwentyFiveSecondBuffer(buf: seq<real>)
    requires |buf| == 1102500
    ensures |Windows(buf, 441000, 529200)| == 2
    ensures Windows(buf, 441000, 529200) == [buf[0..441000], buf[529200..970200]]
  {
    WindowGeometry(buf, 441000, 529200, 0);
    WindowGeometry(buf, 441000, 529200, 1);
  }

  /** In the windowing path every segment has exactly `targetSamples`
      samples and passes the energy floor, and there are no more segments
      than window starts `0, step, 2 * step, ...` that fit. */
  lemma WindowedSegments(cfg: Config, audio: seq<real>, sr: int)
    requires cfg.Valid() && |audio| >= cfg.targetSamples
    ensures SegmentsOf(cfg, Decoded(audio, sr)).Segments?
    ensures var segs := SegmentsOf(cfg, Decoded(audio, sr)).segments;
      |segs| <= (|audio| - cfg.targetSamples) / cfg.Step() + 1 &&
      forall g :: g in segs ==> |g.samples| == cfg.targetSamples && Energetic(g.samples) && g.sr == sr
  {
    var ws := Windows(Preprocess(audio), cfg.targetSamples, cfg.Step());
    var segs := Kept(ws, sr);
    KeptBound(ws, sr);
    forall g | g in segs
      ensures |g.samples| == cfg.targetSamples && Energetic(g.samples) && g.sr == sr
    {
      KeptMembers(ws, sr, g);
      var k :| 0 <= k < |ws| && ws[k] == g.samples;
      WindowGeometry(Preprocess(audio), cfg.targetSamples, cfg.Step(), k);
    }
  }

  /** The window loop: from offset 0, take `width` samples, keep them when
      they pass the energy floor, and advance by `step`, while the window
      still fits. */
  method SlideWindows(buf: seq<real>, width: nat, step: nat, sr: int) returns (segments: seq<Segment>)
    requires step > 0
    ensures segments == Kept(Windows(buf, width, step), sr)
  {
    ghost var ws := Windows(buf, width, step);
    segments := [];
    var pos: nat := 0;
    ghost var k: nat := 0;
    while pos + width <= |buf|
      invariant pos == k * step
      invariant k <= |ws|
      invariant segments == Kept(ws[..k], sr)
      decreases |buf| - pos
    {
      WindowFits(|buf|, width, step, k);
      WindowGeometry(buf, width, step, k);
      var segment := buf[pos .. pos + width];
      KeptSnoc(ws, k, sr);
      if Energetic(segment) {
        segments := segments + [Segment(segment, sr)];
      }
      NextStart(k, step);
      pos := pos + step;
      k := k + 1;
    }
    WindowFits(|buf|, width, step, k);
    assert ws[..k] == ws;
  }

  /** `load_and_process_audio` on an already decoded outcome: the short-clip
      check, or normalisation, DC removal and the window loop. */
  method LoadAndProcessAudio(cfg: Config, loaded: LoadOutcome) returns (r: Processed)
    requires cfg.Valid()
    ensures r == SegmentsOf(cfg, loaded)
  {
    match loaded {
      case LoadError =>
        return Raised;
      case NoAudio =>
        return Segments([]);
      case Decoded(audio, sr) =>
        if |audio| < cfg.targetSamples {
          if Energetic(audio) {
            return Segments([Segment(audio, sr)]);
          } else {
            return Segments([]);
          }
        }
        var segments := SlideWindows(Preprocess(audio), cfg.targetSamples, cfg.Step(), sr);
        return Segments(segments);
    }
  }
}
