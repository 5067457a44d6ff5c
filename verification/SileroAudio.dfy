/**
 What the detector hears and what it reports (src/sandroid/vad/silero.py): the windows of any list of
 16-bit samples, and the shape of the spans.
 */
module SileroAudio {
  import opened Bytes
  import opened Segmenter
  import opened Silero

  // ---------- From samples to windows ----------

  type Sample16 = n: int | -32768 <= n < 32768

  /** A sample in two's complement, low byte first. */
  function LittleEndian(n: Sample16): (b: bytes)
    ensures |b| == 2
  {
    var u := n % 65536;
    [u % 256, u / 256]
  }

  function Packed(samples: seq<Sample16>): bytes {
    seq(2 * |samples|, k requires 0 <= k < 2 * |samples| => LittleEndian(samples[k / 2])[k % 2])
  }

  function Scaled(samples: seq<Sample16>): Samples {
    seq(|samples|, i requires 0 <= i < |samples| => samples[i] as real / 32768.0)
  }

  lemma SampleInverts(n: Sample16)
    ensures Sample(LittleEndian(n)[0], LittleEndian(n)[1]) == n as real / 32768.0
  {
  }

  /** The network hears the samples, in order, divided by 32768; a dangling byte is not heard. */
  lemma SamplesAreHeard(samples: seq<Sample16>, dangling: bytes)
    requires |dangling| <= 1
    ensures PcmToFloat(Packed(samples) + dangling) == Scaled(samples)
  {
    hide Sample, Packed;
    var pcm := Packed(samples) + dangling;
    PackedSize(samples);
    forall i | 0 <= i < |samples|
      ensures Sample(pcm[2 * i], pcm[2 * i + 1]) == samples[i] as real / 32768.0
    {
      PackedAt(samples, i);
    }
  }

  lemma PackedSize(samples: seq<Sample16>)
    ensures |Packed(samples)| == 2 * |samples|
  {
  }

  lemma PackedAt(samples: seq<Sample16>, i: nat)
    requires i < |samples|
    ensures 2 * i + 1 < |Packed(samples)|
    ensures Sample(Packed(samples)[2 * i], Packed(samples)[2 * i + 1]) == samples[i] as real / 32768.0
  {
    hide Sample, LittleEndian;
    SampleInverts(samples[i]);
  }

  /** The samples of the window `i`, with zeros after the last. */
  function Window(samples: seq<Sample16>, i: nat): seq<Sample16> {
    seq(512, j requires 0 <= j < 512 => if i * 512 + j < |samples| then samples[i * 512 + j] else 0)
  }

  lemma WindowIsScaled(samples: seq<Sample16>, i: nat)
    requires i < |IterWindows(Scaled(samples))|
    ensures IterWindows(Scaled(samples))[i] == Scaled(Window(samples, i))
  {
    var s := Scaled(samples);
    if i < |s| / 512 {
      assert IterWindows(s)[i] == s[i * 512..(i + 1) * 512];
    } else {
      var tail := s[|s| / 512 * 512..];
      assert IterWindows(s)[i] == tail + Silence(512 - |tail|);
    }
  }

  lemma ZeroBytes()
    ensures LittleEndian(0) == [0, 0]
  {
  }

  lemma FrameByte(pcm: bytes, i: nat, k: nat)
    requires i * 1024 < |pcm| && k < 1024
    ensures var frame := Padded(Silero.Slice(pcm, i * 1024, i * 1024 + 1024));
      |frame| == 1024 && frame[k] == if i * 1024 + k < |pcm| then pcm[i * 1024 + k] else 0
  {
  }

  lemma PackedByte(samples: seq<Sample16>, i: nat, k: nat)
    requires k < 1024
    ensures var pcm, window := Packed(samples), Packed(Window(samples, i));
      |window| == 1024 && window[k] == if i * 1024 + k < |pcm| then pcm[i * 1024 + k] else 0
  {
    hide LittleEndian;
    ZeroBytes();
    assert (i * 1024 + k) / 2 == i * 512 + k / 2 && (i * 1024 + k) % 2 == k % 2;
  }

  lemma FrameIsPacked(samples: seq<Sample16>, i: nat)
    requires i * 512 < |samples|
    ensures Padded(Silero.Slice(Packed(samples), i * 1024, i * 1024 + 1024)) == Packed(Window(samples, i))
  {
    hide Packed, Window, Padded, Silero.Slice;
    var frame, window := Padded(Silero.Slice(Packed(samples), i * 1024, i * 1024 + 1024)), Packed(Window(samples, i));
    PackedSize(samples);
    FrameByte(Packed(samples), i, 0);
    PackedByte(samples, i, 0);
    forall k | 0 <= k < 1024
      ensures frame[k] == window[k]
    {
      FrameByte(Packed(samples), i, k);
      PackedByte(samples, i, k);
    }
  }

  /**
   Both drivers hand the network the samples 512 at a time, in order, zeros after the last, and the
   segmenter the bytes of the same samples.
   */
  lemma InputsAreWindows(samples: seq<Sample16>)
    ensures var inputs := BatchInputs(Packed(samples));
      StreamInputs(Packed(samples)) == inputs && |inputs| == (|samples| + 511) / 512 &&
      forall i | 0 <= i < |inputs| ::
        inputs[i] == Input(Packed(Window(samples, i)), Scaled(Window(samples, i)))
  {
    hide IterWindows, Silero.Slice, Padded, Window, StreamInputs;
    var pcm := Packed(samples);
    InputsAgreeIff(pcm);
    SamplesAreHeard(samples, []);
    assert pcm + [] == pcm;
    WindowCount(Scaled(samples));
    forall i | 0 <= i < |BatchInputs(pcm)|
      ensures BatchInputs(pcm)[i] == Input(Packed(Window(samples, i)), Scaled(Window(samples, i)))
    {
      WindowIsScaled(samples, i);
      FrameIsPacked(samples, i);
    }
  }

  lemma WindowCount(s: Samples)
    ensures |IterWindows(s)| == (|s| + 511) / 512
  {
  }

  // ---------- The spans ----------

  /** A span of whole frames, neither shorter nor longer than the configuration allows. */
  predicate SpanOk(s: Span) {
    0 <= s.startMs && s.startMs % 32 == 0 && s.endMs % 32 == 0 && 256 <= s.endMs - s.startMs <= 30016
  }

  lemma SliceSpan(h: seq<Frame>, s: Segment, a: nat, b: nat)
    requires Segmenter.Slice(CONFIG, h, s, a, b) && s.endMs - s.startMs <= LongestMs(CONFIG)
    ensures SpanOk(Span(s.startMs, s.endMs)) && s.endMs <= |h| * 32
  {
  }

  lemma {:induction false} FeedsCount<S>(md: Model<S>, inputs: seq<Input>)
    ensures |Run(CONFIG, Feeds(md, inputs)).hist| == |inputs|
  {
    if inputs == [] {
      assert Feeds(md, inputs) == [];
    } else {
      var n := |inputs| - 1;
      FeedsCount(md, inputs[..n]);
      OneMoreInput(md, inputs[..n], inputs[n]);
      assert inputs[..n] + [inputs[n]] == inputs;
    }
  }

  lemma HeardCount<S>(md: Model<S>, inputs: seq<Input>)
    ensures |Heard(md, inputs).hist| == |inputs|
  {
    hide Feeds;
    FeedsCount(md, inputs);
    OneMoreOp(Feeds(md, inputs), Flush);
  }

  /**
   Whatever the network says, the spans of a driver lie in order inside the PCM, do not overlap, begin
   and end on frames, and are between 256 and 30016 ms long.
   */
  lemma SpansAreOrdered<S>(md: Model<S>, inputs: seq<Input>)
    ensures var spans := Spans(Heard(md, inputs).segments);
      (forall i | 0 <= i < |spans| :: SpanOk(spans[i]) && spans[i].endMs <= |inputs| * 32) &&
      forall i, j | 0 <= i < j < |spans| :: spans[i].endMs <= spans[j].startMs
  {
    hide Feeds, SpanOk, Disjoint, Segmenter.InOrder, EndTimes, SegmentEnds, Segmenter.Slice;
    var ops := Feeds(md, inputs) + [Flush];
    var t := Run(CONFIG, ops);
    EveryRunIsSound(CONFIG, ops);
    HeardCount(md, inputs);
    forall i | 0 <= i < |t.segments|
      ensures SpanOk(Spans(t.segments)[i]) && t.segments[i].endMs <= |inputs| * 32
    {
      assert IsSlice(CONFIG, t.hist, t.segments[i]);
      var a: nat, b: nat :| Segmenter.Slice(CONFIG, t.hist, t.segments[i], a, b);
      SliceSpan(t.hist, t.segments[i], a, b);
    }
    forall i, j | 0 <= i < j < |t.segments|
      ensures t.segments[i].endMs <= t.segments[j].startMs
    {
      SegmentsNeverOverlap(CONFIG, ops, i, j);
    }
  }
}
