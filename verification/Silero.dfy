/**
 The two drivers of the Silero detector (src/sandroid/vad/silero.py): `Detect` works on a whole
 buffer, `DriveStream` re-blocks chunks of any size as they arrive.

 The network is an arbitrary function of a window and a recurrent state. A window is 512 samples,
 that is 1024 bytes or 32 ms; both sizes are written as literals to keep the arithmetic linear.
 */
module Silero {
  import opened Bytes
  import opened Segmenter

  const FRAME_MS := 32
  const CONFIG := Configure(16000, FRAME_MS, 300, 600, 250, 30000)

  type Samples = seq<real>

  datatype Model<!S> = Model(infer: (Samples, S) -> (real, S), initial: S, threshold: real)

  datatype Span = Span(startMs: int, endMs: int)

  datatype Error = WrongSampleRate(rate: int)

  // ---------- Samples and windows ----------

  /** A little-endian two's complement 16-bit sample. */
  function Int16(lo: byte, hi: byte): int {
    var u := lo + 256 * hi;
    if u < 32768 then u else u - 65536
  }

  function Sample(lo: byte, hi: byte): real {
    Int16(lo, hi) as real / 32768.0
  }

  /** A dangling last byte is dropped. */
  function PcmToFloat(pcm: bytes): Samples {
    seq(|pcm| / 2, i requires 0 <= i < |pcm| / 2 => Sample(pcm[2 * i], pcm[2 * i + 1]))
  }

  function Silence(n: nat): Samples {
    seq(n, _ => 0.0)
  }

  function IterWindows(samples: Samples): seq<Samples> {
    var complete := |samples| / 512;
    var windows := seq(complete, i requires 0 <= i < complete =>
                       samples[i * 512..(i + 1) * 512]);
    var tail := samples[complete * 512..];
    if tail == [] then windows else windows + [tail + Silence(512 - |tail|)]
  }

  /** What one turn of either loop works on: the bytes for the segmenter, the samples for the network. */
  datatype Input = Input(frame: bytes, window: Samples)

  function Padded(b: bytes): bytes {
    if |b| < 1024 then b + Zeros(1024 - |b|) else b
  }

  /** `pcm[a..b]` as Python slices it: both ends are clamped to the length. */
  function Slice(pcm: bytes, a: nat, b: nat): bytes
    requires a <= b
  {
    pcm[if a < |pcm| then a else |pcm|..if b < |pcm| then b else |pcm|]
  }

  /** The inputs of the whole-buffer driver. */
  function BatchInputs(pcm: bytes): seq<Input> {
    var windows := IterWindows(PcmToFloat(pcm));
    seq(|windows|, i requires 0 <= i < |windows| =>
        Input(Padded(Slice(pcm, i * 1024, i * 1024 + 1024)), windows[i]))
  }

  function Block(pcm: bytes, i: nat): bytes
    requires (i + 1) * 1024 <= |pcm|
  {
    pcm[i * 1024..(i + 1) * 1024]
  }

  function FullBlocks(pcm: bytes): seq<Input> {
    var n := |pcm| / 1024;
    seq(n, i requires 0 <= i < n => Input(Block(pcm, i), PcmToFloat(Block(pcm, i))))
  }

  /** The inputs of the incremental driver, whatever the chunks that `pcm` came in. */
  function StreamInputs(pcm: bytes): seq<Input> {
    var tail := pcm[|pcm| / 1024 * 1024..];
    FullBlocks(pcm) + (if tail == [] then [] else [Input(Padded(tail), PcmToFloat(Padded(tail)))])
  }

  /** The PCM for which the drivers agree: no dangling byte, or a zero one that does not open a window of its own. */
  predicate Agreeable(pcm: bytes) {
    |pcm| % 2 == 0 || (|pcm| % 1024 != 1 && pcm[|pcm| - 1] == 0)
  }

  lemma FloatOfPadded(tail: bytes)
    requires 0 < |tail| < 1024 && |tail| % 2 == 0
    ensures PcmToFloat(Padded(tail)) == PcmToFloat(tail) + Silence(512 - |tail| / 2)
  {
  }

  lemma FloatOfBlock(pcm: bytes, i: nat)
    requires (i + 1) * 1024 <= |pcm|
    ensures PcmToFloat(Block(pcm, i)) == PcmToFloat(pcm)[i * 512..(i + 1) * 512]
  {
    var s, t := PcmToFloat(Block(pcm, i)), PcmToFloat(pcm)[i * 512..(i + 1) * 512];
    assert |s| == |t| == 512;
    forall j | 0 <= j < 512
      ensures s[j] == t[j]
    {
      assert Block(pcm, i)[2 * j] == pcm[2 * (i * 512 + j)];
      assert Block(pcm, i)[2 * j + 1] == pcm[2 * (i * 512 + j) + 1];
    }
  }

  /** The full windows of both drivers are the same for every PCM. */
  lemma FullWindowsAgree(pcm: bytes)
    ensures var n := |pcm| / 1024;
      n <= |BatchInputs(pcm)| && BatchInputs(pcm)[..n] == FullBlocks(pcm)
  {
    var n := |pcm| / 1024;
    assert |PcmToFloat(pcm)| / 512 == n;
    forall i | 0 <= i < n
      ensures BatchInputs(pcm)[i] == FullBlocks(pcm)[i]
    {
      FloatOfBlock(pcm, i);
    }
  }

  /** The last, partial window when the final byte pairs up. */
  lemma PaddedTailAgrees(pcm: bytes)
    requires |Rest(pcm)| > 0 && |Rest(pcm)| % 2 == 0
    ensures var n := |pcm| / 1024;
      |BatchInputs(pcm)| == n + 1 && BatchInputs(pcm)[n] == Input(Padded(Rest(pcm)), PcmToFloat(Padded(Rest(pcm))))
  {
    FloatOfPadded(Rest(pcm));
    LastWindow(pcm);
  }

  /** The partial last window of the whole-buffer driver. */
  lemma LastWindow(pcm: bytes)
    requires |Rest(pcm)| > 1
    ensures var n := |pcm| / 1024; var tail := Rest(pcm);
      |BatchInputs(pcm)| == n + 1 &&
      BatchInputs(pcm)[n] == Input(Padded(tail), PcmToFloat(tail) + Silence(512 - |tail| / 2))
  {
    var n := |pcm| / 1024;
    TailFloats(pcm);
    var tail := PcmToFloat(pcm)[n * 512..];
    assert |tail| == |pcm[n * 1024..]| / 2 && tail != [];
    assert Slice(pcm, n * 1024, n * 1024 + 1024) == pcm[n * 1024..];
  }

  lemma TailFloats(pcm: bytes)
    ensures var n := |pcm| / 1024;
      |PcmToFloat(pcm)| / 512 == n &&
      PcmToFloat(pcm)[n * 512..] == PcmToFloat(pcm[n * 1024..])
  {
    var n := |pcm| / 1024;
    var tail := pcm[n * 1024..];
    var s, t := PcmToFloat(pcm)[n * 512..], PcmToFloat(tail);
    assert |s| == |t|;
    forall j | 0 <= j < |t|
      ensures s[j] == t[j]
    {
      assert tail[2 * j] == pcm[2 * (n * 512 + j)];
      assert tail[2 * j + 1] == pcm[2 * (n * 512 + j) + 1];
    }
  }

  lemma OddPadding(tail: bytes)
    requires |tail| < 1024 && |tail| % 2 == 1
    ensures var half := |tail| / 2;
      PcmToFloat(Padded(tail)) ==
      PcmToFloat(tail) + [Sample(tail[|tail| - 1], 0)] + Silence(512 - half - 1)
  {
  }

  /** A low byte alone stands for zero only if it is zero. */
  lemma LoneByte(a: Samples, lo: byte, n: nat)
    ensures a + Silence(n + 1) == a + [Sample(lo, 0)] + Silence(n) <==> lo == 0
  {
    assert (a + Silence(n + 1))[|a|] == 0.0;
    assert (a + [Sample(lo, 0)] + Silence(n))[|a|] == Sample(lo, 0);
    assert Int16(lo, 0) == lo;
    if lo == 0 {
      assert a + Silence(n + 1) == a + [Sample(lo, 0)] + Silence(n);
    }
  }

  lemma OddWindow(tail: bytes)
    requires |tail| < 1024 && |tail| % 2 == 1
    ensures PcmToFloat(tail) + Silence(512 - |tail| / 2) == PcmToFloat(Padded(tail)) <==> tail[|tail| - 1] == 0
  {
    hide PcmToFloat, Padded, Silence, Sample;
    OddPadding(tail);
    LoneByte(PcmToFloat(tail), tail[|tail| - 1], 512 - |tail| / 2 - 1);
  }

  lemma SameParity(n: int, q: int, r: int)
    requires n == 1024 * q + r
    ensures n % 2 == r % 2
  {
    assert n == 2 * (512 * q) + r;
  }

  /** The bytes after the last full block. */
  function Rest(pcm: bytes): (tail: bytes)
    ensures |tail| == |pcm| % 1024 && |tail| % 2 == |pcm| % 2
    ensures tail != [] ==> tail[|tail| - 1] == pcm[|pcm| - 1]
  {
    var n := |pcm| / 1024 * 1024;
    SameParity(|pcm|, |pcm| / 1024, |pcm| - n);
    pcm[n..]
  }

  /** With a dangling byte the last windows agree exactly when that byte is zero. */
  lemma OddTailAgrees(pcm: bytes)
    requires |Rest(pcm)| % 2 == 1 && |Rest(pcm)| > 1
    ensures var n := |pcm| / 1024;
      |BatchInputs(pcm)| == n + 1 && BatchInputs(pcm)[n].frame == Padded(Rest(pcm)) &&
      (BatchInputs(pcm)[n].window == PcmToFloat(Padded(Rest(pcm))) <==> pcm[|pcm| - 1] == 0)
  {
    hide BatchInputs, IterWindows, PcmToFloat, Padded, Silence, Sample, Rest;
    LastWindow(pcm);
    OddWindow(Rest(pcm));
  }

  /**
   The drivers hand the segmenter and the network the very same inputs exactly when the PCM is
   agreeable. Every even-length PCM is.
   */
  lemma InputsAgreeIff(pcm: bytes)
    ensures BatchInputs(pcm) == StreamInputs(pcm) <==> Agreeable(pcm)
  {
    var n := |pcm| / 1024;
    FullWindowsAgree(pcm);
    TailFloats(pcm);
    if |pcm| % 1024 == 0 {
      assert |BatchInputs(pcm)| == n;
    } else if |pcm| % 1024 == 1 {
      assert |BatchInputs(pcm)| == n && |StreamInputs(pcm)| == n + 1;
    } else {
      if |pcm| % 2 == 0 {
        PaddedTailAgrees(pcm);
      } else {
        OddTailAgrees(pcm);
      }
      assert BatchInputs(pcm) == BatchInputs(pcm)[..n] + [BatchInputs(pcm)[n]];
      assert BatchInputs(pcm) == StreamInputs(pcm) <==> BatchInputs(pcm)[n] == StreamInputs(pcm)[n];
    }
  }

  // ---------- What a list of inputs makes of the network and the segmenter ----------

  function StateAfter<S>(md: Model<S>, inputs: seq<Input>): S {
    if inputs == [] then md.initial
    else md.infer(inputs[|inputs| - 1].window, StateAfter(md, inputs[..|inputs| - 1])).1
  }

  /** The feeds that `inputs` turn into: each frame with the network's verdict on its window. */
  function Feeds<S>(md: Model<S>, inputs: seq<Input>): seq<Op> {
    if inputs == [] then []
    else
      var before, last := inputs[..|inputs| - 1], inputs[|inputs| - 1];
      var p := md.infer(last.window, StateAfter(md, before)).0;
      Feeds(md, before) + [Feed(Frame(last.frame, p >= md.threshold))]
  }

  function Heard<S>(md: Model<S>, inputs: seq<Input>): Trace {
    Run(CONFIG, Feeds(md, inputs) + [Flush])
  }

  function Spans(segments: seq<Segment>): seq<Span> {
    seq(|segments|, i requires 0 <= i < |segments| => Span(segments[i].startMs, segments[i].endMs))
  }

  lemma OneMoreOp(ops: seq<Op>, op: Op)
    ensures Run(CONFIG, ops + [op]) == Advance(CONFIG, Run(CONFIG, ops), op)
  {
    assert (ops + [op])[..|ops|] == ops;
  }

  lemma OneMoreInput<S>(md: Model<S>, inputs: seq<Input>, input: Input)
    ensures var (p, s) := md.infer(input.window, StateAfter(md, inputs));
      var op := Feed(Frame(input.frame, p >= md.threshold));
      StateAfter(md, inputs + [input]) == s &&
      Feeds(md, inputs + [input]) == Feeds(md, inputs) + [op] &&
      Run(CONFIG, Feeds(md, inputs + [input])) == Advance(CONFIG, Run(CONFIG, Feeds(md, inputs)), op)
  {
    assert (inputs + [input])[..|inputs|] == inputs;
    var p := md.infer(input.window, StateAfter(md, inputs)).0;
    OneMoreOp(Feeds(md, inputs), Feed(Frame(input.frame, p >= md.threshold)));
  }

  // ---------- The drivers ----------

  /** The aggregator `agg` has been fed exactly `inputs`, and `state` is the network's state after them. */
  ghost predicate InStep<S>(md: Model<S>, agg: SegmentAggregator, state: S, inputs: seq<Input>)
    reads agg
  {
    agg.Valid() && agg.c == CONFIG && state == StateAfter(md, inputs) &&
    var t := Run(CONFIG, Feeds(md, inputs));
    agg.hist == t.hist && agg.stretch == t.stretch
  }

  /** One turn of either loop: the network on the window, then the segmenter on the frame. */
  method Step<S>(md: Model<S>, agg: SegmentAggregator, input: Input, state: S, ghost inputs: seq<Input>)
    returns (out: Output, next: S)
    requires InStep(md, agg, state, inputs)
    modifies agg
    ensures InStep(md, agg, next, inputs + [input])
    ensures var t, t' := Run(CONFIG, Feeds(md, inputs)), Run(CONFIG, Feeds(md, inputs + [input]));
      t'.events == t.events + out.events && t'.segments == t.segments + out.segments
  {
    var (prob, s) := md.infer(input.window, state);
    out := agg.Feed(input.frame, prob >= md.threshold);
    next := s;
    OneMoreInput(md, inputs, input);
  }

  /** Either driver starts with a fresh segmenter that has been fed nothing. */
  method Begin<S>(md: Model<S>) returns (agg: SegmentAggregator)
    ensures fresh(agg) && InStep(md, agg, md.initial, []) && Yielded(md, [], [])
    ensures Run(CONFIG, Feeds(md, [])) == Trace([], Quiet(0), [], [])
  {
    agg := new SegmentAggregator(16000, FRAME_MS, 300, 600, 250, 30000);
  }

  /** The closing flush of either driver. */
  method Finish<S>(md: Model<S>, agg: SegmentAggregator, ghost state: S, ghost inputs: seq<Input>)
    returns (out: Output)
    requires InStep(md, agg, state, inputs)
    modifies agg
    ensures var t := Run(CONFIG, Feeds(md, inputs));
      Heard(md, inputs).events == t.events + out.events && Heard(md, inputs).segments == t.segments + out.segments
  {
    OneMoreOp(Feeds(md, inputs), Flush);
    out := agg.Flush();
  }

  lemma NothingHeard<S>(md: Model<S>, inputs: seq<Input>)
    requires inputs == []
    ensures Spans(Heard(md, inputs).segments) == []
  {
    OneMoreOp([], Flush);
    assert Feeds(md, inputs) == [];
  }

  lemma NextWindow(pcm: bytes, i: nat)
    requires i < |IterWindows(PcmToFloat(pcm))|
    ensures var inputs := BatchInputs(pcm);
      inputs[..i + 1] == inputs[..i] +
        [Input(Padded(Slice(pcm, i * 1024, i * 1024 + 1024)), IterWindows(PcmToFloat(pcm))[i])]
  {
  }

  lemma NextBlock(p: bytes, n: nat)
    requires (n + 1) * 1024 <= |p|
    ensures FullBlocks(p)[..n + 1] == FullBlocks(p)[..n] + [Input(Block(p, n), PcmToFloat(Block(p, n)))]
  {
  }

  method Detect<S>(md: Model<S>, pcm: bytes, sampleRate: int) returns (r: Result<seq<Span>, Error>)
    ensures r == if sampleRate != 16000 then Err(WrongSampleRate(sampleRate))
                 else Ok(Spans(Heard(md, BatchInputs(pcm)).segments))
  {
    hide InStep, Heard, IterWindows, Feeds;
    if sampleRate != 16000 {
      return Err(WrongSampleRate(sampleRate));
    }
    var windows := IterWindows(PcmToFloat(pcm));
    ghost var inputs := BatchInputs(pcm);
    if windows == [] {
      NothingHeard(md, inputs);
      return Ok([]);
    }
    var aggregator := Begin(md);
    var state := md.initial;
    var spans: seq<Span> := [];
    for i := 0 to |windows|
      invariant fresh(aggregator) && InStep(md, aggregator, state, inputs[..i])
      invariant spans == Spans(Run(CONFIG, Feeds(md, inputs[..i])).segments)
    {
      var frame := Slice(pcm, i * 1024, i * 1024 + 1024);
      if |frame| < 1024 {
        frame := frame + Zeros(1024 - |frame|);
      }
      var out;
      NextWindow(pcm, i);
      out, state := Step(md, aggregator, Input(frame, windows[i]), state, inputs[..i]);
      SpansGrow(Run(CONFIG, Feeds(md, inputs[..i])).segments, out.segments);
      spans := spans + Spans(out.segments);
    }
    assert inputs[..|windows|] == inputs;
    var out := Finish(md, aggregator, state, inputs);
    SpansGrow(Run(CONFIG, Feeds(md, inputs)).segments, out.segments);
    spans := spans + Spans(out.segments);
    r := Ok(spans);
  }

  lemma SpansGrow(a: seq<Segment>, b: seq<Segment>)
    ensures Spans(a + b) == Spans(a) + Spans(b)
  {
  }

  function EventsOf(outs: seq<Output>): seq<Event> {
    if outs == [] then [] else EventsOf(outs[..|outs| - 1]) + outs[|outs| - 1].events
  }

  function SegmentsOf(outs: seq<Output>): seq<Segment> {
    if outs == [] then [] else SegmentsOf(outs[..|outs| - 1]) + outs[|outs| - 1].segments
  }

  lemma OneMoreOutput(outs: seq<Output>, out: Output)
    ensures EventsOf(outs + [out]) == EventsOf(outs) + out.events
    ensures SegmentsOf(outs + [out]) == SegmentsOf(outs) + out.segments
  {
    assert (outs + [out])[..|outs|] == outs;
  }

  /** Bytes already cut into blocks are not affected by what arrives later. */
  lemma BlocksPersist(p: bytes, q: bytes, n: nat)
    requires n * 1024 <= |p|
    ensures FullBlocks(p)[..n] == FullBlocks(p + q)[..n]
  {
    forall i | 0 <= i < n
      ensures Block(p, i) == Block(p + q, i)
    {
    }
  }

  /** `outs` is what the segmenter has yielded for `inputs`. */
  ghost predicate Yielded<S>(md: Model<S>, inputs: seq<Input>, outs: seq<Output>) {
    var t := Run(CONFIG, Feeds(md, inputs));
    EventsOf(outs) == t.events && SegmentsOf(outs) == t.segments
  }

  /** One feed of the stream, with its output yielded. */
  method Yield<S>(md: Model<S>, agg: SegmentAggregator, frame: bytes, state0: S, outs0: seq<Output>,
                  ghost inputs: seq<Input>)
    returns (state: S, outs: seq<Output>)
    requires InStep(md, agg, state0, inputs) && Yielded(md, inputs, outs0)
    modifies agg
    ensures InStep(md, agg, state, inputs + [Input(frame, PcmToFloat(frame))])
    ensures Yielded(md, inputs + [Input(frame, PcmToFloat(frame))], outs)
  {
    var samples := PcmToFloat(frame);
    var out;
    out, state := Step(md, agg, Input(frame, samples), state0, inputs);
    outs := outs0 + [out];
    OneMoreOutput(outs0, out);
  }

  /** The last yield: whatever the flush hands out. */
  method YieldFlush<S>(md: Model<S>, agg: SegmentAggregator, outs0: seq<Output>, ghost state: S,
                       ghost inputs: seq<Input>)
    returns (outs: seq<Output>)
    requires InStep(md, agg, state, inputs) && Yielded(md, inputs, outs0)
    modifies agg
    ensures EventsOf(outs) == Heard(md, inputs).events && SegmentsOf(outs) == Heard(md, inputs).segments
  {
    var out := Finish(md, agg, state, inputs);
    outs := outs0 + [out];
    OneMoreOutput(outs0, out);
  }

  lemma NothingMissed(p: bytes, inputs: seq<Input>)
    requires |inputs| * 1024 <= |p| < (|inputs| + 1) * 1024
    requires inputs == FullBlocks(p)[..|inputs|]
    ensures inputs == FullBlocks(p)
  {
  }

  /** The inner loop: as many whole windows as `residual0` holds; `p` is all that has arrived so far. */
  method Drain<S>(md: Model<S>, agg: SegmentAggregator, residual0: bytes, state0: S, outs0: seq<Output>,
                  ghost p: bytes, ghost fed: seq<Input>)
    returns (residual: bytes, state: S, outs: seq<Output>)
    requires InStep(md, agg, state0, fed) && Yielded(md, fed, outs0)
    requires |fed| * 1024 <= |p| && fed == FullBlocks(p)[..|fed|] && residual0 == p[|fed| * 1024..]
    modifies agg
    ensures |residual| < 1024 && residual == p[|p| / 1024 * 1024..]
    ensures InStep(md, agg, state, FullBlocks(p)) && Yielded(md, FullBlocks(p), outs)
  {
    hide InStep, Yielded;
    residual, state, outs := residual0, state0, outs0;
    ghost var inputs := fed;
    while |residual| >= 1024
      invariant InStep(md, agg, state, inputs) && Yielded(md, inputs, outs)
      invariant |inputs| * 1024 <= |p| && inputs == FullBlocks(p)[..|inputs|]
      invariant residual == p[|inputs| * 1024..]
    {
      var frame := residual[..1024];
      residual := residual[1024..];
      state, outs := Yield(md, agg, frame, state, outs, inputs);
      assert frame == Block(p, |inputs|);
      NextBlock(p, |inputs|);
      inputs := inputs + [Input(frame, PcmToFloat(frame))];
    }
    NothingMissed(p, inputs);
  }

  lemma StreamInputsAreBlocksAndTail(p: bytes)
    ensures var tail := p[|p| / 1024 * 1024..];
      StreamInputs(p) == if tail == [] then FullBlocks(p)
                         else FullBlocks(p) + [Input(Padded(tail), PcmToFloat(Padded(tail)))]
  {
  }

  lemma BlocksBefore(p: bytes, q: bytes)
    ensures |FullBlocks(p)| == |p| / 1024 && |p| / 1024 * 1024 <= |p + q|
    ensures |FullBlocks(p)| <= |FullBlocks(p + q)| && FullBlocks(p) == FullBlocks(p + q)[..|FullBlocks(p)|]
    ensures p == [] ==> FullBlocks(p) == []
  {
    BlocksPersist(p, q, |p| / 1024);
  }

  method DriveStream<S>(md: Model<S>, chunks: seq<bytes>) returns (outs: seq<Output>)
    ensures EventsOf(outs) == Heard(md, StreamInputs(Join(chunks))).events
    ensures SegmentsOf(outs) == Heard(md, StreamInputs(Join(chunks))).segments
  {
    hide InStep, Yielded, Heard, StreamInputs, FullBlocks;
    var aggregator := Begin(md);
    BlocksBefore([], []);
    var state := md.initial;
    var residual: bytes := [];
    outs := [];
    ghost var p: bytes := [];
    for i := 0 to |chunks|
      invariant fresh(aggregator) && p == Join(chunks[..i])
      invariant InStep(md, aggregator, state, FullBlocks(p)) && Yielded(md, FullBlocks(p), outs)
      invariant |residual| < 1024 && residual == p[|p| / 1024 * 1024..]
    {
      assert chunks[..i + 1][..i] == chunks[..i];
      BlocksBefore(p, chunks[i]);
      residual := residual + chunks[i];
      residual, state, outs := Drain(md, aggregator, residual, state, outs, p + chunks[i], FullBlocks(p));
      p := p + chunks[i];
    }
    assert chunks[..|chunks|] == chunks;
    StreamInputsAreBlocksAndTail(p);
    ghost var inputs := FullBlocks(p);
    if residual != [] {
      var padded := residual + Zeros(1024 - |residual|);
      state, outs := Yield(md, aggregator, padded, state, outs, inputs);
      inputs := inputs + [Input(padded, PcmToFloat(padded))];
    }
    outs := YieldFlush(md, aggregator, outs, state, inputs);
  }

  method StreamEvents<S>(md: Model<S>, chunks: seq<bytes>) returns (events: seq<Event>)
    ensures events == Heard(md, StreamInputs(Join(chunks))).events
  {
    var outs := DriveStream(md, chunks);
    events := [];
    for i := 0 to |outs|
      invariant events == EventsOf(outs[..i])
    {
      assert outs[..i + 1][..i] == outs[..i];
      events := events + outs[i].events;
    }
    assert outs[..|outs|] == outs;
  }

  method StreamSegments<S>(md: Model<S>, chunks: seq<bytes>) returns (segments: seq<Segment>)
    ensures segments == Heard(md, StreamInputs(Join(chunks))).segments
  {
    var outs := DriveStream(md, chunks);
    segments := [];
    for i := 0 to |outs|
      invariant segments == SegmentsOf(outs[..i])
    {
      assert outs[..i + 1][..i] == outs[..i];
      segments := segments + outs[i].segments;
    }
    assert outs[..|outs|] == outs;
  }

  /**
   For agreeable PCM, in particular all of even length, the incremental driver finds the segments
   of the whole-buffer driver, however the PCM was cut.
   */
  lemma StreamFindsWhatDetectFinds<S>(md: Model<S>, chunks: seq<bytes>)
    requires Agreeable(Join(chunks))
    ensures Spans(Heard(md, StreamInputs(Join(chunks))).segments)
         == Spans(Heard(md, BatchInputs(Join(chunks))).segments)
  {
    InputsAgreeIff(Join(chunks));
  }

  /** Two independent runs over the same bytes, cut differently, agree on every speech_end. */
  lemma EventAndSegmentStreamsAgree<S>(md: Model<S>, chunks1: seq<bytes>, chunks2: seq<bytes>)
    requires Join(chunks1) == Join(chunks2)
    ensures EndTimes(Heard(md, StreamInputs(Join(chunks1))).events)
         == SegmentEnds(Heard(md, StreamInputs(Join(chunks2))).segments)
  {
    EveryRunIsSound(CONFIG, Feeds(md, StreamInputs(Join(chunks1))) + [Flush]);
  }
}
