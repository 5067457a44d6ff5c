/**
 The speech segmenter (src/sandroid/vad/segmenter.py).

 The class below keeps the counters and buffers of the original. It is proved
 against a reference that has neither: the reference looks only at the whole
 history of frames and at the index where the present quiet or open stretch began.
 */
module Segmenter {
  import opened Bytes

  /** One input of the segmenter: a frame of PCM and the detector's verdict on it. */
  datatype Frame = Frame(pcm: bytes, speech: bool)

  datatype EventKind = SpeechStart | SpeechEnd

  datatype Event = Event(kind: EventKind, atMs: int)

  datatype Segment = Segment(pcm16: bytes, sampleRate: int, startMs: int, endMs: int)

  datatype Output = Output(events: seq<Event>, segments: seq<Segment>)

  const NOTHING := Output([], [])

  datatype Config = Config(
    sampleRate: int, frameMs: int, startFrames: int, silenceFrames: int, minMs: int, maxMs: int)
  {
    predicate Valid() {
      frameMs > 0 && startFrames >= 1 && silenceFrames >= 1
    }
  }

  /** The frame counts derived from the durations; the divisor is positive, so `/` floors as in the source. */
  function Configure(sampleRate: int, frameMs: int, speechStartMs: int, silenceEndMs: int,
                     minMs: int, maxMs: int): (c: Config)
    requires frameMs > 0
    ensures c.Valid()
  {
    Config(sampleRate, frameMs, Max(1, speechStartMs / frameMs), Max(1, silenceEndMs / frameMs), minMs, maxMs)
  }

  // ---------- The reference ----------

  /** `Quiet(since)`: nothing open since frame `since`. `Open(start)`: the open stretch is `h[start..]`. */
  datatype Stretch = Quiet(since: nat) | Open(start: nat)

  function Origin(m: Stretch): nat {
    match m
    case Quiet(z) => z
    case Open(k) => k
  }

  /** The last `count` frames of `h` lie at or after `from` and all carry the verdict `speech`. */
  predicate EndsIn(h: seq<Frame>, from: int, count: int, speech: bool) {
    0 <= from && 0 <= count && from + count <= |h| &&
    forall i | |h| - count <= i < |h| :: h[i].speech == speech
  }

  function Pcm(h: seq<Frame>): bytes {
    if h == [] then [] else Pcm(h[..|h| - 1]) + h[|h| - 1].pcm
  }

  /** What ending the stretch `h[k..]` now hands out: nothing when it is too short or holds no bytes. */
  function Closing(c: Config, h: seq<Frame>, k: nat): Output
    requires k <= |h|
  {
    if (|h| - k) * c.frameMs >= c.minMs && Pcm(h[k..]) != [] then
      Output([Event(SpeechEnd, |h| * c.frameMs)],
             [Segment(Pcm(h[k..]), c.sampleRate, k * c.frameMs, |h| * c.frameMs)])
    else
      NOTHING
  }

  /** The verdict part of a step; `h` already ends in the new frame. */
  function Judge(c: Config, h: seq<Frame>, m: Stretch): (Stretch, Output)
    requires Origin(m) <= |h|
  {
    match m
    case Quiet(z) =>
      if EndsIn(h, z, c.startFrames, true) then
        (Open(|h| - c.startFrames), Output([Event(SpeechStart, (|h| - c.startFrames) * c.frameMs)], []))
      else
        (m, NOTHING)
    case Open(k) =>
      if EndsIn(h, k, c.silenceFrames, false) then (Quiet(|h|), Closing(c, h, k)) else (m, NOTHING)
  }

  /** The length limit: an open stretch that reached it is cut and a new one opens at once. */
  function Limit(c: Config, h: seq<Frame>, m: Stretch): (Stretch, Output)
    requires Origin(m) <= |h|
  {
    if m.Open? && (|h| - m.start) * c.frameMs >= c.maxMs then (Open(|h|), Closing(c, h, m.start))
    else (m, NOTHING)
  }

  function Append(a: Output, b: Output): Output {
    Output(a.events + b.events, a.segments + b.segments)
  }

  function FeedRef(c: Config, h: seq<Frame>, m: Stretch): (Stretch, Output)
    requires c.Valid() && Origin(m) <= |h|
  {
    var (m1, o1) := Judge(c, h, m);
    var (m2, o2) := Limit(c, h, m1);
    (m2, Append(o1, o2))
  }

  function FlushRef(c: Config, h: seq<Frame>, m: Stretch): (Stretch, Output)
    requires Origin(m) <= |h|
  {
    if m.Open? then (Quiet(|h|), Closing(c, h, m.start)) else (m, NOTHING)
  }

  // ---------- The class ----------

  datatype Phase = Silent | Speaking | Trailing

  class SegmentAggregator {
    const c: Config
    var phase: Phase
    var speechCount: int
    var silenceCount: int
    var preBuffer: seq<bytes>
    var segmentBuffer: bytes
    var segmentStartMs: int
    var cursorMs: int

    ghost var hist: seq<Frame>
    ghost var stretch: Stretch

    /** The counters and buffers are exactly what the history `h` and the stretch `m` dictate. */
    ghost predicate Shows(h: seq<Frame>, m: Stretch)
      reads this
    {
      c.Valid() && Origin(m) <= |h| &&
      match m
      case Quiet(z) =>
        phase == Silent && segmentBuffer == [] &&
        speechCount == |preBuffer| < c.startFrames &&
        EndsIn(h, z, |preBuffer|, true) &&
        (|h| - |preBuffer| == z || !h[|h| - |preBuffer| - 1].speech) &&
        forall i | 0 <= i < |preBuffer| :: preBuffer[i] == h[|h| - |preBuffer| + i].pcm
      case Open(k) =>
        phase != Silent && preBuffer == [] && speechCount == 0 &&
        segmentStartMs == k * c.frameMs && segmentBuffer == Pcm(h[k..]) &&
        (phase == Speaking ==> k == |h| || h[|h| - 1].speech) &&
        (phase == Trailing ==>
           1 <= silenceCount < c.silenceFrames && EndsIn(h, k, silenceCount, false) &&
           (|h| - silenceCount == k || h[|h| - silenceCount - 1].speech))
    }

    ghost predicate Valid()
      reads this
    {
      Shows(hist, stretch) && cursorMs == |hist| * c.frameMs
    }

    constructor (sampleRate: int, frameMs: int, speechStartMs: int, silenceEndMs: int, minMs: int, maxMs: int)
      requires frameMs > 0
      ensures Valid() && hist == [] && stretch == Quiet(0)
      ensures c == Configure(sampleRate, frameMs, speechStartMs, silenceEndMs, minMs, maxMs)
    {
      c := Configure(sampleRate, frameMs, speechStartMs, silenceEndMs, minMs, maxMs);
      phase, speechCount, silenceCount := Silent, 0, 0;
      preBuffer, segmentBuffer, segmentStartMs, cursorMs := [], [], 0, 0;
      hist, stretch := [], Quiet(0);
    }

    method Feed(frame: bytes, isSpeech: bool) returns (out: Output)
      requires Valid()
      modifies this
      ensures Valid() && hist == old(hist) + [Frame(frame, isSpeech)]
      ensures (stretch, out) == FeedRef(c, hist, old(stretch))
    {
      hide Pcm, Closing, EndsIn;
      out := NOTHING;
      cursorMs := cursorMs + c.frameMs;
      if phase == Silent {
        out := HandleSilent(frame, isSpeech, out);
      } else if phase == Speaking {
        out := HandleSpeaking(frame, isSpeech, out);
      } else {
        out := HandleTrailing(frame, isSpeech, out);
      }
      ghost var judged := Judge(c, hist, old(stretch));
      assert out == judged.1 by { AppendNothing(judged.1); }
      out := MaybeForceCut(out);
    }

    method Flush() returns (out: Output)
      requires Valid()
      modifies this
      ensures Valid() && hist == old(hist)
      ensures (stretch, out) == FlushRef(c, hist, old(stretch))
    {
      out := NOTHING;
      if phase == Speaking || phase == Trailing {
        out := CloseSegment(out);
        AppendNothing(Closing(c, hist, old(stretch).start));
      }
    }

    method HandleSilent(frame: bytes, isSpeech: bool, out0: Output) returns (out: Output)
      requires Shows(hist, stretch) && phase == Silent && cursorMs == (|hist| + 1) * c.frameMs
      modifies this
      ensures Valid() && hist == old(hist) + [Frame(frame, isSpeech)] && cursorMs == old(cursorMs)
      ensures stretch == Judge(c, hist, old(stretch)).0
      ensures out == Append(out0, Judge(c, hist, old(stretch)).1)
    {
      hide Pcm, Closing;
      out := out0;
      hist := hist + [Frame(frame, isSpeech)];
      ghost var z := stretch.since;
      if !isSpeech {
        speechCount := 0;
        preBuffer := [];
        RunTooShort(hist, z, 0, c.startFrames, true);
        return;
      }
      preBuffer := preBuffer + [frame];
      speechCount := speechCount + 1;
      AllSpeech(old(hist), z, |preBuffer| - 1, frame);
      if speechCount >= c.startFrames {
        out := StartSpeaking(out);
      } else {
        RunTooShort(hist, z, |preBuffer|, c.startFrames, true);
      }
    }

    /** The branch of `HandleSilent` that flips to SPEAKING: the pre-roll becomes the segment so far. */
    method StartSpeaking(out0: Output) returns (out: Output)
      requires c.Valid() && stretch.Quiet? && cursorMs == |hist| * c.frameMs
      requires |preBuffer| == c.startFrames && EndsIn(hist, stretch.since, c.startFrames, true)
      requires forall i | 0 <= i < |preBuffer| :: preBuffer[i] == hist[|hist| - |preBuffer| + i].pcm
      modifies this
      ensures Valid() && hist == old(hist) && cursorMs == old(cursorMs)
      ensures stretch == Judge(c, hist, old(stretch)).0
      ensures out == Append(out0, Judge(c, hist, old(stretch)).1)
    {
      hide Pcm, Closing;
      ghost var k := |hist| - |preBuffer|;
      var startMs := cursorMs - |preBuffer| * c.frameMs;
      assert startMs == k * c.frameMs >= 0 by {
        Distribute(|hist|, |preBuffer|, c.frameMs);
        Scale(0, k, c.frameMs);
      }
      segmentStartMs := Max(0, startMs);
      segmentBuffer := Joined(preBuffer, hist[k..]);
      preBuffer := [];
      speechCount := 0;
      phase := Speaking;
      stretch := Open(k);
      out := out0.(events := out0.events + [Event(SpeechStart, segmentStartMs)]);
      assert out0.segments + [] == out0.segments;
    }

    /** The loop that copies the pre-roll into the segment buffer. */
    static method Joined(preBuffer: seq<bytes>, ghost h: seq<Frame>) returns (buffer: bytes)
      requires |preBuffer| == |h| && forall i | 0 <= i < |h| :: preBuffer[i] == h[i].pcm
      ensures buffer == Pcm(h)
    {
      buffer := [];
      var i := 0;
      while i < |preBuffer|
        invariant 0 <= i <= |preBuffer|
        invariant buffer == Pcm(h[..i])
      {
        assert h[..i + 1][..i] == h[..i];
        buffer := buffer + preBuffer[i];
        i := i + 1;
      }
      assert h[..i] == h;
    }

    method HandleSpeaking(frame: bytes, isSpeech: bool, out0: Output) returns (out: Output)
      requires Shows(hist, stretch) && phase == Speaking && cursorMs == (|hist| + 1) * c.frameMs
      modifies this
      ensures Valid() && hist == old(hist) + [Frame(frame, isSpeech)] && cursorMs == old(cursorMs)
      ensures stretch == Judge(c, hist, old(stretch)).0
      ensures out == Append(out0, Judge(c, hist, old(stretch)).1)
    {
      hide Pcm, Closing;
      out := out0;
      PcmGrows(hist, stretch.start, Frame(frame, isSpeech));
      hist := hist + [Frame(frame, isSpeech)];
      segmentBuffer := segmentBuffer + frame;
      if isSpeech {
        return;
      }
      phase := Trailing;
      silenceCount := 1;
      if silenceCount >= c.silenceFrames {
        out := CloseSegment(out);
      }
    }

    method HandleTrailing(frame: bytes, isSpeech: bool, out0: Output) returns (out: Output)
      requires Shows(hist, stretch) && phase == Trailing && cursorMs == (|hist| + 1) * c.frameMs
      modifies this
      ensures Valid() && hist == old(hist) + [Frame(frame, isSpeech)] && cursorMs == old(cursorMs)
      ensures stretch == Judge(c, hist, old(stretch)).0
      ensures out == Append(out0, Judge(c, hist, old(stretch)).1)
    {
      hide Pcm, Closing;
      out := out0;
      PcmGrows(hist, stretch.start, Frame(frame, isSpeech));
      hist := hist + [Frame(frame, isSpeech)];
      segmentBuffer := segmentBuffer + frame;
      if isSpeech {
        phase := Speaking;
        silenceCount := 0;
        return;
      }
      silenceCount := silenceCount + 1;
      if silenceCount >= c.silenceFrames {
        out := CloseSegment(out);
      }
    }

    method MaybeForceCut(out0: Output) returns (out: Output)
      requires Valid()
      modifies this
      ensures Valid() && hist == old(hist)
      ensures stretch == Limit(c, hist, old(stretch)).0
      ensures out == Append(out0, Limit(c, hist, old(stretch)).1)
    {
      out := out0;
      if phase == Silent {
        return;
      }
      var duration := cursorMs - segmentStartMs;
      Distribute(|hist|, stretch.start, c.frameMs);
      if duration < c.maxMs {
        return;
      }
      out := EmitSegment(out, cursorMs, Speaking);
      segmentStartMs := cursorMs;
      stretch := Open(|hist|);
    }

    method CloseSegment(out0: Output) returns (out: Output)
      requires c.Valid() && stretch.Open? && stretch.start <= |hist| && cursorMs == |hist| * c.frameMs
      requires segmentStartMs == stretch.start * c.frameMs && segmentBuffer == Pcm(hist[stretch.start..])
      requires preBuffer == [] && speechCount == 0
      modifies this
      ensures Valid() && hist == old(hist) && cursorMs == old(cursorMs)
      ensures stretch == Quiet(|hist|)
      ensures out == Append(out0, Closing(c, hist, old(stretch).start))
    {
      out := EmitSegment(out0, cursorMs, Silent);
      silenceCount := 0;
      stretch := Quiet(|hist|);
    }

    method EmitSegment(out0: Output, endMs: int, kindAfter: Phase) returns (out: Output)
      requires stretch.Open? && stretch.start <= |hist| && endMs == |hist| * c.frameMs
      requires segmentStartMs == stretch.start * c.frameMs && segmentBuffer == Pcm(hist[stretch.start..])
      modifies this`segmentBuffer, this`phase
      ensures segmentBuffer == [] && phase == kindAfter
      ensures out == Append(out0, Closing(c, hist, stretch.start))
    {
      out := out0;
      var duration := endMs - segmentStartMs;
      Distribute(|hist|, stretch.start, c.frameMs);
      if duration >= c.minMs && segmentBuffer != [] {
        out := out.(segments := out.segments + [Segment(segmentBuffer, c.sampleRate, segmentStartMs, endMs)]);
        out := out.(events := out.events + [Event(SpeechEnd, endMs)]);
      }
      segmentBuffer := [];
      phase := kindAfter;
    }
  }

  lemma AppendNothing(o: Output)
    ensures Append(NOTHING, o) == o
  {
    assert [] + o.events == o.events && [] + o.segments == o.segments;
  }

  /** One more speech frame lengthens the speech run at the end of the history by one. */
  lemma AllSpeech(h: seq<Frame>, z: nat, n: nat, pcm: bytes)
    requires EndsIn(h, z, n, true)
    ensures EndsIn(h + [Frame(pcm, true)], z, n + 1, true)
  {
  }

  /** A maximal run shorter than `count` rules out a run of `count`. */
  lemma RunTooShort(h: seq<Frame>, z: nat, n: int, count: int, speech: bool)
    requires EndsIn(h, z, n, speech) && n < count
    requires |h| - n == z || h[|h| - n - 1].speech != speech
    ensures !EndsIn(h, z, count, speech)
  {
  }

  lemma Distribute(a: int, b: int, f: int)
    ensures (a - b) * f == a * f - b * f
  {
  }

  lemma OneMore(n: int, f: int)
    ensures (n + 1) * f == n * f + f
  {
  }

  lemma Scale(a: int, b: int, f: int)
    requires a <= b && 0 <= f
    ensures a * f <= b * f
  {
  }

  lemma PcmGrows(h: seq<Frame>, k: nat, f: Frame)
    requires k <= |h|
    ensures Pcm((h + [f])[k..]) == Pcm(h[k..]) + f.pcm
  {
    assert (h + [f])[k..] == h[k..] + [f];
    assert (h[k..] + [f])[..|h[k..]|] == h[k..];
  }

  // ---------- Whole runs ----------

  datatype Op = Feed(frame: Frame) | Flush

  datatype Trace = Trace(hist: seq<Frame>, stretch: Stretch, events: seq<Event>, segments: seq<Segment>)

  /** Everything a fresh segmenter has seen and handed out after `ops`, in any mix of feeds and flushes. */
  function Run(c: Config, ops: seq<Op>): (t: Trace)
    requires c.Valid()
    ensures Origin(t.stretch) <= |t.hist|
  {
    if ops == [] then Trace([], Quiet(0), [], []) else Advance(c, Run(c, ops[..|ops| - 1]), ops[|ops| - 1])
  }

  function Advance(c: Config, t: Trace, op: Op): (t': Trace)
    requires c.Valid() && Origin(t.stretch) <= |t.hist|
    ensures Origin(t'.stretch) <= |t'.hist|
  {
    var h := if op.Feed? then t.hist + [op.frame] else t.hist;
    var (m, out) := if op.Feed? then FeedRef(c, h, t.stretch) else FlushRef(c, h, t.stretch);
    Trace(h, m, t.events + out.events, t.segments + out.segments)
  }

  /** Segment `s` is, bytes and times alike, the stretch of frames `a..b` of the history. */
  predicate Slice(c: Config, h: seq<Frame>, s: Segment, a: nat, b: nat) {
    a < b <= |h| && s == Segment(Pcm(h[a..b]), c.sampleRate, a * c.frameMs, b * c.frameMs) &&
    (b - a) * c.frameMs >= c.minMs
  }

  ghost predicate IsSlice(c: Config, h: seq<Frame>, s: Segment) {
    exists a: nat, b: nat :: Slice(c, h, s, a, b)
  }

  ghost predicate AllSlices(c: Config, h: seq<Frame>, segments: seq<Segment>) {
    forall i | 0 <= i < |segments| :: IsSlice(c, h, segments[i])
  }

  /** Each segment ends at or before the start of the next, and the last one at or before `limit`. */
  predicate Disjoint(segments: seq<Segment>, limit: int) {
    segments != [] ==>
      var s := segments[|segments| - 1];
      s.startMs <= s.endMs <= limit && Disjoint(segments[..|segments| - 1], s.startMs)
  }

  /** Event times never go back; the first is at least 0, the last at most `limit`. */
  predicate InOrder(events: seq<Event>, limit: int) {
    events != [] ==>
      var e := events[|events| - 1];
      0 <= e.atMs <= limit && InOrder(events[..|events| - 1], e.atMs)
  }

  /** The times of the speech_end events, in order. */
  function EndTimes(events: seq<Event>): seq<int> {
    if events == [] then []
    else
      var e := events[|events| - 1];
      EndTimes(events[..|events| - 1]) + (if e.kind == SpeechEnd then [e.atMs] else [])
  }

  function SegmentEnds(segments: seq<Segment>): seq<int> {
    if segments == [] then [] else SegmentEnds(segments[..|segments| - 1]) + [segments[|segments| - 1].endMs]
  }

  function LongestMs(c: Config): int {
    Max(c.startFrames * c.frameMs, c.maxMs + c.frameMs - 1)
  }

  predicate NoneLonger(c: Config, segments: seq<Segment>) {
    forall i | 0 <= i < |segments| :: segments[i].endMs - segments[i].startMs <= LongestMs(c)
  }

  lemma SlicePersists(c: Config, h: seq<Frame>, f: Frame, s: Segment, a: nat, b: nat)
    requires Slice(c, h, s, a, b)
    ensures Slice(c, h + [f], s, a, b)
  {
    assert (h + [f])[a..b] == h[a..b];
  }

  lemma SlicesPersist(c: Config, h: seq<Frame>, f: Frame, segments: seq<Segment>)
    requires AllSlices(c, h, segments)
    ensures AllSlices(c, h + [f], segments)
  {
    forall i | 0 <= i < |segments|
      ensures IsSlice(c, h + [f], segments[i])
    {
      var a: nat, b: nat :| Slice(c, h, segments[i], a, b);
      SlicePersists(c, h, f, segments[i], a, b);
    }
  }

  /** What every run keeps; the last part bounds the open stretch by `LongestMs` only. */
  ghost predicate Loose(c: Config, t: Trace) {
    Origin(t.stretch) <= |t.hist| &&
    AllSlices(c, t.hist, t.segments) &&
    Disjoint(t.segments, Origin(t.stretch) * c.frameMs) &&
    InOrder(t.events, Origin(t.stretch) * c.frameMs) &&
    EndTimes(t.events) == SegmentEnds(t.segments) &&
    (c.maxMs > 0 ==>
       NoneLonger(c, t.segments) && (t.stretch.Open? ==> (|t.hist| - t.stretch.start) * c.frameMs <= LongestMs(c)))
  }

  ghost predicate Sound(c: Config, t: Trace) {
    Loose(c, t) &&
    (c.maxMs > 0 && t.stretch.Open? ==> (|t.hist| - t.stretch.start) * c.frameMs < c.maxMs)
  }

  /** Ending the open stretch of `t` now, with `m` as the stretch that follows. */
  function Ended(c: Config, t: Trace, m: Stretch): Trace
    requires t.stretch.Open? && t.stretch.start <= |t.hist|
  {
    var out := Closing(c, t.hist, t.stretch.start);
    Trace(t.hist, m, t.events + out.events, t.segments + out.segments)
  }

  /** Opening a stretch at frame `k`. */
  function Begun(c: Config, t: Trace, k: nat): Trace {
    Trace(t.hist, Open(k), t.events + [Event(SpeechStart, k * c.frameMs)], t.segments)
  }

  lemma OneMoreSegment(segments: seq<Segment>, s: Segment, limit: int)
    requires Disjoint(segments, s.startMs) && s.startMs <= s.endMs <= limit
    ensures Disjoint(segments + [s], limit)
    ensures SegmentEnds(segments + [s]) == SegmentEnds(segments) + [s.endMs]
  {
    assert (segments + [s])[..|segments|] == segments;
  }

  lemma OneMoreEvent(events: seq<Event>, e: Event, limit: int)
    requires InOrder(events, e.atMs) && 0 <= e.atMs <= limit
    ensures InOrder(events + [e], limit)
    ensures EndTimes(events + [e]) == EndTimes(events) + (if e.kind == SpeechEnd then [e.atMs] else [])
  {
    assert (events + [e])[..|events|] == events;
  }

  lemma LimitsGrow(segments: seq<Segment>, events: seq<Event>, limit: int, more: int)
    requires Disjoint(segments, limit) && InOrder(events, limit) && limit <= more
    ensures Disjoint(segments, more) && InOrder(events, more)
  {
  }

  lemma EndedOrder(c: Config, t: Trace, m: Stretch)
    requires c.Valid() && t.stretch.Open? && t.stretch.start <= |t.hist| && Origin(m) == |t.hist|
    requires Disjoint(t.segments, t.stretch.start * c.frameMs) && InOrder(t.events, t.stretch.start * c.frameMs)
    requires EndTimes(t.events) == SegmentEnds(t.segments)
    ensures var t' := Ended(c, t, m);
      Disjoint(t'.segments, |t.hist| * c.frameMs) && InOrder(t'.events, |t.hist| * c.frameMs) &&
      EndTimes(t'.events) == SegmentEnds(t'.segments)
  {
    hide Pcm, Disjoint, InOrder, EndTimes, SegmentEnds;
    var k, n, out := t.stretch.start, |t.hist|, Closing(c, t.hist, t.stretch.start);
    Scale(0, k, c.frameMs);
    Scale(k, n, c.frameMs);
    LimitsGrow(t.segments, t.events, k * c.frameMs, n * c.frameMs);
    if out == NOTHING {
      assert t.segments + out.segments == t.segments && t.events + out.events == t.events;
    } else {
      OneMoreSegment(t.segments, out.segments[0], n * c.frameMs);
      OneMoreEvent(t.events, out.events[0], n * c.frameMs);
    }
  }

  lemma EndedSlices(c: Config, t: Trace, m: Stretch)
    requires t.stretch.Open? && t.stretch.start <= |t.hist|
    requires AllSlices(c, t.hist, t.segments)
    ensures AllSlices(c, t.hist, Ended(c, t, m).segments)
  {
    var h, k, out := t.hist, t.stretch.start, Closing(c, t.hist, t.stretch.start);
    if out != NOTHING {
      assert h[k..|h|] == h[k..];
      assert Slice(c, h, out.segments[0], k, |h|);
    }
  }

  lemma EndedLength(c: Config, t: Trace, m: Stretch)
    requires c.Valid() && t.stretch.Open? && t.stretch.start <= |t.hist|
    requires NoneLonger(c, t.segments) && (|t.hist| - t.stretch.start) * c.frameMs <= LongestMs(c)
    ensures NoneLonger(c, Ended(c, t, m).segments) && 0 <= LongestMs(c)
  {
    Distribute(|t.hist|, t.stretch.start, c.frameMs);
    Scale(0, |t.hist| - t.stretch.start, c.frameMs);
  }

  lemma EndedKeeps(c: Config, t: Trace, m: Stretch)
    requires c.Valid() && Loose(c, t) && t.stretch.Open? && Origin(m) == |t.hist|
    ensures Loose(c, Ended(c, t, m))
  {
    hide Closing, Disjoint, InOrder, EndTimes, SegmentEnds, AllSlices, NoneLonger, LongestMs;
    EndedSlices(c, t, m);
    EndedOrder(c, t, m);
    if c.maxMs > 0 {
      EndedLength(c, t, m);
    }
  }

  lemma BegunKeeps(c: Config, t: Trace, k: nat)
    requires c.Valid() && Loose(c, t) && t.stretch.Quiet? && t.stretch.since <= k <= |t.hist|
    requires |t.hist| - k == c.startFrames
    ensures Loose(c, Begun(c, t, k))
  {
    hide Disjoint, InOrder, EndTimes, SegmentEnds, AllSlices, NoneLonger;
    Scale(t.stretch.since, k, c.frameMs);
    Scale(0, k, c.frameMs);
    LimitsGrow(t.segments, t.events, t.stretch.since * c.frameMs, k * c.frameMs);
    OneMoreEvent(t.events, Event(SpeechStart, k * c.frameMs), k * c.frameMs);
  }

  lemma ExtendedKeeps(c: Config, t: Trace, f: Frame)
    requires c.Valid() && Sound(c, t)
    ensures Loose(c, t.(hist := t.hist + [f]))
  {
    SlicesPersist(c, t.hist, f, t.segments);
    if t.stretch.Open? {
      OneMore(|t.hist| - t.stretch.start, c.frameMs);
      assert |t.hist + [f]| - t.stretch.start == |t.hist| - t.stretch.start + 1;
    }
  }

  /** The trace after the verdict on a new frame, before the length limit is looked at. */
  function Judged(c: Config, t: Trace): Trace
    requires Origin(t.stretch) <= |t.hist|
  {
    var m := Judge(c, t.hist, t.stretch).0;
    if m == t.stretch then t else if m.Open? then Begun(c, t, m.start) else Ended(c, t, m)
  }

  function Limited(c: Config, t: Trace): Trace
    requires Origin(t.stretch) <= |t.hist|
  {
    if t.stretch.Open? && (|t.hist| - t.stretch.start) * c.frameMs >= c.maxMs then Ended(c, t, Open(|t.hist|)) else t
  }

  lemma JudgedAgrees(c: Config, t: Trace)
    requires c.Valid() && Origin(t.stretch) <= |t.hist|
    ensures var (m, out) := Judge(c, t.hist, t.stretch);
      Judged(c, t) == Trace(t.hist, m, t.events + out.events, t.segments + out.segments)
  {
    assert t.events + [] == t.events && t.segments + [] == t.segments;
  }

  lemma LimitedAgrees(c: Config, t: Trace)
    requires Origin(t.stretch) <= |t.hist|
    ensures var (m, out) := Limit(c, t.hist, t.stretch);
      Limited(c, t) == Trace(t.hist, m, t.events + out.events, t.segments + out.segments)
  {
    assert t.events + [] == t.events && t.segments + [] == t.segments;
  }

  lemma FeedInStages(c: Config, t: Trace, f: Frame)
    requires c.Valid() && Origin(t.stretch) <= |t.hist|
    ensures var t1 := t.(hist := t.hist + [f]);
      Origin(Judged(c, t1).stretch) <= |t1.hist| && Advance(c, t, Feed(f)) == Limited(c, Judged(c, t1))
  {
    var t1 := t.(hist := t.hist + [f]);
    JudgedAgrees(c, t1);
    var (m1, o1) := Judge(c, t1.hist, t1.stretch);
    LimitedAgrees(c, Judged(c, t1));
    var o2 := Limit(c, t1.hist, m1).1;
    assert t.events + o1.events + o2.events == t.events + (o1.events + o2.events);
    assert t.segments + o1.segments + o2.segments == t.segments + (o1.segments + o2.segments);
  }

  lemma JudgedKeeps(c: Config, t: Trace)
    requires c.Valid() && Loose(c, t)
    ensures Loose(c, Judged(c, t))
  {
    var m := Judge(c, t.hist, t.stretch).0;
    if m != t.stretch {
      if m.Open? {
        BegunKeeps(c, t, m.start);
      } else {
        EndedKeeps(c, t, m);
      }
    }
  }

  lemma LimitedKeeps(c: Config, t: Trace)
    requires c.Valid() && Loose(c, t)
    ensures Sound(c, Limited(c, t))
  {
    hide Closing, Disjoint, InOrder, EndTimes, SegmentEnds, AllSlices, NoneLonger;
    if Limited(c, t) != t {
      EndedKeeps(c, t, Open(|t.hist|));
    }
  }

  lemma AdvanceKeeps(c: Config, t: Trace, op: Op)
    requires c.Valid() && Sound(c, t)
    ensures Sound(c, Advance(c, t, op))
  {
    match op {
      case Feed(f) =>
        FeedInStages(c, t, f);
        ExtendedKeeps(c, t, f);
        JudgedKeeps(c, t.(hist := t.hist + [f]));
        LimitedKeeps(c, Judged(c, t.(hist := t.hist + [f])));
      case Flush =>
        if t.stretch.Open? {
          EndedKeeps(c, t, Quiet(|t.hist|));
        } else {
          assert t.events + [] == t.events && t.segments + [] == t.segments;
        }
    }
  }

  /**
   On every run: each segment is exactly the frames between its two times, both multiples of the
   frame length; segments are ordered and disjoint; speech_end events and segments match one to
   one; event times never decrease; with a positive limit no segment exceeds `LongestMs`.
   */
  lemma {:induction false} EveryRunIsSound(c: Config, ops: seq<Op>)
    requires c.Valid()
    ensures Sound(c, Run(c, ops))
  {
    if ops != [] {
      EveryRunIsSound(c, ops[..|ops| - 1]);
      AdvanceKeeps(c, Run(c, ops[..|ops| - 1]), ops[|ops| - 1]);
    }
  }

  lemma {:induction false} DisjointMeans(segments: seq<Segment>, limit: int, i: nat, j: nat)
    requires Disjoint(segments, limit) && i < j < |segments|
    ensures segments[i].startMs <= segments[i].endMs <= segments[j].startMs <= segments[j].endMs <= limit
  {
    var n := |segments| - 1;
    if j < n {
      DisjointMeans(segments[..n], segments[n].startMs, i, j);
    } else if i + 1 < n {
      DisjointMeans(segments[..n], segments[n].startMs, i, n - 1);
    }
  }

  lemma {:induction false} InOrderMeans(events: seq<Event>, limit: int, i: nat, j: nat)
    requires InOrder(events, limit) && i <= j < |events|
    ensures 0 <= events[i].atMs <= events[j].atMs <= limit
  {
    var n := |events| - 1;
    if j < n {
      InOrderMeans(events[..n], events[n].atMs, i, j);
    } else if i < n {
      InOrderMeans(events[..n], events[n].atMs, i, n - 1);
    }
  }

  /** The reading of `EveryRunIsSound` for any two segments of a run. */
  lemma SegmentsNeverOverlap(c: Config, ops: seq<Op>, i: nat, j: nat)
    requires c.Valid() && i < j < |Run(c, ops).segments|
    ensures var s := Run(c, ops).segments; 0 <= s[i].startMs <= s[i].endMs <= s[j].startMs
  {
    EveryRunIsSound(c, ops);
    var t := Run(c, ops);
    DisjointMeans(t.segments, Origin(t.stretch) * c.frameMs, i, j);
    var a: nat, b: nat :| Slice(c, t.hist, t.segments[i], a, b);
    Scale(0, a, c.frameMs);
  }

  /** Event times never go back, and never before the start. */
  lemma EventTimesNeverGoBack(c: Config, ops: seq<Op>, i: nat, j: nat)
    requires c.Valid() && i < j < |Run(c, ops).events|
    ensures var e := Run(c, ops).events; 0 <= e[i].atMs <= e[j].atMs
  {
    EveryRunIsSound(c, ops);
    var t := Run(c, ops);
    InOrderMeans(t.events, Origin(t.stretch) * c.frameMs, i, j);
  }

  /** No run of `count` frames with verdict `speech` lies inside `h[from..]`. */
  predicate NoRun(h: seq<Frame>, from: nat, count: int, speech: bool) {
    forall n | 0 <= n <= |h| :: !EndsIn(h[..n], from, count, speech)
  }

  lemma RunEndsAtTheEnd(h: seq<Frame>, f: Frame, from: nat, count: int, speech: bool)
    requires NoRun(h, from, count, speech) && !EndsIn(h + [f], from, count, speech)
    ensures NoRun(h + [f], from, count, speech)
  {
    forall n | 0 <= n <= |h| + 1
      ensures !EndsIn((h + [f])[..n], from, count, speech)
    {
      assert (h + [f])[..n] == if n <= |h| then h[..n] else h + [f];
    }
  }

  lemma NoSilenceInSpeech(h: seq<Frame>, from: nat, count: int)
    requires count >= 1 && EndsIn(h, from, |h| - from, true)
    ensures NoRun(h, from, count, false)
  {
    forall n | 0 <= n <= |h|
      ensures !EndsIn(h[..n], from, count, false)
    {
      if from + count <= n {
        assert h[..n][n - 1] == h[n - 1];
      }
    }
  }

  /**
   A quiet stretch never contains the run of speech frames that should have opened a segment, and
   an open stretch never contains the run of non-speech frames that should have closed it: starts
   and natural closes happen at the first frame that completes the run.
   */
  lemma {:induction false} NoBoundaryIsMissed(c: Config, ops: seq<Op>)
    requires c.Valid()
    ensures var t := Run(c, ops);
      match t.stretch
      case Quiet(z) => NoRun(t.hist, z, c.startFrames, true)
      case Open(k) => NoRun(t.hist, k, c.silenceFrames, false)
  {
    if ops != [] {
      NoBoundaryIsMissed(c, ops[..|ops| - 1]);
      var t, op := Run(c, ops[..|ops| - 1]), ops[|ops| - 1];
      if op.Feed? {
        var h := t.hist + [op.frame];
        var m := Judge(c, h, t.stretch).0;
        if t.stretch == m {
          match m
          case Quiet(z) => RunEndsAtTheEnd(t.hist, op.frame, z, c.startFrames, true);
          case Open(k) => RunEndsAtTheEnd(t.hist, op.frame, k, c.silenceFrames, false);
        } else if m.Open? {
          NoSilenceInSpeech(h, m.start, c.silenceFrames);
        }
      }
    }
  }

  // ---------- What one more input does to a run ----------

  /** The frame counts are the whole frames that fit in the durations, but at least one. */
  lemma ConfigureFits(sampleRate: int, frameMs: int, speechStartMs: int, silenceEndMs: int, minMs: int, maxMs: int)
    requires frameMs > 0
    ensures var c := Configure(sampleRate, frameMs, speechStartMs, silenceEndMs, minMs, maxMs);
      c.sampleRate == sampleRate && c.frameMs == frameMs && c.minMs == minMs && c.maxMs == maxMs &&
      Fits(c.startFrames, frameMs, speechStartMs) && Fits(c.silenceFrames, frameMs, silenceEndMs)
  {
    WholeFrames(frameMs, speechStartMs);
    WholeFrames(frameMs, silenceEndMs);
  }

  predicate Fits(count: int, frameMs: int, durationMs: int) {
    count >= 1 && durationMs < (count + 1) * frameMs && (count > 1 ==> count * frameMs <= durationMs)
  }

  lemma WholeFrames(frameMs: int, durationMs: int)
    requires frameMs > 0
    ensures Fits(Max(1, durationMs / frameMs), frameMs, durationMs)
  {
    var q := durationMs / frameMs;
    assert durationMs == q * frameMs + durationMs % frameMs;
    OneMore(q, frameMs);
    if q < 1 {
      Scale(q, 0, frameMs);
    }
  }

  /** The bytes of frames in a row are theirs, joined. */
  lemma {:induction false} PcmJoins(a: seq<Frame>, b: seq<Frame>, f: Frame)
    ensures Pcm(a + b) == Pcm(a) + Pcm(b) && Pcm([f]) == f.pcm
  {
    assert [f][..0] == [] && [] + f.pcm == f.pcm;
    if b == [] {
      assert a + b == a;
    } else {
      var n := |b| - 1;
      assert (a + b)[..|a + b| - 1] == a + b[..n];
      PcmJoins(a, b[..n], f);
    }
  }

  lemma {:induction false} NoBytesIff(h: seq<Frame>)
    ensures Pcm(h) != [] <==> exists i :: 0 <= i < |h| && h[i].pcm != []
  {
    if h != [] {
      var n := |h| - 1;
      NoBytesIff(h[..n]);
      if i :| 0 <= i < |h| && h[i].pcm != [] {
        assert i < n ==> h[..n][i].pcm != [];
      }
    }
  }

  /** `out` is the whole of frames `k..` as a segment, with its end, if that is long enough and holds bytes. */
  ghost predicate HandsOut(c: Config, h: seq<Frame>, k: nat, out: Output)
    requires k <= |h|
  {
    if (|h| - k) * c.frameMs >= c.minMs && exists i :: k <= i < |h| && h[i].pcm != [] then
      out.events == [Event(SpeechEnd, |h| * c.frameMs)] &&
      out.segments == [Segment(Pcm(h[k..]), c.sampleRate, k * c.frameMs, |h| * c.frameMs)]
    else out == NOTHING
  }

  lemma ClosingHandsOut(c: Config, h: seq<Frame>, k: nat)
    requires k <= |h|
    ensures HandsOut(c, h, k, Closing(c, h, k))
  {
    hide Pcm;
    NoBytesIff(h[k..]);
    if i :| k <= i < |h| && h[i].pcm != [] {
      assert h[k..][i - k].pcm != [];
    }
    if i :| 0 <= i < |h[k..]| && h[k..][i].pcm != [] {
      assert h[k + i].pcm != [];
    }
  }

  /** What a trace hands out on top of an earlier one. */
  ghost predicate Adds(t: Trace, more: Output, t': Trace) {
    t'.events == t.events + more.events && t'.segments == t.segments + more.segments
  }

  /** The output that the next input adds. */
  function Next(c: Config, t: Trace, op: Op): Output
    requires c.Valid() && Origin(t.stretch) <= |t.hist|
  {
    if op.Feed? then FeedRef(c, t.hist + [op.frame], t.stretch).1 else FlushRef(c, t.hist, t.stretch).1
  }

  lemma RunNext(c: Config, ops: seq<Op>, op: Op)
    requires c.Valid()
    ensures Run(c, ops + [op]) == Advance(c, Run(c, ops), op)
    ensures Adds(Run(c, ops), Next(c, Run(c, ops), op), Run(c, ops + [op]))
  {
    hide FeedRef, FlushRef;
    assert (ops + [op])[..|ops|] == ops;
  }

  /** An opening, and the cut that may follow at once. */
  lemma OpensAt(c: Config, h: seq<Frame>, z: nat)
    requires c.Valid() && z <= |h| && EndsIn(h, z, c.startFrames, true)
    ensures var k := |h| - c.startFrames;
      var (m, more) := FeedRef(c, h, Quiet(z));
      if c.startFrames * c.frameMs < c.maxMs then
        m == Open(k) && more == Output([Event(SpeechStart, k * c.frameMs)], [])
      else
        m == Open(|h|) && more.events != [] && more.events[0] == Event(SpeechStart, k * c.frameMs) &&
        HandsOut(c, h, k, Output(more.events[1..], more.segments))
  {
    hide HandsOut, Closing;
    var k := |h| - c.startFrames;
    ClosingHandsOut(c, h, k);
    var out := Closing(c, h, k);
    assert ([Event(SpeechStart, k * c.frameMs)] + out.events)[1..] == out.events;
    assert [] + out.segments == out.segments;
  }

  lemma StaysQuiet(c: Config, h: seq<Frame>, z: nat)
    requires c.Valid() && z <= |h| && !EndsIn(h, z, c.startFrames, true)
    ensures FeedRef(c, h, Quiet(z)) == (Quiet(z), NOTHING)
  {
    AppendNothing(NOTHING);
  }

  /**
   A frame fed while nothing is open: a stretch opens exactly when the last `startFrames` frames since the
   last close are all speech, at the first of them, with its event. When the run alone reaches the
   limit, the stretch is cut at once.
   */
  lemma QuietFeed(c: Config, ops: seq<Op>, f: Frame)
    requires c.Valid() && Run(c, ops).stretch.Quiet?
    ensures var t := Run(c, ops);
      var h, z := t.hist + [f], t.stretch.since;
      var opens := z + c.startFrames <= |h| && forall i | |h| - c.startFrames <= i < |h| :: h[i].speech;
      var k, t', more := |h| - c.startFrames, Run(c, ops + [Feed(f)]), Next(c, t, Feed(f));
      t'.hist == h && Adds(t, more, t') &&
      if !opens then t'.stretch == t.stretch && more == NOTHING
      else if c.startFrames * c.frameMs < c.maxMs then
        t'.stretch == Open(k) && more == Output([Event(SpeechStart, k * c.frameMs)], [])
      else
        t'.stretch == Open(|h|) && more.events != [] && more.events[0] == Event(SpeechStart, k * c.frameMs) &&
        HandsOut(c, h, k, Output(more.events[1..], more.segments))
  {
    hide HandsOut, Adds, FeedRef, Run;
    RunNext(c, ops, Feed(f));
    var t := Run(c, ops);
    var h := t.hist + [f];
    if EndsIn(h, t.stretch.since, c.startFrames, true) {
      OpensAt(c, h, t.stretch.since);
    } else {
      StaysQuiet(c, h, t.stretch.since);
    }
  }

  /** What a frame does to an open stretch. */
  lemma EndsAt(c: Config, h: seq<Frame>, k: nat)
    requires c.Valid() && k <= |h|
    ensures var (m, more) := FeedRef(c, h, Open(k));
      if EndsIn(h, k, c.silenceFrames, false) then m == Quiet(|h|) && HandsOut(c, h, k, more)
      else if (|h| - k) * c.frameMs >= c.maxMs then m == Open(|h|) && HandsOut(c, h, k, more)
      else m == Open(k) && more == NOTHING
  {
    hide HandsOut, Closing, EndsIn;
    var out := Closing(c, h, k);
    ClosingHandsOut(c, h, k);
    AppendNothing(out);
    assert out.events + [] == out.events && out.segments + [] == out.segments;
  }

  /**
   A frame fed into an open stretch: the stretch closes exactly when its last `silenceFrames` frames are
   all silent; otherwise it is cut exactly when it has reached the limit. Either way it hands out what
   it holds; otherwise nothing is handed out.
   */
  lemma OpenFeed(c: Config, ops: seq<Op>, f: Frame)
    requires c.Valid() && Run(c, ops).stretch.Open?
    ensures var t := Run(c, ops);
      var h, k := t.hist + [f], t.stretch.start;
      var closes := k + c.silenceFrames <= |h| && forall i | |h| - c.silenceFrames <= i < |h| :: !h[i].speech;
      var t', more := Run(c, ops + [Feed(f)]), Next(c, t, Feed(f));
      t'.hist == h && Adds(t, more, t') &&
      if closes then t'.stretch == Quiet(|h|) && HandsOut(c, h, k, more)
      else if (|h| - k) * c.frameMs >= c.maxMs then t'.stretch == Open(|h|) && HandsOut(c, h, k, more)
      else t'.stretch == t.stretch && more == NOTHING
  {
    hide HandsOut, Adds, FeedRef, Run;
    RunNext(c, ops, Feed(f));
    EndsAt(c, Run(c, ops).hist + [f], Run(c, ops).stretch.start);
  }

  /** A flush closes what is open, and does nothing else. */
  lemma FlushEnds(c: Config, ops: seq<Op>)
    requires c.Valid()
    ensures var t, t' := Run(c, ops), Run(c, ops + [Flush]);
      var more := Next(c, t, Flush);
      t'.hist == t.hist && Adds(t, more, t') &&
      match t.stretch
      case Quiet(_) => t'.stretch == t.stretch && more == NOTHING
      case Open(k) => t'.stretch == Quiet(|t.hist|) && HandsOut(c, t.hist, k, more)
  {
    hide HandsOut, Closing, Adds;
    RunNext(c, ops, Flush);
    var t := Run(c, ops);
    if t.stretch.Open? {
      ClosingHandsOut(c, t.hist, t.stretch.start);
    }
  }
}
