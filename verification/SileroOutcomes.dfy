/**
 What the inputs of the two detector drivers mean for their results: exactly when the drivers find
 the same spans whatever the network.
 */
module SileroOutcomes {
  import opened Bytes
  import opened Segmenter
  import opened Silero

  /** Fewer windows than it takes to open a segment, in either driver. */
  predicate Short(pcm: bytes) {
    |pcm| < 8 * 1024
  }

  /** The frames that the segmenter has heard, one for each input. */
  lemma {:induction false} HeardFrames<S>(md: Model<S>, inputs: seq<Input>)
    ensures var h := Run(CONFIG, Feeds(md, inputs)).hist;
      |h| == |inputs| && forall i | 0 <= i < |inputs| ::
        h[i] == Frame(inputs[i].frame, md.infer(inputs[i].window, StateAfter(md, inputs[..i])).0 >= md.threshold)
  {
    hide FeedRef, FlushRef;
    if inputs != [] {
      var n := |inputs| - 1;
      HeardFrames(md, inputs[..n]);
      OneMoreInput(md, inputs[..n], inputs[n]);
      assert inputs == inputs[..n] + [inputs[n]];
      assert forall i | 0 <= i < n :: inputs[..n][..i] == inputs[..i];
    }
  }

  lemma ConfigIs()
    ensures CONFIG == Config(16000, 32, 9, 18, 250, 30000)
  {
  }

  /** As long as no run of nine speech frames was heard, nothing is found. */
  lemma {:induction false} StaysQuiet<S>(md: Model<S>, inputs: seq<Input>)
    requires NoRun(Run(CONFIG, Feeds(md, inputs)).hist, 0, 9, true)
    ensures var t := Run(CONFIG, Feeds(md, inputs)); t == Trace(t.hist, Quiet(0), [], [])
  {
    hide FeedRef, FlushRef, NoRun;
    if inputs != [] {
      var n := |inputs| - 1;
      var before, t := Run(CONFIG, Feeds(md, inputs[..n])), Run(CONFIG, Feeds(md, inputs));
      OneMoreInput(md, inputs[..n], inputs[n]);
      assert inputs == inputs[..n] + [inputs[n]];
      assert before.hist == t.hist[..|t.hist| - 1];
      NoRunBefore(t.hist);
      StaysQuiet(md, inputs[..n]);
      QuietStep(t.hist);
    }
  }

  lemma NoRunBefore(h: seq<Frame>)
    requires NoRun(h, 0, 9, true) && h != []
    ensures NoRun(h[..|h| - 1], 0, 9, true)
  {
    hide EndsIn;
    var before := h[..|h| - 1];
    forall k | 0 <= k <= |before|
      ensures !EndsIn(before[..k], 0, 9, true)
    {
      assert before[..k] == h[..k];
    }
  }

  lemma QuietStep(h: seq<Frame>)
    requires NoRun(h, 0, 9, true)
    ensures FeedRef(CONFIG, h, Quiet(0)) == (Quiet(0), NOTHING)
  {
    hide EndsIn;
    ConfigIs();
    AppendNothing(NOTHING);
    assert h[..|h|] == h;
  }

  lemma QuietFindsNothing<S>(md: Model<S>, inputs: seq<Input>)
    requires NoRun(Run(CONFIG, Feeds(md, inputs)).hist, 0, 9, true)
    ensures Spans(Heard(md, inputs).segments) == []
  {
    StaysQuiet(md, inputs);
    OneMoreOp(Feeds(md, inputs), Flush);
  }

  /** The first run of nine speech frames, ending at the last input, is found by the flush. */
  lemma LastRunIsFound<S>(md: Model<S>, inputs: seq<Input>, last: Input)
    requires NoRun(Run(CONFIG, Feeds(md, inputs)).hist, 0, 9, true) && last.frame != []
    requires EndsIn(Run(CONFIG, Feeds(md, inputs + [last])).hist, 0, 9, true)
    ensures |Spans(Heard(md, inputs + [last]).segments)| == 1
  {
    ConfigIs();
    hide EndsIn, Pcm;
    StaysQuiet(md, inputs);
    OneMoreInput(md, inputs, last);
    var t := Run(CONFIG, Feeds(md, inputs + [last]));
    var k := |t.hist| - 9;
    EndsInFits(t.hist);
    assert t.stretch == Open(k) && t.segments == [];
    LastFrameCounts(t.hist, k);
    OneMoreOp(Feeds(md, inputs + [last]), Flush);
  }

  lemma EndsInFits(h: seq<Frame>)
    requires EndsIn(h, 0, 9, true)
    ensures |h| >= 9
  {
  }

  lemma LastFrameCounts(h: seq<Frame>, k: nat)
    requires k < |h| && h[|h| - 1].pcm != []
    ensures Pcm(h[k..]) != []
  {
    assert h[k..][|h[k..]| - 1] == h[|h| - 1];
  }

  // ---------- A network that tells the drivers apart ----------

  /** Speech in the eight windows before window `n`, and in window `n` only if it is `w`. */
  function Doubter(n: nat, w: Samples): Model<int> {
    Model((x: Samples, k: int) => (if n <= k + 8 && (k < n || (k == n && x == w)) then 1.0 else 0.0, k + 1), 0, 0.5)
  }

  lemma {:induction false} DoubterCounts(n: nat, w: Samples, inputs: seq<Input>)
    ensures StateAfter(Doubter(n, w), inputs) == |inputs|
  {
    if inputs != [] {
      DoubterCounts(n, w, inputs[..|inputs| - 1]);
    }
  }

  lemma DoubterHears(n: nat, w: Samples, inputs: seq<Input>)
    ensures var h := Run(CONFIG, Feeds(Doubter(n, w), inputs)).hist;
      |h| == |inputs| && forall i | 0 <= i < |inputs| ::
        h[i].pcm == inputs[i].frame &&
        (h[i].speech <==> n <= i + 8 && (i < n || (i == n && inputs[i].window == w)))
  {
    hide Run, Feeds;
    var md := Doubter(n, w);
    HeardFrames(md, inputs);
    forall i | 0 <= i < |inputs|
      ensures StateAfter(md, inputs[..i]) == i
    {
      DoubterCounts(n, w, inputs[..i]);
    }
  }

  lemma BrokenRun(h: seq<Frame>, k: nat, i: nat)
    requires k - 9 <= i < k <= |h| && !h[i].speech
    ensures !EndsIn(h[..k], 0, 9, true)
  {
    assert h[..k][i] == h[i];
  }

  lemma NoRunUpTo(n: nat, w: Samples, inputs: seq<Input>, k: nat)
    requires k <= |inputs| <= n + 1 && (|inputs| == n + 1 ==> inputs[n].window != w)
    ensures var h := Run(CONFIG, Feeds(Doubter(n, w), inputs)).hist;
      k <= |h| && !EndsIn(h[..k], 0, 9, true)
  {
    hide Run, Feeds;
    DoubterHears(n, w, inputs);
    if k >= 9 {
      BrokenRun(Run(CONFIG, Feeds(Doubter(n, w), inputs)).hist, k, if k <= n then k - 9 else n);
    }
  }

  /** Without window `w` in place `n` there is no run of nine. */
  lemma DoubterStaysQuiet(n: nat, w: Samples, inputs: seq<Input>)
    requires |inputs| <= n + 1 && (|inputs| == n + 1 ==> inputs[n].window != w)
    ensures NoRun(Run(CONFIG, Feeds(Doubter(n, w), inputs)).hist, 0, 9, true)
  {
    hide Run, Feeds, EndsIn;
    HeardFrames(Doubter(n, w), inputs);
    forall k | 0 <= k <= |inputs|
      ensures !EndsIn(Run(CONFIG, Feeds(Doubter(n, w), inputs)).hist[..k], 0, 9, true)
    {
      NoRunUpTo(n, w, inputs, k);
    }
  }

  lemma DoubterFinds(n: nat, inputs: seq<Input>, last: Input)
    requires n >= 8 && |inputs| == n && last.frame != []
    ensures |Spans(Heard(Doubter(n, last.window), inputs + [last]).segments)| == 1
  {
    var md := Doubter(n, last.window);
    DoubterStaysQuiet(n, last.window, inputs);
    DoubterHears(n, last.window, inputs + [last]);
    LastRunIsFound(md, inputs, last);
  }

  // ---------- Exactly when the results agree ----------

  /** How the inputs of the drivers differ. */
  lemma InputsDiffer(pcm: bytes) returns (last: Input)
    requires !Agreeable(pcm)
    ensures StreamInputs(pcm) == FullBlocks(pcm) + [last] && last.frame != [] && |FullBlocks(pcm)| == |pcm| / 1024
    ensures var n := |pcm| / 1024;
      n <= |BatchInputs(pcm)| <= n + 1 && (|BatchInputs(pcm)| == n + 1 ==> BatchInputs(pcm)[n].window != last.window)
  {
    var n := |pcm| / 1024;
    var tail := Rest(pcm);
    SameParity(|pcm|, n, |tail|);
    last := Input(Padded(tail), PcmToFloat(Padded(tail)));
    StreamInputsAreBlocksAndTail(pcm);
    TailFloats(pcm);
    if |tail| == 1 {
      assert |BatchInputs(pcm)| == n;
    } else {
      OddTailAgrees(pcm);
    }
  }

  lemma FewInputs(pcm: bytes)
    ensures |BatchInputs(pcm)| <= |pcm| / 1024 + 1 && |StreamInputs(pcm)| <= |pcm| / 1024 + 1
  {
    TailFloats(pcm);
  }

  lemma FewAreQuiet<S>(md: Model<S>, inputs: seq<Input>)
    requires |inputs| < 9
    ensures Spans(Heard(md, inputs).segments) == []
  {
    HeardFrames(md, inputs);
    QuietFindsNothing(md, inputs);
  }

  /** Agreeable or short PCM: the same spans, whatever the network. */
  lemma SpansAgreeWhen<S>(md: Model<S>, pcm: bytes)
    requires Agreeable(pcm) || Short(pcm)
    ensures Spans(Heard(md, StreamInputs(pcm)).segments) == Spans(Heard(md, BatchInputs(pcm)).segments)
  {
    hide Heard, StreamInputs, BatchInputs;
    InputsAgreeIff(pcm);
    if Short(pcm) {
      FewInputs(pcm);
      FewAreQuiet(md, StreamInputs(pcm));
      FewAreQuiet(md, BatchInputs(pcm));
    }
  }

  /** Any other PCM: on some network one driver finds a span and the other none. */
  lemma SomeNetworkTells(pcm: bytes) returns (md: Model<int>)
    requires !Agreeable(pcm) && !Short(pcm)
    ensures |Spans(Heard(md, StreamInputs(pcm)).segments)| == 1
    ensures Spans(Heard(md, BatchInputs(pcm)).segments) == []
  {
    hide Heard, StreamInputs, BatchInputs, FullBlocks, NoRun, Run, Feeds;
    var last := InputsDiffer(pcm);
    var n := |pcm| / 1024;
    md := Doubter(n, last.window);
    DoubterFinds(n, FullBlocks(pcm), last);
    DoubterStaysQuiet(n, last.window, BatchInputs(pcm));
    QuietFindsNothing(md, BatchInputs(pcm));
  }

  /**
   The incremental and the whole-buffer driver find the same spans on every network exactly when the
   PCM is agreeable or too short for a segment to open.
   */
  lemma SpansAgreeIff(pcm: bytes)
    ensures
      (forall md: Model<int> ::
         Spans(Heard(md, StreamInputs(pcm)).segments) == Spans(Heard(md, BatchInputs(pcm)).segments)) <==>
      Agreeable(pcm) || Short(pcm)
  {
    hide Heard, StreamInputs, BatchInputs, Agreeable, Short, Spans;
    if Agreeable(pcm) || Short(pcm) {
      forall md: Model<int>
        ensures Spans(Heard(md, StreamInputs(pcm)).segments) == Spans(Heard(md, BatchInputs(pcm)).segments)
      {
        SpansAgreeWhen(md, pcm);
      }
    } else {
      var md := SomeNetworkTells(pcm);
    }
  }
}
