/**
 The plugin and the bridge joined by a connection: the bytes the plugin's frames make, cut off
 anywhere, and what the bridge answers to them.
 */
module Product {
  import opened Bytes
  import opened Bridge
  import opened CborRoundTrip
  import opened Plugin
  import opened BridgeReplies
  import opened PluginUtterances
  import Utf8
  import Cbor
  import CborWriter

  /** A frame both sides accept, and a START that says what the plugin says. */
  ghost predicate MessageOk(m: Message) {
    |m.payload| <= 0x10_0000 &&
    (m.kind == START ==> exists id, rate: nat :: StartFits(id, rate) && m == StartMessage(id, rate))
  }

  ghost predicate MessagesOk(sent: seq<seq<Message>>) {
    forall c, i | 0 <= c < |sent| && 0 <= i < |sent[c]| :: MessageOk(sent[c][i])
  }

  lemma SendKeepsMessages(s: State, m: Message)
    requires MessagesOk(s.sent) && MessageOk(m)
    ensures MessagesOk(Sends(s, m).sent)
  {
    hide MessageOk;
  }

  lemma PlainIsOk(kind: byte, payload: bytes)
    requires kind != START && |payload| <= 0x10_0000
    ensures MessageOk(Message(kind, payload))
  {
  }

  lemma StartIsOk(id: string, rate: nat)
    requires StartFits(id, rate)
    ensures MessageOk(StartMessage(id, rate))
  {
    hide CborWriter.StartPayload;
  }

  lemma RecognizeKeepsMessages(s: State, a: Callback)
    requires MessagesOk(s.sent) && a.Recognize?
    ensures MessagesOk(Recognized(s, a).sent)
  {
    hide MessageOk, MessagesOk, StartFits, StartMessage;
    if StartFits(a.id, a.rate) {
      StartIsOk(a.id, a.rate);
      SendKeepsMessages(s.(timers := a.timers != Some(false), recognizing := true), StartMessage(a.id, a.rate));
    }
  }

  lemma WriteKeepsMessages(s: State, a: Callback)
    requires MessagesOk(s.sent) && a.Write?
    ensures MessagesOk(Written(s, a).sent)
  {
    hide MessageOk, MessagesOk, Sends;
    PlainIsOk(EOS, []);
    SendKeepsMessages(s, Message(EOS, []));
    if |a.pcm| <= 0x10_0000 {
      PlainIsOk(AUDIO, a.pcm);
      SendKeepsMessages(Detects(s, a), Message(AUDIO, a.pcm));
    }
  }

  lemma StepKeepsMessages(s: State, a: Callback)
    requires MessagesOk(s.sent)
    ensures MessagesOk(Step(s, a).sent)
  {
    hide MessageOk, Recognized, Written;
    match a {
      case Recognize(_, _, _, _, _) => RecognizeKeepsMessages(s, a);
      case Write(_, _, _, _, _, _) => WriteKeepsMessages(s, a);
      case Close =>
        PlainIsOk(STOP, []);
        SendKeepsMessages(s, Message(STOP, []));
      case _ =>
    }
  }

  lemma {:induction false} RunKeepsMessages(run: seq<Callback>)
    ensures MessagesOk(After(run).sent)
    decreases |run|
  {
    hide Step;
    if run != [] {
      RunKeepsMessages(run[..|run| - 1]);
      StepKeepsMessages(After(run[..|run| - 1]), run[|run| - 1]);
    }
  }

  // ---------- What the bridge makes of them ----------

  /** The plugin's START is read as a map with all four keys. */
  lemma StartStarts(v: View, id: string, rate: nat)
    requires StartFits(id, rate)
    ensures var t := Starts(v, StartMessage(id, rate).payload);
      t.open && t.replies == [] &&
      t.view == v.(channelId := Cbor.Text(id), sessionId := Cbor.Text(id), sampleRate := rate,
                   codec := Cbor.Text("LPCM"), started := true, asrRunning := true)
  {
    hide Cbor.Decode, CborWriter.StartPayload, Utf8.Encode, Cbor.AllFit;
    CborWriter.LiteralEncodes("LPCM");
    LpcmFits();
    CborWriter.StartIsRead(id, id, rate, "LPCM", []);
    var payload := StartMessage(id, rate).payload;
    assert payload + [] == payload;
    FourEntries(id, rate);
  }

  lemma LpcmFits()
    ensures Cbor.TextFits("LPCM")
  {
    CborWriter.LiteralEncodes("LPCM");
  }

  lemma EntriesSnoc(m: seq<Cbor.Pair>, p: Cbor.Pair)
    requires Cbor.AllFit(m + [p])
    ensures Cbor.AllFit(m) && Cbor.PairFits(p)
    ensures AsEntries(m + [p]) == AsEntries(m) + [Cbor.Entry(Cbor.Text(p.key), ValueOf(p.field))]
  {
    hide ValueOf, Cbor.PairFits;
    assert (m + [p])[..|m|] == m;
  }

  lemma FourEntries(id: string, rate: nat)
    requires Cbor.AllFit(CborWriter.StartPairs(id, id, rate, "LPCM"))
    ensures var entries := AsEntries(CborWriter.StartPairs(id, id, rate, "LPCM"));
      Lookup(entries, "channel_id", Cbor.Text("")) == Cbor.Text(id) &&
      Lookup(entries, "session_id", Cbor.Text("")) == Cbor.Text(id) &&
      Lookup(entries, "sample_rate", Cbor.UInt(16000)) == Cbor.UInt(rate) &&
      Lookup(entries, "codec", Cbor.Text("LPCM")) == Cbor.Text("LPCM")
  {
    hide Cbor.AllFit, AsEntries, Cbor.PairFits, Lookup;
    var m := CborWriter.StartPairs(id, id, rate, "LPCM");
    assert m == [] + [m[0]] + [m[1]] + [m[2]] + [m[3]];
    EntriesSnoc([] + [m[0]] + [m[1]] + [m[2]], m[3]);
    EntriesSnoc([] + [m[0]] + [m[1]], m[2]);
    EntriesSnoc([] + [m[0]], m[1]);
    EntriesSnoc([], m[0]);
    FourLookups(Cbor.Text(id), Cbor.Text(id), Cbor.UInt(rate), Cbor.Text("LPCM"));
    assert AsEntries(m) == StartEntries(Cbor.Text(id), Cbor.Text(id), Cbor.UInt(rate), Cbor.Text("LPCM"));
  }

  function StartEntries(channel: Cbor.Value, session: Cbor.Value, rate: Cbor.Value, codec: Cbor.Value): seq<Cbor.Entry> {
    [Cbor.Entry(Cbor.Text("channel_id"), channel), Cbor.Entry(Cbor.Text("session_id"), session),
     Cbor.Entry(Cbor.Text("sample_rate"), rate), Cbor.Entry(Cbor.Text("codec"), codec)]
  }

  lemma FourLookups(channel: Cbor.Value, session: Cbor.Value, rate: Cbor.Value, codec: Cbor.Value)
    ensures var entries := StartEntries(channel, session, rate, codec);
      Lookup(entries, "channel_id", Cbor.Text("")) == channel &&
      Lookup(entries, "session_id", Cbor.Text("")) == session &&
      Lookup(entries, "sample_rate", Cbor.UInt(16000)) == rate &&
      Lookup(entries, "codec", Cbor.Text("LPCM")) == codec
  {
    hide Lookup;
    CborWriter.NamesDiffer();
    var e := StartEntries(channel, session, rate, codec);
    assert e == [e[0]] + e[1..] && e[1..] == [e[1]] + e[2..] && e[2..] == [e[2]] + e[3..] && e[3..] == [e[3]] + [];
    LookupFirst("channel_id", channel, e[1..], "channel_id", Cbor.Text(""));
    LookupLater("channel_id", channel, e[1..], "session_id", Cbor.Text(""));
    LookupFirst("session_id", session, e[2..], "session_id", Cbor.Text(""));
    LookupLater("channel_id", channel, e[1..], "sample_rate", Cbor.UInt(16000));
    LookupLater("session_id", session, e[2..], "sample_rate", Cbor.UInt(16000));
    LookupFirst("sample_rate", rate, e[3..], "sample_rate", Cbor.UInt(16000));
    LookupLater("channel_id", channel, e[1..], "codec", Cbor.Text("LPCM"));
    LookupLater("session_id", session, e[2..], "codec", Cbor.Text("LPCM"));
    LookupLater("sample_rate", rate, e[3..], "codec", Cbor.Text("LPCM"));
    LookupFirst("codec", codec, [], "codec", Cbor.Text("LPCM"));
  }

  lemma LookupFirst(key: string, v: Cbor.Value, more: seq<Cbor.Entry>, wanted: string, otherwise: Cbor.Value)
    requires key == wanted
    ensures Lookup([Cbor.Entry(Cbor.Text(key), v)] + more, wanted, otherwise) == v
  {
  }

  lemma LookupLater(key: string, v: Cbor.Value, more: seq<Cbor.Entry>, wanted: string, otherwise: Cbor.Value)
    requires key != wanted
    ensures Lookup([Cbor.Entry(Cbor.Text(key), v)] + more, wanted, otherwise) == Lookup(more, wanted, otherwise)
  {
    assert ([Cbor.Entry(Cbor.Text(key), v)] + more)[1..] == more;
  }

  /** Where the connection is once the plugin's frames have been served. */
  predicate Keeps(p: Phase, t: Bridge.Turn) {
    match p
    case Silent => t == Bridge.Turn(FRESH, [], true)
    case Talking => t.open && t.view.started && t.view.asrRunning && !t.view.eosSeen && t.replies == []
    case Quiet => Settled(t)
    case Stopped => Settled(t) && !t.open
  }

  /** No answer, the result, or that recognition failed. */
  predicate Settled(t: Bridge.Turn) {
    t.replies == [] || t.replies == [Error(AsrFailed)] || (|t.replies| == 1 && t.replies[0].Result?)
  }

  lemma DispatchKeeps(cap: nat, p: Phase, t: Bridge.Turn, m: Message, outcome: Outcome)
    requires Keeps(p, t) && MessageOk(m) && Advance(Some(p), m.kind).Some? && t.open
    ensures Keeps(Advance(Some(p), m.kind).value, Followed(t, Dispatched(cap, t.view, m, outcome)))
  {
    hide Starts, StartFits, StartMessage;
    if m.kind == START {
      var id, rate: nat :| StartFits(id, rate) && m == StartMessage(id, rate);
      StartStarts(t.view, id, rate);
    }
  }

  lemma {:induction false} ServedKeeps(cap: nat, frames: seq<Message>, outcome: Outcome)
    requires PhaseOf(frames).Some? && forall i | 0 <= i < |frames| :: MessageOk(frames[i])
    ensures Keeps(PhaseOf(frames).value, Served(cap, frames, outcome))
    decreases |frames|
  {
    hide MessageOk, Dispatched;
    if frames != [] {
      var n := |frames| - 1;
      ServedKeeps(cap, frames[..n], outcome);
      var before := Served(cap, frames[..n], outcome);
      if before.open {
        DispatchKeeps(cap, PhaseOf(frames[..n]).value, before, frames[n], outcome);
      }
    }
  }

  /** The bytes of a list of frames. */
  function Wire(frames: seq<Message>): bytes
    requires forall m | m in frames :: |m.payload| <= 0x10_0000
  {
    if frames == [] then [] else EncodeFrame(frames[0].kind, frames[0].payload) + Wire(frames[1..])
  }

  /** However much of the bytes arrives, what is read is a whole number of the frames, from the first. */
  lemma {:induction false} CutOffAnywhere(frames: seq<Message>, n: nat)
    requires (forall m | m in frames :: |m.payload| <= 0x10_0000) && n <= |Wire(frames)|
    ensures MessagesIn(Wire(frames)[..n]) <= frames
    ensures n == |Wire(frames)| ==> MessagesIn(Wire(frames)[..n]) == frames
  {
    hide MessagesIn, EncodeFrame;
    if frames == [] {
      NothingToRead();
    } else {
      var m := frames[0];
      var first, rest := EncodeFrame(m.kind, m.payload), Wire(frames[1..]);
      if n < |first| {
        assert (first + rest)[..n] == first[..n];
        PartOfFrame(m.kind, m.payload, n);
      } else {
        assert (first + rest)[..n] == first + rest[..n - |first|];
        ReadsFirst(m, rest[..n - |first|]);
        CutOffAnywhere(frames[1..], n - |first|);
        assert [m] + frames[1..] == frames;
      }
    }
  }

  lemma ReadsFirst(m: Message, rest: bytes)
    requires |m.payload| <= 0x10_0000
    ensures MessagesIn(EncodeFrame(m.kind, m.payload) + rest) == [m] + MessagesIn(rest)
  {
    hide ReadFrame, EncodeFrame;
    FrameRoundTrip(m.kind, m.payload, rest);
  }

  lemma NothingToRead()
    ensures MessagesIn([]) == []
  {
  }

  lemma PartOfFrame(kind: byte, payload: bytes, n: nat)
    requires |payload| <= 0x10_0000 && n < |EncodeFrame(kind, payload)|
    ensures MessagesIn(EncodeFrame(kind, payload)[..n]) == []
  {
    FrameRoundTrip(kind, payload, []);
    var whole := EncodeFrame(kind, payload);
    assert whole + [] == whole;
    if n >= 4 {
      assert whole[..n][..4] == whole[..4];
    }
  }

  /**
   The product: on every connection of a run that opens none in the middle of an utterance, and
   however much of what was sent on it arrives, the bridge answers nothing, one RESULT, or that
   recognition failed. It never answers UNEXPECTED_FRAME or BAD_START.
   */
  lemma ProductIsQuiet(run: seq<Callback>, c: nat, n: nat, cap: nat, outcome: Outcome)
    requires OpensBetween(run) && c < |After(run).sent|
    ensures var frames := After(run).sent[c];
      (forall m | m in frames :: |m.payload| <= 0x10_0000) &&
      (n <= |Wire(frames)| ==> Settled(Served(cap, MessagesIn(Wire(frames)[..n]), outcome)))
  {
    hide After, MessagesIn, Served, Wire, MessageOk, PhaseOf;
    RunKeepsInStep(run);
    RunKeepsMessages(run);
    var frames := After(run).sent[c];
    forall m | m in frames
      ensures |m.payload| <= 0x10_0000
    {
      var i :| 0 <= i < |frames| && frames[i] == m;
      assert MessageOk(After(run).sent[c][i]);
      OkIsSmall(m);
    }
    if n <= |Wire(frames)| {
      CutOffAnywhere(frames, n);
      var arrived := MessagesIn(Wire(frames)[..n]);
      assert arrived == frames[..|arrived|];
      PhasePrefix(frames, |arrived|);
      ServedKeeps(cap, arrived, outcome);
    }
  }

  lemma OkIsSmall(m: Message)
    requires MessageOk(m)
    ensures |m.payload| <= 0x10_0000
  {
  }

  lemma {:induction false} PhasePrefix(frames: seq<Message>, n: nat)
    requires PhaseOf(frames).Some? && n <= |frames|
    ensures PhaseOf(frames[..n]).Some?
    decreases |frames|
  {
    if n == |frames| {
      assert frames[..n] == frames;
    } else {
      assert frames[..|frames| - 1][..n] == frames[..n];
      PhasePrefix(frames[..|frames| - 1], n);
    }
  }

  // ---------- A whole utterance ----------

  /** What `SendStart` hands to its writes is read as a START frame, and nothing after it is touched. */
  lemma StartFrameIsRead(id: string, rate: nat, tail: bytes)
    requires StartFits(id, rate)
    ensures var payload := StartMessage(id, rate).payload;
      var t := Starts(FRESH, payload);
      ReadFrame(EncodeFrame(CborWriter.START_KIND, payload) + tail) == Frame(START, payload, tail) &&
      IsMap(payload) && t.open && t.replies == [] && t.view.started
  {
    hide CborWriter.StartPayload, Starts, EncodeFrame, ReadFrame;
    FrameRoundTrip(START, StartMessage(id, rate).payload, tail);
    StartStarts(FRESH, id, rate);
    StartIsMap(id, rate);
  }

  lemma StartIsMap(id: string, rate: nat)
    requires StartFits(id, rate)
    ensures IsMap(StartMessage(id, rate).payload)
  {
    hide Cbor.Decode, Lookup, CborWriter.StartPayload, Utf8.Encode, Cbor.AllFit;
    StartStarts(FRESH, id, rate);
  }

  lemma SilentIsEmpty(frames: seq<Message>)
    requires PhaseOf(frames) == Some(Silent)
    ensures frames == []
  {
  }

  /** An idle connection has had no frames. */
  lemma IdleIsEmpty(run: seq<Callback>)
    requires OpensBetween(run) && Idle(After(run))
    ensures After(run).sent[|After(run).sent| - 1] == []
  {
    hide After;
    RunKeepsInStep(run);
    SilentIsEmpty(After(run).sent[|After(run).sent| - 1]);
  }

  /**
   An utterance from end to end: after any callbacks that left the channel idle, RECOGNIZE, callbacks that
   leave the utterance under way, and inactivity. If all the bytes arrive, the bridge answers with the
   result and stays open, or with the failure, or not at all, as the recognition ended; its recognizer
   was queued exactly the delivered audio in order, and the channel is the one the plugin named.
   */
  lemma UtteranceIsServed(run: seq<Callback>, first: Callback, talk: seq<Callback>, last: Callback,
                          cap: nat, outcome: Outcome)
    requires OpensBetween(run) && Idle(After(run))
    requires Begins(first) && (forall i | 0 <= i < |talk| :: GoesOn(talk[i])) && Completes(last)
    ensures var sent := After(run + [first] + talk + [last]).sent;
      sent != [] &&
      var frames := sent[|sent| - 1];
      (forall m | m in frames :: |m.payload| <= 0x10_0000) &&
      var t := Served(cap, MessagesIn(Wire(frames)), outcome);
      match outcome
      case Answered(nlsml) =>
        t.replies == [Result(nlsml)] && t.open && t.view.queue == Items(Payloads(talk)) + [None] &&
        t.view.channelId == Cbor.Text(first.id) && t.view.sampleRate == first.rate
      case Failed => t.replies == [Error(AsrFailed)] && !t.open
      case Lost => t.replies == [] && !t.open
  {
    hide After, Served, MessagesIn, Wire, Starts, StartFits, StartMessage, IsMap, GoesOn, Payloads, OpensBetween;
    var s := After(run);
    UtteranceIsSent(run, first, talk, last);
    IdleIsEmpty(run);
    var start, audio := StartMessage(first.id, first.rate).payload, Payloads(talk);
    var frames := Utterance(start, audio, []);
    assert [] + frames == frames;
    SizesFit(first.id, first.rate, talk);
    CutOffAnywhere(frames, |Wire(frames)|);
    assert Wire(frames)[..|Wire(frames)|] == Wire(frames);
    StartIsMap(first.id, first.rate);
    StartStarts(FRESH, first.id, first.rate);
    BridgeReplies.UtteranceIsAnswered(cap, start, audio, [], outcome);
  }

  lemma {:induction false} PayloadsFit(talk: seq<Callback>)
    requires forall i | 0 <= i < |talk| :: GoesOn(talk[i])
    ensures forall i | 0 <= i < |Payloads(talk)| :: |Payloads(talk)[i]| <= 0x10_0000
  {
    if talk != [] {
      var n := |talk| - 1;
      PayloadsFit(talk[..n]);
      assert GoesOn(talk[n]);
    }
  }

  lemma SizesFit(id: string, rate: nat, talk: seq<Callback>)
    requires StartFits(id, rate) && forall i | 0 <= i < |talk| :: GoesOn(talk[i])
    ensures forall m | m in Utterance(StartMessage(id, rate).payload, Payloads(talk), []) :: |m.payload| <= 0x10_0000
  {
    hide Payloads, GoesOn, CborWriter.StartPayload;
    PayloadsFit(talk);
  }
}
