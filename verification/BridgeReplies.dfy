/**
 What the bridge answers (src/sandroid/adapters/mrcp/bridge.py), told by the frames alone: each reply
 depends on the frame, on which kinds came before it, and on how the recognition ended.
 */
module BridgeReplies {
  import opened Bytes
  import opened Bridge
  import Cbor

  predicate Seen(frames: seq<Message>, kind: byte) {
    exists i :: 0 <= i < |frames| && frames[i].kind == kind
  }

  /** What the recognizer is queued: every AUDIO payload, and the end at an EOS. */
  function ItemsOf(frames: seq<Message>): seq<Option<bytes>> {
    if frames == [] then []
    else
      var n := |frames| - 1;
      ItemsOf(frames[..n]) +
      if frames[n].kind == AUDIO then [Some(frames[n].payload)] else if frames[n].kind == EOS then [None] else []
  }

  /** What the last START, if any, said of the channel. */
  function Announced(frames: seq<Message>): View {
    if frames == [] then FRESH
    else
      var n := |frames| - 1;
      if frames[n].kind == START then Starts(FRESH, frames[n].payload).view else Announced(frames[..n])
  }

  predicate SameChannel(v: View, w: View) {
    v.channelId == w.channelId && v.sessionId == w.sessionId && v.sampleRate == w.sampleRate && v.codec == w.codec
  }

  /** The fields of an open connection are what its frames so far say. */
  predicate Recalls(v: View, frames: seq<Message>) {
    v.started == Seen(frames, START) && v.asrRunning == v.started && v.eosSeen == Seen(frames, EOS) &&
    v.queue == ItemsOf(frames) && SameChannel(v, Announced(frames))
  }

  lemma SeenMore(frames: seq<Message>, m: Message, kind: byte)
    ensures Seen(frames + [m], kind) <==> Seen(frames, kind) || m.kind == kind
  {
    var all := frames + [m];
    if i :| 0 <= i < |frames| && frames[i].kind == kind {
      assert all[i].kind == kind;
    }
    assert all[|frames|] == m;
  }

  lemma ItemsMore(frames: seq<Message>, m: Message)
    ensures ItemsOf(frames + [m]) ==
      ItemsOf(frames) + if m.kind == AUDIO then [Some(m.payload)] else if m.kind == EOS then [None] else []
  {
    assert (frames + [m])[..|frames|] == frames;
  }

  lemma AnnouncedMore(frames: seq<Message>, m: Message)
    ensures Announced(frames + [m]) == if m.kind == START then Starts(FRESH, m.payload).view else Announced(frames)
  {
    hide Starts;
    assert (frames + [m])[..|frames|] == frames;
  }

  lemma DispatchRecalls(cap: nat, v: View, frames: seq<Message>, m: Message, outcome: Outcome)
    requires Recalls(v, frames)
    ensures var t := Dispatched(cap, v, m, outcome); t.open ==> Recalls(t.view, frames + [m])
  {
    hide Seen, ItemsOf, Announced, Cbor.Decode, Lookup;
    AnnouncedMore(frames, m);
    SeenMore(frames, m, START);
    SeenMore(frames, m, EOS);
    ItemsMore(frames, m);
    assert ItemsOf(frames) + [] == ItemsOf(frames);
  }

  /** An open connection remembers of its frames exactly what decides the next reply. */
  lemma {:induction false} HistoryIsKept(cap: nat, frames: seq<Message>, outcome: Outcome)
    requires Served(cap, frames, outcome).open
    ensures Recalls(Served(cap, frames, outcome).view, frames)
    decreases |frames|
  {
    hide Dispatched, Seen, ItemsOf, Announced;
    if frames == [] {
      NothingRecalled();
    } else {
      var n := |frames| - 1;
      HistoryIsKept(cap, frames[..n], outcome);
      DispatchRecalls(cap, Served(cap, frames[..n], outcome).view, frames[..n], frames[n], outcome);
      assert frames[..n] + [frames[n]] == frames;
    }
  }

  lemma NothingRecalled()
    ensures Recalls(FRESH, [])
  {
  }

  predicate IsMap(payload: bytes) {
    var item := Cbor.Decode(payload);
    item.Ok? && item.value.value.Map?
  }

  /** The connection answered with `more` and is `open` or not. */
  predicate Says(before: Turn, more: seq<Reply>, open: bool, after: Turn) {
    after.replies == before.replies + more && after.open == open
  }

  /**
   The next reply on an open connection: a START that is no map is refused, or ends the connection
   without a word if it crashes the decoder; AUDIO needs an earlier START; EOS needs an earlier START
   and no earlier EOS, and is answered as the recognition ended; STOP ends the connection; no other
   frame is answered.
   */
  lemma NextReply(cap: nat, frames: seq<Message>, m: Message, outcome: Outcome)
    requires Served(cap, frames, outcome).open
    ensures var before, after := Served(cap, frames, outcome), Served(cap, frames + [m], outcome);
      if m.kind == START then
        if IsMap(m.payload) then Says(before, [], true, after)
        else if Cbor.Decode(m.payload) == Err(Cbor.Crashed) then Says(before, [], false, after)
        else Says(before, [Error(BadStart)], false, after)
      else if m.kind == AUDIO then
        if Seen(frames, START) then Says(before, [], true, after)
        else Says(before, [Error(UnexpectedFrame)], false, after)
      else if m.kind == EOS then
        if !Seen(frames, START) || Seen(frames, EOS) then Says(before, [Error(UnexpectedFrame)], false, after)
        else
          match outcome
          case Answered(nlsml) => Says(before, [Result(nlsml)], true, after)
          case Failed => Says(before, [Error(AsrFailed)], false, after)
          case Lost => Says(before, [], false, after)
      else Says(before, [], m.kind != STOP, after)
  {
    hide Served, Seen, ItemsOf, Announced, Cbor.Decode, Lookup;
    HistoryIsKept(cap, frames, outcome);
    ServedMore(cap, frames, m, outcome);
  }

  /** `x` is what the map says of `key`, or `otherwise` if it says nothing. */
  ghost predicate Gives(entries: seq<Cbor.Entry>, key: string, otherwise: Cbor.Value, x: Cbor.Value) {
    if exists i :: 0 <= i < |entries| && entries[i].key == Cbor.Text(key) then
      exists i :: 0 <= i < |entries| && entries[i] == Cbor.Entry(Cbor.Text(key), x) &&
        forall j | 0 <= j < i :: entries[j].key != Cbor.Text(key)
    else x == otherwise
  }

  lemma {:induction false} LookupGives(entries: seq<Cbor.Entry>, key: string, otherwise: Cbor.Value)
    ensures Gives(entries, key, otherwise, Lookup(entries, key, otherwise))
  {
    if entries != [] && entries[0].key != Cbor.Text(key) {
      var rest, x := entries[1..], Lookup(entries, key, otherwise);
      LookupGives(rest, key, otherwise);
      if i :| 0 <= i < |entries| && entries[i].key == Cbor.Text(key) {
        assert rest[i - 1].key == Cbor.Text(key);
        var k :| 0 <= k < |rest| && rest[k] == Cbor.Entry(Cbor.Text(key), x) &&
          forall j | 0 <= j < k :: rest[j].key != Cbor.Text(key);
        assert entries[k + 1] == rest[k];
        assert forall j | 0 < j < k + 1 :: entries[j] == rest[j - 1];
      } else {
        assert forall j | 0 <= j < |rest| :: rest[j] == entries[j + 1];
      }
    }
  }

  /**
   A START that is accepted sets the channel up as its map says, with defaults for what is missing, and
   changes nothing else.
   */
  lemma StartSays(v: View, payload: bytes)
    requires IsMap(payload)
    ensures var meta, w := Cbor.Decode(payload).value.value.entries, Starts(v, payload).view;
      Gives(meta, "channel_id", Cbor.Text(""), w.channelId) && Gives(meta, "session_id", Cbor.Text(""), w.sessionId) &&
      Gives(meta, "codec", Cbor.Text("LPCM"), w.codec) &&
      (exists rate :: Gives(meta, "sample_rate", Cbor.UInt(16000), rate) &&
         w.sampleRate == if rate.UInt? then rate.n else 16000) &&
      w.started && w.asrRunning && w.eosSeen == v.eosSeen && w.queue == v.queue && w.audio == v.audio &&
      w.overflow == v.overflow
  {
    hide Cbor.Decode, Lookup, Gives;
    var meta := Cbor.Decode(payload).value.value.entries;
    LookupGives(meta, "channel_id", Cbor.Text(""));
    LookupGives(meta, "session_id", Cbor.Text(""));
    LookupGives(meta, "codec", Cbor.Text("LPCM"));
    LookupGives(meta, "sample_rate", Cbor.UInt(16000));
  }

  // ---------- A whole utterance ----------

  function AudioFrames(audio: seq<bytes>): seq<Message> {
    seq(|audio|, i requires 0 <= i < |audio| => Message(AUDIO, audio[i]))
  }

  function Utterance(start: bytes, audio: seq<bytes>, end: bytes): seq<Message> {
    [Message(START, start)] + AudioFrames(audio) + [Message(EOS, end)]
  }

  function Items(audio: seq<bytes>): seq<Option<bytes>> {
    seq(|audio|, i requires 0 <= i < |audio| => Some(audio[i]))
  }

  lemma {:induction false} TalkingIsQuiet(cap: nat, start: bytes, audio: seq<bytes>, outcome: Outcome)
    requires IsMap(start)
    ensures var frames := [Message(START, start)] + AudioFrames(audio);
      var t := Served(cap, frames, outcome);
      t.open && t.replies == [] && Seen(frames, START) && !Seen(frames, EOS) && ItemsOf(frames) == Items(audio) &&
      Announced(frames) == Starts(FRESH, start).view
    decreases |audio|
  {
    hide Served, Seen, ItemsOf, Announced, Starts, IsMap;
    var first := Message(START, start);
    if audio == [] {
      NothingServed(cap, outcome);
      NextReply(cap, [], first, outcome);
      SeenMore([], first, START);
      SeenMore([], first, EOS);
      ItemsMore([], first);
      AnnouncedMore([], first);
      assert [] + [first] == [first] == [first] + AudioFrames(audio);
      NothingSeen();
    } else {
      var n := |audio| - 1;
      var m := Message(AUDIO, audio[n]);
      TalkingIsQuiet(cap, start, audio[..n], outcome);
      var frames := [first] + AudioFrames(audio[..n]);
      NextReply(cap, frames, m, outcome);
      SeenMore(frames, m, START);
      SeenMore(frames, m, EOS);
      ItemsMore(frames, m);
      AnnouncedMore(frames, m);
      assert frames + [m] == [first] + AudioFrames(audio);
      assert Items(audio[..n]) + [Some(audio[n])] == Items(audio);
    }
  }

  lemma NothingSeen()
    ensures !Seen([], EOS) && ItemsOf([]) == [] == Items([])
  {
  }

  /**
   An utterance is answered once: with the result, with the failure of the recognizer, or not at all if
   its outcome was lost; the recognizer was queued exactly its audio and then the end, and the channel
   is the one its START named.
   */
  lemma UtteranceIsAnswered(cap: nat, start: bytes, audio: seq<bytes>, end: bytes, outcome: Outcome)
    requires IsMap(start)
    ensures var t := Served(cap, Utterance(start, audio, end), outcome);
      match outcome
      case Answered(nlsml) => t.replies == [Result(nlsml)] && t.open && t.view.queue == Items(audio) + [None] &&
        SameChannel(t.view, Starts(FRESH, start).view)
      case Failed => t.replies == [Error(AsrFailed)] && !t.open
      case Lost => t.replies == [] && !t.open
  {
    hide Served, Seen, ItemsOf, Announced, Starts, IsMap;
    TalkingIsQuiet(cap, start, audio, outcome);
    var frames := [Message(START, start)] + AudioFrames(audio);
    NextReply(cap, frames, Message(EOS, end), outcome);
    ItemsMore(frames, Message(EOS, end));
    AnnouncedMore(frames, Message(EOS, end));
    if outcome.Answered? {
      HistoryIsKept(cap, frames + [Message(EOS, end)], outcome);
    }
  }
}
