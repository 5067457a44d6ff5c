/**
 The Python side of the plugin bridge (src/sandroid/adapters/mrcp/bridge.py): one connection, its
 frame handlers, and what it answers over any sequence of frames.
 */
module Bridge {
  import opened Bytes
  import opened Cbor
  import opened CborRoundTrip

  const START: byte := 0x01
  const AUDIO: byte := 0x02
  const EOS: byte := 0x03
  const STOP: byte := 0x04

  datatype Code = BadStart | UnexpectedFrame | Internal | AsrFailed

  datatype Reply = Result(nlsml: bytes) | Error(code: Code)

  datatype Message = Message(kind: byte, payload: bytes)

  /** How the recognition that EOS waits for ends; `Lost` is an exception nobody catches. */
  datatype Outcome = Answered(nlsml: bytes) | Failed | Lost

  /** What the handlers keep of a connection. */
  datatype View = View(
    started: bool, eosSeen: bool, channelId: Value, sessionId: Value, sampleRate: nat, codec: Value,
    queue: seq<Option<bytes>>, audio: bytes, overflow: bool, asrRunning: bool)

  const FRESH := View(false, false, Text(""), Text(""), 16000, Text("LPCM"), [], [], false, false)

  /** The state after a frame, the answers to it, and whether the connection stays open. */
  datatype Turn = Turn(view: View, replies: seq<Reply>, open: bool)

  /** `meta.get(key, otherwise)`. */
  function Lookup(entries: seq<Entry>, key: string, otherwise: Value): Value {
    if entries == [] then otherwise
    else if entries[0].key == Text(key) then entries[0].value
    else Lookup(entries[1..], key, otherwise)
  }

  function Rate(v: Value): nat {
    if v.UInt? then v.n else 16000
  }

  function Starts(v: View, payload: bytes): Turn {
    match Decode(payload)
    case Err(Malformed) => Turn(v, [Error(BadStart)], false)
    case Err(Crashed) => Turn(v, [], false)
    case Ok(item) =>
      if !item.value.Map? then Turn(v, [Error(BadStart)], false)
      else
        var meta := item.value.entries;
        Turn(
          v.(channelId := Lookup(meta, "channel_id", Text("")), sessionId := Lookup(meta, "session_id", Text("")),
             sampleRate := Rate(Lookup(meta, "sample_rate", UInt(16000))),
             codec := Lookup(meta, "codec", Text("LPCM")), started := true, asrRunning := true),
          [], true)
  }

  function Hears(cap: nat, v: View, payload: bytes): Turn {
    if !v.started then Turn(v, [Error(UnexpectedFrame)], false)
    else
      var full := !v.overflow && |v.audio| + |payload| > cap;
      Turn(
        v.(overflow := v.overflow || full,
           audio := if full then [] else if v.overflow then v.audio else v.audio + payload,
           queue := v.queue + [Some(payload)]),
        [], true)
  }

  function Ends(v: View, outcome: Outcome): Turn {
    if !v.started || v.eosSeen then Turn(v, [Error(UnexpectedFrame)], false)
    else
      var w := v.(eosSeen := true, queue := v.queue + [None]);
      if !v.asrRunning then Turn(w, [Error(Internal)], false)
      else
        match outcome
        case Answered(nlsml) => Turn(w, [Result(nlsml)], true)
        case Failed => Turn(w, [Error(AsrFailed)], false)
        case Lost => Turn(w, [], false)
  }

  function Dispatched(cap: nat, v: View, m: Message, outcome: Outcome): Turn {
    if m.kind == START then Starts(v, m.payload)
    else if m.kind == AUDIO then Hears(cap, v, m.payload)
    else if m.kind == EOS then Ends(v, outcome)
    else if m.kind == STOP then Turn(v, [], false)
    else Turn(v, [], true)
  }

  class Channel {
    const maxAudioBytes: nat
    var started: bool
    var eosSeen: bool
    var channelId: Value
    var sessionId: Value
    var sampleRate: nat
    var codec: Value
    var audioQueue: seq<Option<bytes>>
    var audioAccum: bytes
    var audioOverflow: bool
    var asrRunning: bool

    function Now(): View
      reads this
    {
      View(started, eosSeen, channelId, sessionId, sampleRate, codec, audioQueue, audioAccum, audioOverflow, asrRunning)
    }

    constructor (cap: nat)
      ensures Now() == FRESH && maxAudioBytes == cap
    {
      maxAudioBytes := cap;
      started, eosSeen, audioOverflow, asrRunning := false, false, false, false;
      channelId, sessionId, codec := Text(""), Text(""), Text("LPCM");
      sampleRate := 16000;
      audioQueue, audioAccum := [], [];
    }

    method HandleStart(payload: bytes) returns (replies: seq<Reply>, open: bool)
      modifies this
      ensures Turn(Now(), replies, open) == Starts(old(Now()), payload)
    {
      hide Decode, Lookup;
      var decoded := CborDecode(payload);
      if decoded.Err? {
        return if decoded.error.Malformed? then [Error(BadStart)] else [], false;
      }
      if !decoded.value.value.Map? {
        return [Error(BadStart)], false;
      }
      var meta := decoded.value.value.entries;
      channelId := Lookup(meta, "channel_id", Text(""));
      sessionId := Lookup(meta, "session_id", Text(""));
      sampleRate := Rate(Lookup(meta, "sample_rate", UInt(16000)));
      codec := Lookup(meta, "codec", Text("LPCM"));
      started := true;
      asrRunning := true;
      return [], true;
    }

    method HandleAudio(payload: bytes) returns (replies: seq<Reply>, open: bool)
      modifies this
      ensures Turn(Now(), replies, open) == Hears(maxAudioBytes, old(Now()), payload)
    {
      if !started {
        return [Error(UnexpectedFrame)], false;
      }
      if !audioOverflow {
        if |audioAccum| + |payload| > maxAudioBytes {
          audioOverflow := true;
          audioAccum := [];
        } else {
          audioAccum := audioAccum + payload;
        }
      }
      audioQueue := audioQueue + [Some(payload)];
      return [], true;
    }

    method HandleEos(outcome: Outcome) returns (replies: seq<Reply>, open: bool)
      modifies this
      ensures Turn(Now(), replies, open) == Ends(old(Now()), outcome)
    {
      if !started || eosSeen {
        return [Error(UnexpectedFrame)], false;
      }
      eosSeen := true;
      audioQueue := audioQueue + [None];
      if !asrRunning {
        return [Error(Internal)], false;
      }
      match outcome {
        case Answered(nlsml) => return [Result(nlsml)], true;
        case Failed => return [Error(AsrFailed)], false;
        case Lost => return [], false;
      }
    }

    method Dispatch(m: Message, outcome: Outcome) returns (replies: seq<Reply>, open: bool)
      modifies this
      ensures Turn(Now(), replies, open) == Dispatched(maxAudioBytes, old(Now()), m, outcome)
    {
      hide Starts, Hears, Ends;
      if m.kind == START {
        replies, open := HandleStart(m.payload);
      } else if m.kind == AUDIO {
        replies, open := HandleAudio(m.payload);
      } else if m.kind == EOS {
        replies, open := HandleEos(outcome);
      } else {
        return [], m.kind != STOP;
      }
    }

    /** `_handle`: frames are read and dispatched until one closes the connection or none is left. */
    method Handle(stream: bytes, outcome: Outcome) returns (replies: seq<Reply>)
      requires Now() == FRESH
      modifies this
      ensures replies == Served(maxAudioBytes, MessagesIn(stream), outcome).replies
    {
      hide ReadFrame, Dispatched;
      replies := [];
      var left := stream;
      ghost var done: seq<Message> := [];
      var open := true;
      NothingServed(maxAudioBytes, outcome);
      while open && ReadFrame(left).Frame?
        invariant done + MessagesIn(left) == MessagesIn(stream)
        invariant Turn(Now(), replies, open) == Served(maxAudioBytes, done, outcome)
        decreases |left|
      {
        var f := ReadFrame(left);
        FrameShrinks(left);
        var m := Message(f.kind, f.payload);
        ghost var before := left;
        left := f.rest;
        var more: seq<Reply>;
        more, open := Dispatch(m, outcome);
        replies := replies + more;
        assert done + MessagesIn(before) == (done + [m]) + MessagesIn(left);
        ServedMore(maxAudioBytes, done, m, outcome);
        done := done + [m];
      }
      if open {
        assert done + [] == done;
      } else {
        ClosedStays(maxAudioBytes, done, MessagesIn(left), outcome);
      }
    }
  }

  lemma FrameShrinks(stream: bytes)
    requires ReadFrame(stream).Frame?
    ensures |ReadFrame(stream).rest| < |stream|
  {
  }

  /** The whole frames at the head of a byte stream, up to the first bad size. */
  function MessagesIn(stream: bytes): seq<Message>
    decreases |stream|
  {
    match ReadFrame(stream)
    case Frame(kind, payload, rest) =>
      FrameShrinks(stream);
      [Message(kind, payload)] + MessagesIn(rest)
    case _ => []
  }

  // ---------- Any sequence of frames ----------

  /** The connection after these frames; what comes after it was closed is not looked at. */
  function Served(cap: nat, frames: seq<Message>, outcome: Outcome): Turn {
    if frames == [] then Turn(FRESH, [], true)
    else
      var n := |frames| - 1;
      var before := Served(cap, frames[..n], outcome);
      if !before.open then before
      else
        var last := Dispatched(cap, before.view, frames[n], outcome);
        Turn(last.view, before.replies + last.replies, last.open)
  }

  lemma NothingServed(cap: nat, outcome: Outcome)
    ensures Served(cap, [], outcome) == Turn(FRESH, [], true)
  {
  }

  lemma ServedMore(cap: nat, frames: seq<Message>, m: Message, outcome: Outcome)
    ensures var before, after := Served(cap, frames, outcome), Served(cap, frames + [m], outcome);
      if !before.open then after == before
      else
        var last := Dispatched(cap, before.view, m, outcome);
        after == Turn(last.view, before.replies + last.replies, last.open)
  {
    hide Dispatched;
    assert (frames + [m])[..|frames|] == frames;
  }

  lemma {:induction false} ClosedStays(cap: nat, frames: seq<Message>, more: seq<Message>, outcome: Outcome)
    requires !Served(cap, frames, outcome).open
    ensures Served(cap, frames + more, outcome) == Served(cap, frames, outcome)
    decreases more
  {
    hide Dispatched;
    if more == [] {
      assert frames + more == frames;
    } else {
      ServedMore(cap, frames, more[0], outcome);
      assert frames + [more[0]] + more[1..] == frames + more;
      ClosedStays(cap, frames + [more[0]], more[1..], outcome);
    }
  }

  /** The answers so far, and what they say about where the connection is. */
  predicate Answering(t: Turn) {
    (t.view.started ==> t.view.asrRunning) &&
    match |t.replies|
    case 0 => t.open ==> !t.view.eosSeen
    case 1 => if t.replies[0].Result? then t.view.eosSeen else Refusal(t, 0)
    case 2 => t.replies[0].Result? && Refusal(t, 1)
    case _ => false
  }

  predicate Refusal(t: Turn, i: nat)
    requires i < |t.replies|
  {
    t.replies[i].Error? && t.replies[i].code != Internal && !t.open
  }

  function Followed(t: Turn, next: Turn): Turn {
    Turn(next.view, t.replies + next.replies, next.open)
  }

  lemma StartKeepsAnswering(t: Turn, payload: bytes)
    requires Answering(t) && t.open
    ensures Answering(Followed(t, Starts(t.view, payload)))
  {
    hide Decode, Lookup;
  }

  lemma RestKeepsAnswering(cap: nat, t: Turn, m: Message, outcome: Outcome)
    requires Answering(t) && t.open && m.kind != START
    ensures Answering(Followed(t, Dispatched(cap, t.view, m, outcome)))
  {
    hide Starts;
  }

  lemma {:induction false} ServedIsAnswering(cap: nat, frames: seq<Message>, outcome: Outcome)
    ensures Answering(Served(cap, frames, outcome))
    decreases |frames|
  {
    hide Answering, Starts, Hears, Ends;
    if frames == [] {
      FreshIsAnswering();
    } else {
      var n := |frames| - 1;
      ServedIsAnswering(cap, frames[..n], outcome);
      var before := Served(cap, frames[..n], outcome);
      if before.open {
        if frames[n].kind == START {
          StartKeepsAnswering(before, frames[n].payload);
        } else {
          RestKeepsAnswering(cap, before, frames[n], outcome);
        }
      }
    }
  }

  lemma FreshIsAnswering()
    ensures Answering(Turn(FRESH, [], true))
  {
  }

  /**
   Whatever frames a client sends, a connection answers nothing, a RESULT, an ERROR, or a RESULT and
   then an ERROR; an ERROR is the last thing it does; and INTERNAL is never sent.
   */
  lemma AnswersAreWellFormed(cap: nat, frames: seq<Message>, outcome: Outcome)
    ensures var t := Served(cap, frames, outcome);
      |t.replies| <= 2 && (|t.replies| == 2 ==> t.replies[0].Result? && t.replies[1].Error?) &&
      forall i | 0 <= i < |t.replies| && t.replies[i].Error? ::
        i == |t.replies| - 1 && !t.open && t.replies[i].code != Internal
  {
    hide Served;
    ServedIsAnswering(cap, frames, outcome);
  }

  /** The payloads of the AUDIO frames. */
  function AudioIn(frames: seq<Message>): bytes {
    if frames == [] then []
    else
      var n := |frames| - 1;
      AudioIn(frames[..n]) + if frames[n].kind == AUDIO then frames[n].payload else []
  }

  function Queued(items: seq<Option<bytes>>): bytes {
    if items == [] then []
    else
      var n := |items| - 1;
      Queued(items[..n]) + if items[n] == None then [] else items[n].value
  }

  predicate Mirrored(cap: nat, v: View, sent: bytes) {
    v.overflow == (|sent| > cap) && v.audio == (if v.overflow then [] else sent) && Queued(v.queue) == sent
  }

  lemma QueueGrows(items: seq<Option<bytes>>, item: Option<bytes>)
    ensures Queued(items + [item]) == Queued(items) + if item == None then [] else item.value
  {
    assert (items + [item])[..|items|] == items;
  }

  lemma DispatchMirrors(cap: nat, v: View, m: Message, outcome: Outcome, sent: bytes)
    requires Mirrored(cap, v, sent)
    ensures var t := Dispatched(cap, v, m, outcome);
      if t.open then Mirrored(cap, t.view, sent + if m.kind == AUDIO then m.payload else [])
      else |t.view.audio| <= cap
  {
    hide Queued, Decode, Lookup;
    assert sent + [] == sent;
    QueueGrows(v.queue, Some(m.payload));
    QueueGrows(v.queue, None);
  }

  /**
   While the connection is open the mirror holds exactly the audio sent so far, or nothing once that
   passed the cap, and the recognizer was queued every payload; the mirror never exceeds the cap.
   */
  lemma {:induction false} AudioIsMirrored(cap: nat, frames: seq<Message>, outcome: Outcome)
    ensures var t := Served(cap, frames, outcome);
      |t.view.audio| <= cap && (t.open ==> Mirrored(cap, t.view, AudioIn(frames)))
    decreases |frames|
  {
    hide Dispatched;
    if frames != [] {
      var n := |frames| - 1;
      AudioIsMirrored(cap, frames[..n], outcome);
      var before := Served(cap, frames[..n], outcome);
      if before.open {
        DispatchMirrors(cap, before.view, frames[n], outcome, AudioIn(frames[..n]));
      }
    }
  }
}
