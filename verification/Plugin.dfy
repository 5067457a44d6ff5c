/**
 The recognizer channel of the UniMRCP plugin (native/unimrcp-plugin/src/sandroid_recog_engine.c): its
 callbacks, in any order, and the frames they put on each bridge connection.
 */
module Plugin {
  import opened Bytes
  import opened Bridge
  import Utf8
  import Cbor
  import CborWriter

  /** Whether a send reached the peer whole, was given up, or failed. */
  datatype Delivery = Delivered | Dropped | Broken

  datatype Detected = Activity | Inactivity | NoInput | Nothing

  datatype Callback =
    | Open(connects: bool)
    | Recognize(codec: bool, timers: Option<bool>, id: string, rate: nat, startSent: bool)
    | Stop
    | StartTimers
    | OtherRequest
    | Close
    /** One media frame; `made` says whether an MRCP event could be created. */
    | Write(isAudio: bool, pcm: bytes, event: Detected, made: bool, eosSent: bool, delivery: Delivery)

  /** The channel, and the frames sent on each connection it has had; the last is `bridge`. */
  datatype State = State(
    bridge: bool, started: bool, eosSent: bool, recognizing: bool, stopping: bool, timers: bool, canned: bool,
    sent: seq<seq<Message>>)

  const CREATED := State(false, false, false, false, false, false, false, [])

  function Sends(s: State, m: Message): State {
    if s.sent == [] then s
    else
      var n := |s.sent| - 1;
      s.(sent := s.sent[n := s.sent[n] + [m]])
  }

  /** Closing the socket and going on with the canned result. */
  function Loses(s: State): State {
    s.(bridge := false, canned := true)
  }

  predicate StartFits(id: string, rate: nat) {
    rate <= 0xFFFF_FFFF && Cbor.TextFits(id) &&
    |CborWriter.StartPayload(Utf8.Encode(id), Utf8.Encode(id), rate, CborWriter.LPCM)| <= 512
  }

  function StartMessage(id: string, rate: nat): Message
    requires StartFits(id, rate)
  {
    Message(START, CborWriter.StartPayload(Utf8.Encode(id), Utf8.Encode(id), rate, CborWriter.LPCM))
  }

  function Opened(s: State, connects: bool): State {
    if connects then s.(bridge := true, sent := s.sent + [[]]) else Loses(s)
  }

  function Recognized(s: State, a: Callback): State
    requires a.Recognize?
  {
    if !a.codec then s
    else
      var t := s.(timers := a.timers != Some(false), recognizing := true);
      if !s.bridge || s.started then t
      else if StartFits(a.id, a.rate) && a.startSent then
        Sends(t, StartMessage(a.id, a.rate)).(started := true, eosSent := false)
      else Loses(t)
  }

  /** Voice inactivity or no input: the request completes, unless no event can be made. */
  function Detects(s: State, a: Callback): State
    requires a.Write?
  {
    match a.event
    case Inactivity =>
      var t :=
        if !(s.bridge && s.started && !s.eosSent) then s
        else if a.eosSent then Sends(s, Message(EOS, [])).(eosSent := true)
        else Loses(s);
      t.(recognizing := !a.made)
    case NoInput => if s.timers then s.(recognizing := !a.made) else s
    case _ => s
  }

  function Forwards(s: State, a: Callback): State
    requires a.Write?
  {
    if !(s.bridge && s.started && !s.eosSent && a.isAudio) || a.pcm == [] then s
    else if |a.pcm| > 0x10_0000 - 1 || a.delivery.Broken? then Loses(s)
    else if a.delivery.Dropped? then s
    else Sends(s, Message(AUDIO, a.pcm))
  }

  function Written(s: State, a: Callback): State
    requires a.Write?
  {
    if s.stopping then s.(stopping := false, recognizing := false)
    else if !s.recognizing then s
    else Forwards(Detects(s, a), a)
  }

  function Closed(s: State): State {
    if s.bridge then Sends(s, Message(STOP, [])).(bridge := false) else s
  }

  function Step(s: State, a: Callback): State {
    match a
    case Open(connects) => Opened(s, connects)
    case Recognize(_, _, _, _, _) => Recognized(s, a)
    case Stop => s.(stopping := true)
    case StartTimers => s.(timers := true)
    case OtherRequest => s
    case Close => Closed(s)
    case Write(_, _, _, _, _, _) => Written(s, a)
  }

  class RecogChannel {
    var bridge: bool
    var bridgeStarted: bool
    var bridgeEosSent: bool
    var recogRequest: bool
    var stopResponse: bool
    var timersStarted: bool
    var useCanned: bool
    var sent: seq<seq<Message>>

    function Now(): State
      reads this
    {
      State(bridge, bridgeStarted, bridgeEosSent, recogRequest, stopResponse, timersStarted, useCanned, sent)
    }

    predicate Valid()
      reads this
    {
      bridge ==> sent != []
    }

    constructor ()
      ensures Valid() && Now() == CREATED
    {
      bridge, bridgeStarted, bridgeEosSent, recogRequest := false, false, false, false;
      stopResponse, timersStarted, useCanned := false, false, false;
      sent := [];
    }

    method Send(m: Message)
      requires Valid() && bridge
      modifies this`sent
      ensures Valid() && Now() == Sends(old(Now()), m)
    {
      sent := sent[|sent| - 1 := sent[|sent| - 1] + [m]];
    }

    method OpenChannel(connects: bool)
      requires Valid()
      modifies this
      ensures Valid() && Now() == Step(old(Now()), Open(connects))
    {
      if connects {
        bridge := true;
        sent := sent + [[]];
      } else {
        bridge := false;
        useCanned := true;
      }
    }

    method ProcessRecognize(a: Callback)
      requires Valid() && a.Recognize?
      modifies this
      ensures Valid() && Now() == Step(old(Now()), a)
    {
      if !a.codec {
        return;
      }
      timersStarted := true;
      if a.timers.Some? {
        timersStarted := a.timers.value;
      }
      if bridge && !bridgeStarted {
        if StartFits(a.id, a.rate) && a.startSent {
          Send(StartMessage(a.id, a.rate));
          bridgeStarted := true;
          bridgeEosSent := false;
        } else {
          bridge := false;
          useCanned := true;
        }
      }
      recogRequest := true;
    }

    method StreamWrite(a: Callback)
      requires Valid() && a.Write?
      modifies this
      ensures Valid() && Now() == Step(old(Now()), a)
    {
      hide Recognized, Opened, Closed;
      if stopResponse {
        stopResponse := false;
        recogRequest := false;
        return;
      }
      if !recogRequest {
        return;
      }
      if a.event.Inactivity? {
        if bridge && bridgeStarted && !bridgeEosSent {
          if a.eosSent {
            Send(Message(EOS, []));
            bridgeEosSent := true;
          } else {
            bridge := false;
            useCanned := true;
          }
        }
        if a.made {
          recogRequest := false;
        }
      } else if a.event.NoInput? && timersStarted && a.made {
        recogRequest := false;
      }
      if bridge && bridgeStarted && !bridgeEosSent && a.isAudio {
        SendAudio(a.pcm, a.delivery);
      }
    }

    /** `sbr_send_audio`, and what its caller does when it fails. */
    method SendAudio(pcm: bytes, delivery: Delivery)
      requires Valid() && bridge
      modifies this`sent, this`bridge, this`useCanned
      ensures Valid()
      ensures Now() ==
        if pcm == [] then old(Now())
        else if |pcm| > 0x10_0000 - 1 || delivery.Broken? then Loses(old(Now()))
        else if delivery.Dropped? then old(Now())
        else Sends(old(Now()), Message(AUDIO, pcm))
    {
      if pcm == [] {
        return;
      }
      if |pcm| > 0x10_0000 - 1 || delivery.Broken? {
        bridge := false;
        useCanned := true;
      } else if delivery.Delivered? {
        Send(Message(AUDIO, pcm));
      }
    }

    method CloseChannel()
      requires Valid()
      modifies this
      ensures Valid() && Now() == Step(old(Now()), Close)
    {
      if bridge {
        Send(Message(STOP, []));
        bridge := false;
      }
    }
  }

  // ---------- The frames of one connection ----------

  datatype Phase = Silent | Talking | Quiet | Stopped

  function Advance(p: Option<Phase>, kind: byte): Option<Phase> {
    if p == None || p == Some(Stopped) then None
    else if kind == STOP then Some(Stopped)
    else if p.value.Silent? && kind == START then Some(Talking)
    else if p.value.Talking? && kind == AUDIO then Some(Talking)
    else if p.value.Talking? && kind == EOS then Some(Quiet)
    else None
  }

  /** How far the frames have come, or `None` once one was out of place. */
  function PhaseOf(frames: seq<Message>): Option<Phase> {
    if frames == [] then Some(Silent)
    else
      var n := |frames| - 1;
      Advance(PhaseOf(frames[..n]), frames[n].kind)
  }

  function Times(kind: byte, n: nat): seq<byte> {
    seq(n, _ => kind)
  }

  function Kinds(frames: seq<Message>): (kinds: seq<byte>)
    ensures |kinds| == |frames|
  {
    seq(|frames|, i requires 0 <= i < |frames| => frames[i].kind)
  }

  /** `(START AUDIO* EOS?)? STOP?`, with the number of AUDIO frames and the options taken. */
  function Pattern(started: bool, audios: nat, ended: bool, stopped: bool): seq<byte> {
    (if started then [START] + Times(AUDIO, audios) + (if ended then [EOS] else []) else []) +
    (if stopped then [STOP] else [])
  }

  ghost predicate InProtocol(frames: seq<Message>) {
    exists started, audios: nat, ended, stopped :: Kinds(frames) == Pattern(started, audios, ended, stopped)
  }

  lemma {:induction false} PhaseMeansPattern(frames: seq<Message>)
    returns (started: bool, audios: nat, ended: bool, stopped: bool)
    requires PhaseOf(frames).Some?
    ensures Kinds(frames) == Pattern(started, audios, ended, stopped)
    ensures match PhaseOf(frames).value
      case Silent => !started && !stopped
      case Talking => started && !ended && !stopped
      case Quiet => started && ended && !stopped
      case Stopped => stopped
  {
    if frames == [] {
      started, audios, ended, stopped := false, 0, false, false;
    } else {
      var n := |frames| - 1;
      started, audios, ended, stopped := PhaseMeansPattern(frames[..n]);
      var kind := frames[n].kind;
      assert Kinds(frames) == Kinds(frames[..n]) + [kind];
      if kind == START {
        started, audios, ended := true, 0, false;
      } else if kind == AUDIO {
        assert Times(AUDIO, audios) + [AUDIO] == Times(AUDIO, audios + 1);
        audios := audios + 1;
      } else if kind == EOS {
        ended := true;
      } else {
        stopped := true;
      }
    }
  }

  lemma {:induction false} PatternMeansPhase(
    frames: seq<Message>, started: bool, audios: nat, ended: bool, stopped: bool)
    requires Kinds(frames) == Pattern(started, audios, ended, stopped)
    ensures PhaseOf(frames).Some?
    ensures !stopped ==> PhaseOf(frames).value == if !started then Silent else if ended then Quiet else Talking
    decreases |frames|
  {
    if frames != [] {
      var n := |frames| - 1;
      var all := Pattern(started, audios, ended, stopped);
      assert Kinds(frames[..n]) == all[..n] && frames[n].kind == all[n];
      if stopped {
        PatternMeansPhase(frames[..n], started, audios, ended, false);
      } else if ended {
        PatternMeansPhase(frames[..n], started, audios, false, false);
      } else if audios > 0 {
        PatternMeansPhase(frames[..n], started, audios - 1, false, false);
      } else {
        assert frames[..n] == [];
      }
    }
  }

  lemma PhaseIffProtocol(frames: seq<Message>)
    ensures PhaseOf(frames).Some? <==> InProtocol(frames)
  {
    if PhaseOf(frames).Some? {
      var started, audios, ended, stopped := PhaseMeansPattern(frames);
    }
    if started, audios: nat, ended, stopped :| Kinds(frames) == Pattern(started, audios, ended, stopped) {
      PatternMeansPhase(frames, started, audios, ended, stopped);
    }
  }

  // ---------- Runs ----------

  function After(run: seq<Callback>): State {
    if run == [] then CREATED else Step(After(run[..|run| - 1]), run[|run| - 1])
  }

  /** A connection opened now would be sent AUDIO that no START announced. */
  predicate MidUtterance(s: State) {
    s.started && !s.eosSent
  }

  /** No connection is opened in the middle of an utterance. */
  predicate OpensBetween(run: seq<Callback>) {
    run == [] ||
    var n := |run| - 1;
    OpensBetween(run[..n]) && (run[n] == Open(true) ==> !MidUtterance(After(run[..n])))
  }

  predicate OpensNothing(run: seq<Callback>) {
    Open(true) !in run
  }

  predicate AllOrdered(s: State) {
    forall c | 0 <= c < |s.sent| :: PhaseOf(s.sent[c]).Some?
  }

  /** The flags say how far the current connection has come. */
  predicate InStep(s: State) {
    AllOrdered(s) &&
    (s.bridge ==>
       s.sent != [] &&
       var phase := PhaseOf(s.sent[|s.sent| - 1]).value;
       if !s.started then phase == Silent
       else if !s.eosSent then phase == Talking
       else phase == Silent || phase == Quiet)
  }

  lemma PhaseAfter(frames: seq<Message>, m: Message)
    ensures PhaseOf(frames + [m]) == Advance(PhaseOf(frames), m.kind)
  {
    assert (frames + [m])[..|frames|] == frames;
  }

  lemma SendKeepsOrder(s: State, m: Message)
    requires s.sent != [] && AllOrdered(s)
    requires Advance(PhaseOf(s.sent[|s.sent| - 1]), m.kind).Some?
    ensures AllOrdered(Sends(s, m)) && |Sends(s, m).sent| == |s.sent|
    ensures PhaseOf(Sends(s, m).sent[|s.sent| - 1]) == Advance(PhaseOf(s.sent[|s.sent| - 1]), m.kind)
  {
    hide PhaseOf;
    PhaseAfter(s.sent[|s.sent| - 1], m);
  }

  lemma OpenKeepsInStep(s: State, connects: bool)
    requires InStep(s) && (connects ==> !MidUtterance(s))
    ensures InStep(Opened(s, connects))
  {
  }

  lemma RecognizeKeepsInStep(s: State, a: Callback)
    requires InStep(s) && a.Recognize?
    ensures InStep(Recognized(s, a))
  {
    hide PhaseOf, StartMessage, StartFits;
    if a.codec && s.bridge && !s.started && StartFits(a.id, a.rate) {
      StartIsStart(a.id, a.rate);
      SendKeepsOrder(s.(timers := a.timers != Some(false), recognizing := true), StartMessage(a.id, a.rate));
    }
  }

  lemma StartIsStart(id: string, rate: nat)
    requires StartFits(id, rate)
    ensures StartMessage(id, rate).kind == START
  {
  }

  lemma DetectKeepsInStep(s: State, a: Callback)
    requires InStep(s) && a.Write?
    ensures InStep(Detects(s, a))
  {
    hide PhaseOf;
    if s.bridge && MidUtterance(s) {
      SendKeepsOrder(s, Message(EOS, []));
    }
  }

  lemma ForwardKeepsInStep(s: State, a: Callback)
    requires InStep(s) && a.Write?
    ensures InStep(Forwards(s, a))
  {
    hide PhaseOf;
    if s.bridge && MidUtterance(s) {
      SendKeepsOrder(s, Message(AUDIO, a.pcm));
    }
  }

  lemma StepKeepsInStep(s: State, a: Callback)
    requires InStep(s) && (a == Open(true) ==> !MidUtterance(s))
    ensures InStep(Step(s, a))
  {
    hide PhaseOf, Opened, Recognized, Detects, Forwards;
    match a {
      case Open(connects) => OpenKeepsInStep(s, connects);
      case Recognize(_, _, _, _, _) => RecognizeKeepsInStep(s, a);
      case Write(_, _, _, _, _, _) =>
        DetectKeepsInStep(s, a);
        ForwardKeepsInStep(Detects(s, a), a);
      case Close =>
        if s.bridge {
          SendKeepsOrder(s, Message(STOP, []));
        }
      case _ =>
    }
  }

  lemma {:induction false} RunKeepsInStep(run: seq<Callback>)
    requires OpensBetween(run)
    ensures InStep(After(run))
    decreases |run|
  {
    hide Step, InStep;
    if run == [] {
      CreatedInStep();
    } else {
      var n := |run| - 1;
      RunKeepsInStep(run[..n]);
      StepKeepsInStep(After(run[..n]), run[n]);
    }
  }

  lemma CreatedInStep()
    ensures InStep(CREATED)
  {
  }

  /**
   Whatever the order of the callbacks, as long as no connection is opened in the middle of an
   utterance, the frames on every connection follow the protocol.
   */
  lemma FramesFollowProtocol(run: seq<Callback>, c: nat)
    requires OpensBetween(run) && c < |After(run).sent|
    ensures InProtocol(After(run).sent[c])
  {
    hide After, PhaseOf;
    RunKeepsInStep(run);
    PhaseIffProtocol(After(run).sent[c]);
  }

  // ---------- The condition is exact ----------

  lemma {:induction false} ExtendsBetween(run: seq<Callback>, more: seq<Callback>)
    requires OpensBetween(run) && OpensNothing(more)
    ensures OpensBetween(run + more)
    decreases |more|
  {
    hide After;
    if more == [] {
      assert run + more == run;
    } else {
      var n := |more| - 1;
      assert (run + more)[..|run| + n] == run + more[..n] && (run + more)[|run| + n] == more[n];
      ExtendsBetween(run, more[..n]);
    }
  }

  /** One frame that clears a pending STOP and sends nothing; a RECOGNIZE; a frame of audio. */
  function Witness(): seq<Callback> {
    [Write(false, [], Nothing, true, true, Delivered), Recognize(true, None, "", 8000, true),
     Write(true, [0], Nothing, true, true, Delivered)]
  }

  lemma AfterOne(run: seq<Callback>, a: Callback)
    ensures After(run + [a]) == Step(After(run), a)
  {
    hide Step;
    assert (run + [a])[..|run|] == run;
  }

  lemma AfterWitness(run: seq<Callback>)
    ensures After(run + Witness()) == Step(Step(Step(After(run), Witness()[0]), Witness()[1]), Witness()[2])
  {
    hide Step, After;
    var w := Witness();
    AfterOne(run, w[0]);
    AfterOne(run + [w[0]], w[1]);
    AfterOne(run + [w[0]] + [w[1]], w[2]);
    assert run + w == run + [w[0]] + [w[1]] + [w[2]];
  }

  lemma WitnessMisorders(s: State)
    requires s.bridge && MidUtterance(s) && s.sent != [] && s.sent[|s.sent| - 1] == []
    ensures var t := Step(Step(Step(s, Witness()[0]), Witness()[1]), Witness()[2]);
      !AllOrdered(t)
  {
    hide PhaseOf;
    var n := |s.sent| - 1;
    var t := Step(Step(Step(s, Witness()[0]), Witness()[1]), Witness()[2]);
    assert t.sent[n] == [] + [Message(AUDIO, [0])];
    PhaseAfter([], Message(AUDIO, [0]));
    NothingIsSilent();
  }

  lemma NothingIsSilent()
    ensures PhaseOf([]) == Some(Silent)
  {
  }

  /**
   After a run that kept to it, a connection may be opened exactly when no utterance is under way:
   otherwise some further callbacks break the protocol on it, and nothing else ever does.
   */
  lemma SafeToOpenIff(run: seq<Callback>)
    requires OpensBetween(run)
    ensures (forall more | OpensNothing(more) :: AllOrdered(After(run + [Open(true)] + more))) <==>
      !MidUtterance(After(run))
  {
    hide AllOrdered, PhaseOf;
    var reopened := run + [Open(true)];
    AfterOne(run, Open(true));
    if MidUtterance(After(run)) {
      AfterWitness(reopened);
      WitnessMisorders(After(reopened));
      assert OpensNothing(Witness());
    } else {
      assert reopened[..|run|] == run;
      forall more | OpensNothing(more)
        ensures AllOrdered(After(reopened + more))
      {
        ExtendsBetween(reopened, more);
        RunKeepsInStep(reopened + more);
      }
    }
  }

  /** Open, RECOGNIZE, open again, and a frame of audio: AUDIO without START on the second connection. */
  lemma ReopeningMisorders()
    ensures var run := [Open(true), Recognize(true, None, "", 8000, true), Open(true)];
      !AllOrdered(After(run + Witness()))
  {
    hide AllOrdered;
    var a, b := Open(true), Recognize(true, None, "", 8000, true);
    EmptyIdFits();
    AfterOne([], a);
    AfterOne([a], b);
    AfterOne([a, b], a);
    assert [] + [a] == [a] && [a] + [b] == [a, b] && [a, b] + [a] == [a, b, a];
    AfterWitness([a, b, a]);
    WitnessMisorders(After([a, b, a]));
  }

  lemma EmptyIdFits()
    ensures StartFits("", 8000)
  {
  }
}
