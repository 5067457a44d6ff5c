/**
 What the plugin sends for a whole utterance: START, the audio that was delivered, in order, and EOS once
 the detector reports inactivity.
 */
module PluginUtterances {
  import opened Bytes
  import opened Bridge
  import opened BridgeReplies
  import opened Plugin

  /** An utterance is under way and its request has not completed. */
  predicate Talking(s: State) {
    s.bridge && s.started && !s.eosSent && s.recognizing && !s.stopping && s.sent != []
  }

  /** A callback that leaves the utterance under way: its audio, if any, does not break the connection. */
  predicate GoesOn(a: Callback) {
    match a
    case Write(isAudio, pcm, event, made, _, delivery) =>
      !event.Inactivity? && (event.NoInput? ==> !made) &&
      (isAudio && pcm != [] ==> !delivery.Broken? && |pcm| < 0x10_0000)
    case Recognize(_, _, _, _, _) => true
    case StartTimers => true
    case OtherRequest => true
    case _ => false
  }

  /** The PCM that was delivered, frame by frame. */
  function Payloads(talk: seq<Callback>): seq<bytes> {
    if talk == [] then []
    else
      var n := |talk| - 1;
      Payloads(talk[..n]) +
      if talk[n].Write? && talk[n].isAudio && talk[n].pcm != [] && talk[n].delivery.Delivered? then [talk[n].pcm]
      else []
  }

  /** `s` with these frames added on its last connection. */
  function WithFrames(s: State, frames: seq<Message>): seq<seq<Message>>
    requires s.sent != []
  {
    var n := |s.sent| - 1;
    s.sent[n := s.sent[n] + frames]
  }

  lemma StepGoesOn(s: State, a: Callback)
    requires Talking(s) && GoesOn(a)
    ensures Talking(Step(s, a)) && Step(s, a).sent == WithFrames(s, AudioFrames(Payloads([a])))
  {
    hide Payloads, StartFits, StartMessage;
    PayloadsOne(a);
    var before := s.sent[|s.sent| - 1];
    assert AudioFrames([]) == [] && before + [] == before;
    assert s.sent == s.sent[|s.sent| - 1 := before];
    if a.Write? {
      assert AudioFrames([a.pcm]) == [Message(AUDIO, a.pcm)];
      assert Step(s, a) == Forwards(Detects(s, a), a);
    }
  }

  lemma PayloadsOne(a: Callback)
    ensures Payloads([a]) ==
      if a.Write? && a.isAudio && a.pcm != [] && a.delivery.Delivered? then [a.pcm] else []
  {
    assert [a][..0] == [];
    if a.Write? {
      assert [] + [a.pcm] == [a.pcm];
    }
  }

  lemma {:induction false} TalkGoesOn(run: seq<Callback>, talk: seq<Callback>)
    requires Talking(After(run)) && forall i | 0 <= i < |talk| :: GoesOn(talk[i])
    ensures Talking(After(run + talk))
    ensures After(run + talk).sent == WithFrames(After(run), AudioFrames(Payloads(talk)))
    decreases |talk|
  {
    hide After, Step, GoesOn, Payloads;
    var s := After(run);
    if talk == [] {
      assert run + talk == run;
      NoPayloads();
      assert s.sent[|s.sent| - 1] + [] == s.sent[|s.sent| - 1];
    } else {
      var n := |talk| - 1;
      TalkGoesOn(run, talk[..n]);
      AfterOne(run + talk[..n], talk[n]);
      StepGoesOn(After(run + talk[..n]), talk[n]);
      assert run + talk[..n] + [talk[n]] == run + talk;
      PayloadsMore(talk[..n], talk[n]);
      assert talk[..n] + [talk[n]] == talk;
      var a, b := AudioFrames(Payloads(talk[..n])), AudioFrames(Payloads([talk[n]]));
      assert AudioFrames(Payloads(talk)) == a + b;
      assert s.sent[|s.sent| - 1] + a + b == s.sent[|s.sent| - 1] + (a + b);
    }
  }

  lemma NoPayloads()
    ensures AudioFrames(Payloads([])) == []
  {
  }

  lemma PayloadsMore(talk: seq<Callback>, a: Callback)
    ensures Payloads(talk + [a]) == Payloads(talk) + Payloads([a])
  {
    assert (talk + [a])[..|talk|] == talk && [a][..0] == [];
  }

  /** An open channel that has had no utterance yet. */
  predicate Idle(s: State) {
    s.bridge && !s.started && !s.stopping && s.sent != []
  }

  predicate Begins(a: Callback) {
    a.Recognize? && a.codec && a.startSent && StartFits(a.id, a.rate)
  }

  predicate Completes(a: Callback) {
    a.Write? && a.event.Inactivity? && a.eosSent
  }

  lemma StepBegins(s: State, a: Callback)
    requires Idle(s) && Begins(a)
    ensures Talking(Step(s, a)) && Step(s, a).sent == WithFrames(s, [StartMessage(a.id, a.rate)])
  {
    hide StartFits, StartMessage;
  }

  lemma StepCompletes(s: State, a: Callback)
    requires Talking(s) && Completes(a)
    ensures var t := Step(s, a);
      t.bridge && t.eosSent && t.recognizing == !a.made && t.sent == WithFrames(s, [Message(EOS, [])])
  {
  }

  /**
   From an idle channel: RECOGNIZE, any callbacks that leave the utterance under way, and inactivity put
   on the connection START, the delivered audio in order, and EOS, and nothing else.
   */
  lemma UtteranceIsSent(run: seq<Callback>, first: Callback, talk: seq<Callback>, last: Callback)
    requires Idle(After(run)) && Begins(first) && (forall i | 0 <= i < |talk| :: GoesOn(talk[i])) && Completes(last)
    ensures var s, t := After(run), After(run + [first] + talk + [last]);
      t.bridge && t.eosSent && t.recognizing == !last.made &&
      t.sent == WithFrames(s, Utterance(StartMessage(first.id, first.rate).payload, Payloads(talk), []))
  {
    hide After, Step, GoesOn, Payloads, StartFits, StartMessage;
    var s := After(run);
    AfterOne(run, first);
    StepBegins(s, first);
    TalkGoesOn(run + [first], talk);
    AfterOne(run + [first] + talk, last);
    StepCompletes(After(run + [first] + talk), last);
    var start, audio := StartMessage(first.id, first.rate), AudioFrames(Payloads(talk));
    StartIsStart(first.id, first.rate);
    assert start == Message(START, start.payload);
    var before := s.sent[|s.sent| - 1];
    assert before + [start] + audio + [Message(EOS, [])] == before + ([start] + audio + [Message(EOS, [])]);
  }

  // ---------- When the connection is given up ----------

  /** A connect, a START, a frame of audio or an EOS that fails. */
  predicate Fails(s: State, a: Callback) {
    match a
    case Open(connects) => !connects
    case Recognize(codec, _, id, rate, startSent) =>
      codec && s.bridge && !s.started && !(StartFits(id, rate) && startSent)
    case Write(isAudio, pcm, event, _, eosSent, delivery) =>
      !s.stopping && s.recognizing && s.bridge && MidUtterance(s) &&
      if event.Inactivity? then !eosSent else isAudio && pcm != [] && (delivery.Broken? || |pcm| >= 0x10_0000)
    case _ => false
  }

  lemma SendsOnly(s: State, m: Message)
    ensures Sends(s, m).(sent := s.sent) == s
  {
  }

  lemma WriteFailsIff(s: State, a: Callback)
    requires a.Write?
    ensures var t := Written(s, a); t.canned == (s.canned || Fails(s, a)) && t.bridge == (s.bridge && !Fails(s, a))
  {
    hide Sends;
    SendsOnly(s, Message(EOS, []));
    SendsOnly(Detects(s, a), Message(AUDIO, a.pcm));
  }

  lemma RecognizeFailsIff(s: State, a: Callback)
    requires a.Recognize?
    ensures var t := Recognized(s, a); t.canned == (s.canned || Fails(s, a)) && t.bridge == (s.bridge && !Fails(s, a))
  {
    hide Sends, StartFits, StartMessage;
    if StartFits(a.id, a.rate) {
      SendsOnly(s.(timers := a.timers != Some(false), recognizing := true), StartMessage(a.id, a.rate));
    }
  }

  /** A failure ends the connection and turns to the canned result; nothing else does, but for a close. */
  lemma StepFailsIff(s: State, a: Callback)
    ensures var t := Step(s, a);
      t.canned == (s.canned || Fails(s, a)) &&
      t.bridge == if Fails(s, a) || a.Close? then false else if a.Open? then true else s.bridge
  {
    hide Sends, Written, Recognized;
    match a {
      case Write(_, _, _, _, _, _) => WriteFailsIff(s, a);
      case Recognize(_, _, _, _, _) => RecognizeFailsIff(s, a);
      case Close => SendsOnly(s, Message(STOP, []));
      case _ =>
    }
  }

  ghost predicate FailsAt(run: seq<Callback>, i: nat) {
    i < |run| && Fails(After(run[..i]), run[i])
  }

  /** The channel falls back to the canned result exactly when something failed on the way. */
  lemma {:induction false} CannedIffFailed(run: seq<Callback>)
    ensures After(run).canned <==> exists i: nat :: FailsAt(run, i)
    decreases |run|
  {
    hide Step, Fails, FailsAt;
    if run == [] {
      NothingFails();
    } else {
      var n := |run| - 1;
      CannedIffFailed(run[..n]);
      StepFailsIff(After(run[..n]), run[n]);
      forall i: nat
        ensures FailsAt(run, i) <==> FailsAt(run[..n], i) || (i == n && Fails(After(run[..n]), run[n]))
      {
        FailsBefore(run, i);
      }
      assert FailsAt(run, n) <==> FailsAt(run[..n], n) || Fails(After(run[..n]), run[n]);
    }
  }

  lemma NothingFails()
    ensures forall i: nat :: !FailsAt([], i)
  {
  }

  lemma FailsBefore(run: seq<Callback>, i: nat)
    requires run != []
    ensures var n := |run| - 1;
      FailsAt(run, i) <==> FailsAt(run[..n], i) || (i == n && Fails(After(run[..n]), run[n]))
  {
    hide Fails, After;
    var n := |run| - 1;
    if i < n {
      assert run[..n][..i] == run[..i] && run[..n][i] == run[i];
    }
  }
}
