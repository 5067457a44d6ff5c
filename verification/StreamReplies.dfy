/**
 What the frames of a turn answer to (src/sandroid/api/routes.py): over every run, they are what the
 inputs of its tasks call for, in order; and the receive loop's replies to `start` messages.
 */
module StreamReplies {
  import opened Bytes
  import opened Text
  import opened Turn
  import opened Stream

  // ---------- Inputs and the frames they call for ----------

  /** What a turn's tasks are told from outside, and the transcript that its finalizer is left with. */
  datatype Input =
    | Detected(starts: bool)
    | Segmented(nonEmpty: bool)
    | Yielded(isFinal: bool, text: string)
    | Broke
    | Transcribed(text: string)
    | Decided(outcome: Outcome)

  /** What the step takes in; a cancelled turn takes in nothing more. */
  function InputOf(t: Turn, a: Action): Option<Input>
    requires Enabled(t, a)
  {
    match a
    case VadEvent(starts) => if t.cancelled then None else Some(Detected(starts))
    case SegmentFound(nonEmpty) => if t.cancelled then None else Some(Segmented(nonEmpty))
    case AsrYields(isFinal, text) => if t.cancelled then None else Some(Yielded(isFinal, text))
    case AsrFails => if t.cancelled then None else Some(Broke)
    case FinalizerJoins =>
      if t.cancelled || !t.pump.ending.Returned? then None else Some(Transcribed(t.pump.ending.text))
    case Recognized(outcome) => Some(Decided(outcome))
    case _ => None
  }

  /** The inputs of the turn with this id over a run, in order. */
  function InputsOf(cap: nat, moves: seq<Move>, id: int): seq<Input>
    requires Run(cap, moves)
    decreases |moves|
  {
    if moves == [] then []
    else
      var n := |moves| - 1;
      InputsOf(cap, moves[..n], id) + InputIn(After(cap, moves[..n]), moves[n], id)
  }

  function InputIn(s: State, m: Move, id: int): seq<Input>
    requires Legal(s, m)
  {
    if m.Task? && s.turns[m.index].id == id && InputOf(s.turns[m.index], m.action).Some? then
      [InputOf(s.turns[m.index], m.action).value]
    else []
  }

  /** The frames that an input calls for. */
  function CalledBy(input: Input): seq<Frame> {
    match input
    case Detected(true) => [SpeechStart]
    case Detected(false) => [SpeechEnd]
    case Segmented(_) => []
    case Yielded(true, text) => [Final(text)]
    case Yielded(false, text) => [Partial(text)]
    case Broke => [Error(AsrFailed)]
    case Transcribed(text) => if Blank(text) then [Error(NoSpeech)] else []
    case Decided(Answered) => [Verdict]
    case Decided(NoSuchScene) => [Error(UnknownScene)]
    case Decided(BadRequest) => [Error(InvalidRequest)]
    case Decided(Crashed) => []
  }

  function CalledFor(inputs: seq<Input>): seq<Frame> {
    if inputs == [] then []
    else
      var n := |inputs| - 1;
      CalledFor(inputs[..n]) + CalledBy(inputs[n])
  }

  lemma EmitsWhatIsCalledFor(t: Turn, a: Action)
    requires Enabled(t, a)
    ensures (if Emits(t, a).Some? then [Emits(t, a).value] else []) ==
      (if InputOf(t, a).Some? then CalledBy(InputOf(t, a).value) else [])
  {
    hide Blank;
  }

  lemma MoveAddsFrames(s: State, m: Move, id: int)
    requires Legal(s, m)
    ensures FramesOf(Apply(s, m).log, id) == FramesOf(s.log, id) + CalledFor(InputIn(s, m, id))
  {
    hide Enabled, Step, Hands, FramesOf, CalledBy, InputOf, Emits;
    NothingCalled();
    if m.Task? {
      TaskAddsFrames(s, m.index, m.action, id);
    } else {
      LoopAddsNoFrames(s, m, id);
      assert FramesOf(s.log, id) + [] == FramesOf(s.log, id);
    }
  }

  lemma NothingCalled()
    ensures CalledFor([]) == []
  {
  }

  lemma TaskAddsFrames(s: State, i: nat, a: Action, id: int)
    requires Legal(s, Task(i, a))
    ensures FramesOf(Apply(s, Task(i, a)).log, id) == FramesOf(s.log, id) + CalledFor(InputIn(s, Task(i, a), id))
  {
    hide Enabled, Step, FramesOf, CalledBy, InputOf, Emits, Hands;
    var t := s.turns[i];
    EmitsWhatIsCalledFor(t, a);
    if Emits(t, a).Some? {
      LogGrows(s.log, Sent(t.id, Emits(t, a).value));
    } else if Hands(t, a).Some? {
      LogGrows(s.log, Handed(t.id, Hands(t, a).value));
    }
    if InputOf(t, a).Some? {
      assert [InputOf(t, a).value][..0] == [];
      assert [] + CalledBy(InputOf(t, a).value) == CalledBy(InputOf(t, a).value);
    }
    assert FramesOf(s.log, id) + [] == FramesOf(s.log, id);
  }

  lemma ContinuesAddsNoFrames(s: State, next: Option<Opening>, id: int)
    ensures FramesOf(Continues(s, next).log, id) == FramesOf(s.log, id)
  {
    hide FramesOf;
    if next.Some? {
      LogGrows(s.log, Accepted(next.value.turnId));
    }
  }

  lemma AbandonsAddsNoFrames(s: State, next: Option<Opening>, id: int)
    ensures FramesOf(Abandons(s, next).log, id) == FramesOf(s.log, id)
  {
    hide FramesOf, Continues, Cancels, Dismisses;
    var s1 := Logged(s, Abandoning);
    LogGrows(s.log, Abandoning);
    ContinuesAddsNoFrames(s1, next, id);
    if s.turns != [] {
      var t := Last(s);
      var s2 := if t.cancelled then s1 else Logged(WithLast(s1, Cancels(t)), Put(t.id, None));
      LogGrows(s1.log, Put(t.id, None));
      ContinuesAddsNoFrames(s2, next, id);
    }
  }

  lemma LoopAddsNoFrames(s: State, m: Move, id: int)
    requires Legal(s, m) && !m.Task?
    ensures FramesOf(Apply(s, m).log, id) == FramesOf(s.log, id)
  {
    hide FramesOf, Continues, Abandons, Hears, EndsInput, Dismisses, Enabled;
    match m {
      case Receive(start) =>
        forall e: StartError
          ensures FramesOf(s.log + [Refused(e)], id) == FramesOf(s.log, id)
        {
          LogGrows(s.log, Refused(e));
        }
        forall next: Option<Opening>
          ensures FramesOf(Abandons(s, next).log, id) == FramesOf(s.log, id)
        {
          AbandonsAddsNoFrames(s, next, id);
        }
      case ReceivePcm(data) =>
        if s.turns != [] {
          LogGrows(s.log, Put(Last(s).id, Some(data)));
        }
      case ReceiveStop =>
        if s.turns != [] {
          LogGrows(s.log, Put(Last(s).id, None));
        }
      case PumpAwaited => ContinuesAddsNoFrames(s, s.loop.next, id);
      case FinalizerAwaited => ContinuesAddsNoFrames(s, s.loop.next, id);
      case _ => AbandonsAddsNoFrames(s, None, id);
    }
  }

  lemma {:induction false} CalledForAppends(a: seq<Input>, b: seq<Input>)
    ensures CalledFor(a + b) == CalledFor(a) + CalledFor(b)
  {
    hide CalledBy;
    if b == [] {
      assert a + b == a;
    } else {
      var n := |b| - 1;
      assert (a + b)[..|a + b| - 1] == a + b[..n];
      CalledForAppends(a, b[..n]);
    }
  }

  /**
   In every run, the frames sent for a turn are exactly what the inputs it took call for, in order: the
   detector's events by their kinds, the recognizer's texts, its failure, a blank transcript, and how
   the orchestrator ended.
   */
  lemma {:induction false} FramesAnswerInputs(cap: nat, moves: seq<Move>, id: int)
    requires Run(cap, moves)
    ensures FramesOf(After(cap, moves).log, id) == CalledFor(InputsOf(cap, moves, id))
    decreases |moves|
  {
    hide Legal, Apply, CalledBy, InputIn;
    if moves != [] {
      var n := |moves| - 1;
      FramesAnswerInputs(cap, moves[..n], id);
      MoveAddsFrames(After(cap, moves[..n]), moves[n], id);
      CalledForAppends(InputsOf(cap, moves[..n], id), InputIn(After(cap, moves[..n]), moves[n], id));
    }
  }

  lemma {:induction false} CalledIff(inputs: seq<Input>, f: Frame)
    ensures f in CalledFor(inputs) <==> exists i :: 0 <= i < |inputs| && f in CalledBy(inputs[i])
  {
    hide CalledBy;
    if inputs != [] {
      var n := |inputs| - 1;
      CalledIff(inputs[..n], f);
      if i :| 0 <= i < |inputs| && f in CalledBy(inputs[i]) {
        assert i < n ==> inputs[..n][i] == inputs[i];
      }
      if f in CalledFor(inputs[..n]) {
        var i :| 0 <= i < n && f in CalledBy(inputs[..n][i]);
        assert inputs[i] == inputs[..n][i];
      }
    }
  }

  /**
   The answer of a turn: a verdict exactly when the orchestrator answered, UNKNOWN_SCENE and
   INVALID_REQUEST exactly when it said so, NO_SPEECH exactly when the transcript was blank, ASR_FAILED
   exactly when the recognizer failed.
   */
  lemma AnswersFit(cap: nat, moves: seq<Move>, id: int)
    requires Run(cap, moves)
    ensures var out, inputs := FramesOf(After(cap, moves).log, id), InputsOf(cap, moves, id);
      (Verdict in out <==> Decided(Answered) in inputs) &&
      (Error(UnknownScene) in out <==> Decided(NoSuchScene) in inputs) &&
      (Error(InvalidRequest) in out <==> Decided(BadRequest) in inputs) &&
      (Error(NoSpeech) in out <==> exists i :: 0 <= i < |inputs| && inputs[i].Transcribed? && Blank(inputs[i].text)) &&
      (Error(AsrFailed) in out <==> Broke in inputs)
  {
    hide Run, After, FramesOf, InputsOf, CalledFor, Blank;
    var inputs := InputsOf(cap, moves, id);
    FramesAnswerInputs(cap, moves, id);
    CalledOnlyBy(inputs, Verdict, Decided(Answered));
    CalledOnlyBy(inputs, Error(UnknownScene), Decided(NoSuchScene));
    CalledOnlyBy(inputs, Error(InvalidRequest), Decided(BadRequest));
    CalledOnlyBy(inputs, Error(AsrFailed), Broke);
    CalledByBlank(inputs);
  }

  lemma CalledOnlyBy(inputs: seq<Input>, f: Frame, input: Input)
    requires forall other :: f in CalledBy(other) <==> other == input
    ensures f in CalledFor(inputs) <==> input in inputs
  {
    hide CalledBy, CalledFor;
    CalledIff(inputs, f);
  }

  lemma CalledByBlank(inputs: seq<Input>)
    ensures Error(NoSpeech) in CalledFor(inputs) <==>
      exists i :: 0 <= i < |inputs| && inputs[i].Transcribed? && Blank(inputs[i].text)
  {
    hide CalledFor, Blank;
    CalledIff(inputs, Error(NoSpeech));
  }

  // ---------- The event task ----------

  /** The kinds of the speech events among the frames. */
  function SpeechKinds(out: seq<Frame>): seq<bool> {
    if out == [] then []
    else
      var n := |out| - 1;
      SpeechKinds(out[..n]) +
      if out[n] == SpeechStart then [true] else if out[n] == SpeechEnd then [false] else []
  }

  function DetectedKinds(inputs: seq<Input>): seq<bool> {
    if inputs == [] then []
    else
      var n := |inputs| - 1;
      DetectedKinds(inputs[..n]) + if inputs[n].Detected? then [inputs[n].starts] else []
  }

  lemma SpeechKindsOne(out: seq<Frame>, f: Frame)
    ensures SpeechKinds(out + [f]) ==
      SpeechKinds(out) + if f == SpeechStart then [true] else if f == SpeechEnd then [false] else []
  {
    assert (out + [f])[..|out|] == out;
  }

  lemma {:induction false} SpeechIsDetected(inputs: seq<Input>)
    ensures SpeechKinds(CalledFor(inputs)) == DetectedKinds(inputs)
  {
    hide Blank, SpeechKinds;
    if inputs == [] {
      NoKinds();
    } else {
      var n := |inputs| - 1;
      SpeechIsDetected(inputs[..n]);
      var before, more := CalledFor(inputs[..n]), CalledBy(inputs[n]);
      if more == [] {
        assert before + more == before;
      } else {
        assert more == [more[0]];
        SpeechKindsOne(before, more[0]);
      }
    }
  }

  lemma NoKinds()
    ensures SpeechKinds([]) == []
  {
  }

  /** The speech frames of a turn are, in order, the kinds of the detector's events it took. */
  lemma SpeechFramesAreDetected(cap: nat, moves: seq<Move>, id: int)
    requires Run(cap, moves)
    ensures SpeechKinds(FramesOf(After(cap, moves).log, id)) == DetectedKinds(InputsOf(cap, moves, id))
  {
    FramesAnswerInputs(cap, moves, id);
    SpeechIsDetected(InputsOf(cap, moves, id));
  }

  // ---------- The texts ----------

  /** A text the recognizer gave, and whether it was the final one. */
  datatype Words = Words(isFinal: bool, text: string)

  function TextsSent(out: seq<Frame>): seq<Words> {
    if out == [] then []
    else
      var n := |out| - 1;
      TextsSent(out[..n]) +
      if out[n].Partial? then [Words(false, out[n].text)] else if out[n].Final? then [Words(true, out[n].text)] else []
  }

  function TextsYielded(inputs: seq<Input>): seq<Words> {
    if inputs == [] then []
    else
      var n := |inputs| - 1;
      TextsYielded(inputs[..n]) + if inputs[n].Yielded? then [Words(inputs[n].isFinal, inputs[n].text)] else []
  }

  lemma TextsSentOne(out: seq<Frame>, f: Frame)
    ensures TextsSent(out + [f]) ==
      TextsSent(out) + if f.Partial? then [Words(false, f.text)] else if f.Final? then [Words(true, f.text)] else []
  {
    assert (out + [f])[..|out|] == out;
  }

  lemma {:induction false} TextIsYielded(inputs: seq<Input>)
    ensures TextsSent(CalledFor(inputs)) == TextsYielded(inputs)
  {
    hide Blank, TextsSent;
    if inputs == [] {
      NoTexts();
    } else {
      var n := |inputs| - 1;
      TextIsYielded(inputs[..n]);
      var before, more := CalledFor(inputs[..n]), CalledBy(inputs[n]);
      if more == [] {
        assert before + more == before;
      } else {
        assert more == [more[0]];
        TextsSentOne(before, more[0]);
      }
    }
  }

  lemma NoTexts()
    ensures TextsSent([]) == []
  {
  }

  /** The partial and final texts of a turn are, in order, those the recognizer gave. */
  lemma TextFramesAreYielded(cap: nat, moves: seq<Move>, id: int)
    requires Run(cap, moves)
    ensures TextsSent(FramesOf(After(cap, moves).log, id)) == TextsYielded(InputsOf(cap, moves, id))
  {
    FramesAnswerInputs(cap, moves, id);
    TextIsYielded(InputsOf(cap, moves, id));
  }

  /** The transcript a finalizer judges is the final text that was sent, or nothing if none was. */
  lemma TranscriptIsFinal(cap: nat, moves: seq<Move>, i: nat)
    requires Run(cap, moves) && Legal(After(cap, moves), Task(i, FinalizerJoins))
    ensures var s := After(cap, moves); var t := s.turns[i];
      !t.cancelled && t.pump.ending.Returned? ==>
        var stage := StageOf(FramesOf(s.log, t.id));
        stage.Some? && stage != Some(Closed) && t.pump.ending.text == TextAt(stage.value)
  {
    hide Run, After, NothingElse, Ids, Orderly, RequestsOk, Newest, Past, LoopOk, AudioOk, FramesOf, ItemsOf, StageOf;
    RunKeepsInv(cap, moves);
    var s := After(cap, moves);
    assert TurnOk(s.turns[i], s.log, s.cap);
  }

  // ---------- The segment ----------

  /** The recognizer is at work, or was and left something to judge. */
  predicate Transcribes(t: Turn) {
    t.finalizer.Recognizing? ||
    match t.pump
    case JoiningFan(left) => left == Found(true) || !LeavesBehind(left)
    case JoiningEvents(left) => left == Found(true) || !LeavesBehind(left)
    case Streaming(_) => true
    case SendingText(_) => true
    case SendingFailure => true
    case Done(ending) => ending.Returned? && ending.text != ""
    case _ => false
  }

  lemma StepTranscribes(t: Turn, a: Action)
    requires Enabled(t, a)
    ensures Transcribes(Step(t, a)) ==> Transcribes(t) || (a == SegmentFound(true) && !t.cancelled)
    ensures InputOf(t, a).Some? && SaysMore(InputOf(t, a).value) ==> Transcribes(t)
  {
    assert Blank("");
  }

  lemma LoopKeepsTasks(t: Turn)
    ensures forall u | u == Cancels(t) || u == Dismisses(t) || u == EndsInput(t) || u == Dismisses(Cancels(t)) ::
      u.id == t.id && Transcribes(u) == Transcribes(t)
    ensures forall data :: Hears(t, data).id == t.id && Transcribes(Hears(t, data)) == Transcribes(t)
  {
  }

  /** The turns before are still there, transcribing or not as before, and a new one does not. */
  ghost predicate SameTasks(before: seq<Turn>, after: seq<Turn>) {
    |before| <= |after| &&
    (forall i | 0 <= i < |before| :: after[i].id == before[i].id && Transcribes(after[i]) == Transcribes(before[i])) &&
    forall i | |before| <= i < |after| :: !Transcribes(after[i])
  }

  lemma ContinuingKeepsTasks(s: State, next: Option<Opening>)
    ensures SameTasks(s.turns, Continues(s, next).turns)
  {
    hide Transcribes;
    FreshTasks(s.cap);
  }

  lemma WithLastKeepsTasks(s: State, t: Turn)
    requires s.turns != [] && t.id == Last(s).id && Transcribes(t) == Transcribes(Last(s))
    ensures SameTasks(s.turns, WithLast(s, t).turns)
  {
    hide Transcribes;
  }

  lemma DismissingKeepsTasks(s: State, next: Option<Opening>)
    requires s.turns != []
    ensures SameTasks(s.turns, AbandonsFinalizer(s, next).turns)
  {
    hide Transcribes, Dismisses, Continues, SameTasks;
    LoopKeepsTasks(Last(s));
    ContinuingKeepsTasks(s, next);
    WithLastKeepsTasks(s, Dismisses(Last(s)));
  }

  lemma AbandoningKeepsTasks(s: State, next: Option<Opening>)
    ensures SameTasks(s.turns, Abandons(s, next).turns)
  {
    hide Transcribes, Dismisses, Cancels, Continues, AbandonsFinalizer;
    var s1 := Logged(s, Abandoning);
    ContinuingKeepsTasks(s1, next);
    if s.turns != [] {
      var t := Last(s);
      LoopKeepsTasks(t);
      var s2 := if t.cancelled then s1 else Logged(WithLast(s1, Cancels(t)), Put(t.id, None));
      WithLastKeepsTasks(s1, Cancels(t));
      DismissingKeepsTasks(s2, next);
    }
  }

  lemma FreshTasks(cap: nat)
    ensures forall id :: !Transcribes(Opened(id, cap))
  {
  }

  lemma LoopMoveKeepsTasks(s: State, m: Move)
    requires Legal(s, m) && !m.Task?
    ensures SameTasks(s.turns, Apply(s, m).turns)
  {
    hide Transcribes, Abandons, AbandonsFinalizer, Continues, Hears, EndsInput;
    if s.turns != [] {
      LoopKeepsTasks(Last(s));
    }
    forall next: Option<Opening>
      ensures SameTasks(s.turns, Abandons(s, next).turns) && SameTasks(s.turns, Continues(s, next).turns)
      ensures s.turns != [] ==> SameTasks(s.turns, AbandonsFinalizer(s, next).turns)
    {
      AbandoningKeepsTasks(s, next);
      ContinuingKeepsTasks(s, next);
      if s.turns != [] {
        DismissingKeepsTasks(s, next);
      }
    }
  }

  predicate SaysMore(input: Input) {
    input.Yielded? || input.Broke? || input.Decided?
  }

  lemma {:induction false} TranscribesAfterSegment(cap: nat, moves: seq<Move>)
    requires Run(cap, moves)
    ensures forall i | 0 <= i < |After(cap, moves).turns| && Transcribes(After(cap, moves).turns[i]) ::
      Segmented(true) in InputsOf(cap, moves, After(cap, moves).turns[i].id)
    decreases |moves|
  {
    hide Legal, Apply, Transcribes, InputIn;
    if moves != [] {
      var n := |moves| - 1;
      var s, m := After(cap, moves[..n]), moves[n];
      TranscribesAfterSegment(cap, moves[..n]);
      if m.Task? {
        TaskTranscribes(s, m.index, m.action);
      } else {
        LoopMoveKeepsTasks(s, m);
      }
    }
  }

  lemma TaskTranscribes(s: State, k: nat, a: Action)
    requires Legal(s, Task(k, a))
    ensures var after := Apply(s, Task(k, a)).turns;
      |after| == |s.turns| &&
      forall i | 0 <= i < |after| :: after[i].id == s.turns[i].id &&
        (Transcribes(after[i]) ==>
           Transcribes(s.turns[i]) || Segmented(true) in InputIn(s, Task(k, a), after[i].id))
  {
    hide Transcribes, Enabled, Step, Emits, Hands;
    StepTranscribes(s.turns[k], a);
    StepKeepsName(s.turns[k], a);
  }

  /**
   Without a segment that holds audio, a turn sends nothing but speech events and, at the end, that
   nothing was said.
   */
  lemma SilentTurns(cap: nat, moves: seq<Move>, id: int)
    requires Run(cap, moves) && Segmented(true) !in InputsOf(cap, moves, id)
    ensures forall f | f in FramesOf(After(cap, moves).log, id) :: IsEvent(f) || f == Error(NoSpeech)
  {
    hide Run, After, FramesOf, CalledFor, InputsOf, CalledBy;
    var inputs := InputsOf(cap, moves, id);
    FramesAnswerInputs(cap, moves, id);
    NothingMoreSaid(cap, moves, id);
    forall f | f in CalledFor(inputs)
      ensures IsEvent(f) || f == Error(NoSpeech)
    {
      CalledIff(inputs, f);
      var i :| 0 <= i < |inputs| && f in CalledBy(inputs[i]);
      LittleSaid(inputs[i], f);
    }
  }

  lemma LittleSaid(input: Input, f: Frame)
    requires f in CalledBy(input) && !SaysMore(input)
    ensures IsEvent(f) || f == Error(NoSpeech)
  {
  }

  lemma {:induction false} NothingMoreSaid(cap: nat, moves: seq<Move>, id: int)
    requires Run(cap, moves)
    ensures (exists i :: 0 <= i < |InputsOf(cap, moves, id)| && SaysMore(InputsOf(cap, moves, id)[i])) ==>
      Segmented(true) in InputsOf(cap, moves, id)
    decreases |moves|
  {
    hide Apply, Transcribes, SaysMore, InputOf, Enabled;
    if moves != [] {
      var n := |moves| - 1;
      var s, m := After(cap, moves[..n]), moves[n];
      NothingMoreSaid(cap, moves[..n], id);
      var before, more := InputsOf(cap, moves[..n], id), InputIn(s, m, id);
      if more != [] {
        TranscribesAfterSegment(cap, moves[..n]);
        StepTranscribes(s.turns[m.index], m.action);
        SaysMoreMeans(more[0]);
      }
      forall i | 0 <= i < |before|
        ensures (before + more)[i] == before[i]
      {
      }
    }
  }

  lemma SaysMoreMeans(input: Input)
    ensures SaysMore(input) <==> input.Yielded? || input.Broke? || input.Decided?
  {
  }

  // ---------- Replies to `start` messages ----------

  predicate WellFormed(m: Start) {
    m.sessionId.Some? && m.turnId.Some? && m.named
  }

  /**
   A `start` message is refused as malformed, then for another session than that of the connection,
   then for an id no higher than the newest accepted; the first two end the connection. Any other
   makes the loop abandon the current turn.
   */
  lemma StartIsJudged(cap: nat, moves: seq<Move>, m: Start)
    requires Run(cap, moves) && Legal(After(cap, moves), Receive(m))
    ensures var s := After(cap, moves); var after := Apply(s, Receive(m));
      if !WellFormed(m) then after.log == s.log + [Refused(BadStart)] && after.loop == Replying(true)
      else if s.sessionId.Some? && m.sessionId != s.sessionId then
        after.log == s.log + [Refused(SessionMismatch)] && after.loop == Replying(true)
      else if m.turnId.value <= Newest(s.log) then
        after.log == s.log + [Refused(StaleTurn)] && after.loop == Replying(false)
      else |after.log| > |s.log| && after.log[..|s.log|] == s.log && after.log[|s.log|] == Abandoning
  {
    hide Run, After, TurnsOk, NothingElse, Ids, Orderly, RequestsOk, Newest, Past, LoopOk, Open;
    RunKeepsInv(cap, moves);
    var s := After(cap, moves);
    if WellFormed(m) && m.turnId.value > s.currentTurn {
      AbandonsLogs(s, Some(Opening(m.sessionId.value, m.turnId.value, m.nBestReads)));
    }
  }

  lemma AbandonsLogs(s: State, next: Option<Opening>)
    ensures s.log + [Abandoning] <= Abandons(s, next).log
  {
    hide Cancels, Dismisses, Opened;
  }

  /** The turns that were asked for. */
  function AskedIn(moves: seq<Move>): set<Opening> {
    if moves == [] then {} else AskedIn(moves[..|moves| - 1]) + AskedBy(moves[|moves| - 1])
  }

  function AskedBy(m: Move): set<Opening> {
    if m.Receive? && WellFormed(m.start) then
      {Opening(m.start.sessionId.value, m.start.turnId.value, m.start.nBestReads)}
    else {}
  }

  function Pending(loop: Loop): Option<Opening> {
    match loop
    case AwaitingPump(next) => next
    case AwaitingFinalizer(next) => next
    case _ => None
  }

  /** The turn was asked for, in the session of the connection. */
  ghost predicate Granted(s: State, asked: set<Opening>, id: int) {
    exists o | o in asked :: o.turnId == id && s.sessionId == Some(o.sessionId)
  }

  ghost predicate Vouched(s: State, asked: set<Opening>) {
    (Pending(s.loop).Some? ==> MayOpen(s, asked, Pending(s.loop).value)) &&
    forall id | Accepted(id) in s.log :: Granted(s, asked, id)
  }

  predicate MayOpen(s: State, asked: set<Opening>, o: Opening) {
    o in asked && (s.sessionId.Some? ==> s.sessionId.value == o.sessionId)
  }

  lemma ContinuesVouched(s: State, asked: set<Opening>, next: Option<Opening>)
    requires forall id | Accepted(id) in s.log :: Granted(s, asked, id)
    requires next.Some? ==> MayOpen(s, asked, next.value)
    ensures Vouched(Continues(s, next), asked)
  {
    hide Opened;
    if next.Some? {
      var o, t := next.value, Continues(s, next);
      forall id | Accepted(id) in t.log
        ensures Granted(t, asked, id)
      {
        if Accepted(id) in s.log {
          var p :| p in asked && p.turnId == id && s.sessionId == Some(p.sessionId);
        } else {
          assert o in asked && o.turnId == id;
        }
      }
    }
  }

  lemma AbandonsVouched(s: State, asked: set<Opening>, next: Option<Opening>)
    requires forall id | Accepted(id) in s.log :: Granted(s, asked, id)
    requires next.Some? ==> MayOpen(s, asked, next.value)
    ensures Vouched(Abandons(s, next), asked)
    ensures s.turns != [] ==> Vouched(AbandonsFinalizer(s, next), asked)
  {
    hide Continues, Cancels, Dismisses;
    var s1 := Logged(s, Abandoning);
    SameGrants(s, s1, asked);
    ContinuesVouched(s, asked, next);
    ContinuesVouched(s1, asked, next);
    if s.turns != [] {
      var t := Last(s);
      var s2 := if t.cancelled then s1 else Logged(WithLast(s1, Cancels(t)), Put(t.id, None));
      SameGrants(s, s2, asked);
      ContinuesVouched(s2, asked, next);
    }
  }

  lemma SameGrants(s: State, t: State, asked: set<Opening>)
    requires (forall id | Accepted(id) in s.log :: Granted(s, asked, id)) && t.sessionId == s.sessionId
    requires forall id | Accepted(id) in t.log :: Accepted(id) in s.log
    ensures forall id | Accepted(id) in t.log :: Granted(t, asked, id)
  {
  }

  lemma MoveVouched(s: State, asked: set<Opening>, m: Move)
    requires Legal(s, m) && Vouched(s, asked)
    ensures Vouched(Apply(s, m), asked + AskedBy(m))
  {
    hide Enabled, Step, Emits, Hands, Continues, Abandons, AbandonsFinalizer, Hears, EndsInput, Granted;
    var more := asked + AskedBy(m);
    MoreGrants(s, asked, more);
    match m {
      case Receive(start) =>
        if WellFormed(start) {
          var o := Opening(start.sessionId.value, start.turnId.value, start.nBestReads);
          if MayOpen(s, more, o) {
            AbandonsVouched(s, more, Some(o));
          }
        }
        forall e: StartError
          ensures Vouched(Reply(s, e), more)
        {
          SameGrants(s, Reply(s, e), more);
        }
      case PumpAwaited => AbandonsVouched(s, more, s.loop.next);
      case FinalizerAwaited => ContinuesVouched(s, more, s.loop.next);
      case Leave => AbandonsVouched(s, more, None);
      case Replied =>
        if s.loop.fatal {
          AbandonsVouched(s, more, None);
        } else {
          SameGrants(s, Apply(s, m), more);
        }
      case ReplyFails => AbandonsVouched(s, more, None);
      case _ => SameGrants(s, Apply(s, m), more);
    }
  }

  lemma MoreGrants(s: State, asked: set<Opening>, more: set<Opening>)
    requires asked <= more
    ensures forall id :: Granted(s, asked, id) ==> Granted(s, more, id)
  {
  }

  lemma {:induction false} RunVouched(cap: nat, moves: seq<Move>)
    requires Run(cap, moves)
    ensures Vouched(After(cap, moves), AskedIn(moves))
    decreases |moves|
  {
    hide Legal, Apply, Vouched;
    if moves == [] {
      NothingVouched(cap);
    } else {
      var n := |moves| - 1;
      RunVouched(cap, moves[..n]);
      MoveVouched(After(cap, moves[..n]), AskedIn(moves[..n]), moves[n]);
    }
  }

  lemma NothingVouched(cap: nat)
    ensures Vouched(Connected(cap), {})
  {
  }

  lemma {:induction false} AskedMeans(moves: seq<Move>, o: Opening)
    ensures o in AskedIn(moves) <==> exists i :: 0 <= i < |moves| && o in AskedBy(moves[i])
  {
    if moves != [] {
      var n := |moves| - 1;
      AskedMeans(moves[..n], o);
      if i :| 0 <= i < n && o in AskedBy(moves[i]) {
        assert moves[..n][i] == moves[i];
      }
      if i :| 0 <= i < n && o in AskedBy(moves[..n][i]) {
        assert o in AskedBy(moves[i]);
      }
    }
  }

  /** Every turn that was accepted was asked for, by its id, in the session of the connection. */
  lemma AcceptedWereAsked(cap: nat, moves: seq<Move>, id: int)
    requires Run(cap, moves) && Accepted(id) in After(cap, moves).log
    ensures exists i ::
      0 <= i < |moves| && moves[i].Receive? && WellFormed(moves[i].start) && moves[i].start.turnId == Some(id) &&
      moves[i].start.sessionId == After(cap, moves).sessionId
  {
    hide Run, After, AskedIn;
    RunVouched(cap, moves);
    assert Granted(After(cap, moves), AskedIn(moves), id);
    var o :| o in AskedIn(moves) && o.turnId == id && After(cap, moves).sessionId == Some(o.sessionId);
    AskedMeans(moves, o);
  }

  /** After a fatal reply, and once a connection is being left, nothing is accepted any more. */
  predicate Closing(s: State) {
    match s.loop
    case Replying(fatal) => fatal
    case AwaitingPump(next) => next == None
    case AwaitingFinalizer(next) => next == None
    case Gone => true
    case Listening => false
  }

  lemma ClosingStays(s: State, m: Move)
    requires Legal(s, m) && Closing(s)
    ensures Closing(Apply(s, m)) && Newest(Apply(s, m).log) == Newest(s.log)
  {
    hide Newest, Enabled, Step, Emits, Hands, Cancels, Dismisses, Opened;
    if m.Task? {
      TaskKeepsNewest(s, m.index, m.action);
    } else {
      CloseKeepsNewest(s);
    }
  }

  lemma TaskKeepsNewest(s: State, i: nat, a: Action)
    requires Legal(s, Task(i, a))
    ensures Newest(Apply(s, Task(i, a)).log) == Newest(s.log)
  {
    hide Newest, Enabled, Step, Emits, Hands;
    var t := s.turns[i];
    if Emits(t, a).Some? {
      LogGrows(s.log, Sent(t.id, Emits(t, a).value));
    } else if Hands(t, a).Some? {
      LogGrows(s.log, Handed(t.id, Hands(t, a).value));
    }
  }

  lemma CloseKeepsNewest(s: State)
    ensures Newest(Abandons(s, None).log) == Newest(s.log)
  {
    hide Newest, Cancels, Dismisses;
    LogGrows(s.log, Abandoning);
    if s.turns != [] {
      LogGrows(s.log + [Abandoning], Put(Last(s).id, None));
    }
  }

  lemma {:induction false} ClosingForGood(cap: nat, moves: seq<Move>, n: nat)
    requires Run(cap, moves) && n <= |moves| && Run(cap, moves[..n]) && Closing(After(cap, moves[..n]))
    ensures Closing(After(cap, moves)) && Newest(After(cap, moves).log) == Newest(After(cap, moves[..n]).log)
    decreases |moves|
  {
    hide Legal, Apply, Closing, Newest;
    if n < |moves| {
      var k := |moves| - 1;
      assert moves[..k][..n] == moves[..n];
      ClosingForGood(cap, moves[..k], n);
      ClosingStays(After(cap, moves[..k]), moves[k]);
    } else {
      assert moves[..n] == moves;
    }
  }

  /** After a `start` message that is malformed or of another session, none is accepted any more. */
  lemma FatalStartsAreLast(cap: nat, moves: seq<Move>, m: Start, more: seq<Move>)
    requires Run(cap, moves) && Legal(After(cap, moves), Receive(m)) && Run(cap, moves + [Receive(m)] + more)
    requires !WellFormed(m) || (After(cap, moves).sessionId.Some? && m.sessionId != After(cap, moves).sessionId)
    ensures Newest(After(cap, moves + [Receive(m)] + more).log) == Newest(After(cap, moves).log)
    ensures !After(cap, moves + [Receive(m)] + more).loop.Listening?
  {
    var n := |moves| + 1;
    var all := moves + [Receive(m)] + more;
    assert all[..n] == moves + [Receive(m)] && all[..n][..n - 1] == moves;
    StartIsJudged(cap, moves, m);
    hide Newest, Legal;
    assert After(cap, all[..n]) == Apply(After(cap, moves), Receive(m));
    LogGrows(After(cap, moves).log, Refused(BadStart));
    LogGrows(After(cap, moves).log, Refused(SessionMismatch));
    ClosingForGood(cap, all, n);
  }
}
