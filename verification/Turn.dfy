/**
 One turn of the WebSocket protocol (src/sandroid/api/routes.py): the pump, its fan-out and event
 helpers, and the finalizer, as tasks that run one at a time between their awaits.

 A task that has been asked to stop takes no further step of its own: the request reaches it at the
 await where it is suspended.
 */
module Turn {
  import opened Bytes
  import opened Text

  datatype Code = NoSpeech | UnknownScene | InvalidRequest | AsrFailed

  /** The JSON frames that carry a turn id, without the `start` errors. */
  datatype Frame = SpeechStart | SpeechEnd | Partial(text: string) | Final(text: string) | Verdict | Error(code: Code)

  /** How the pump task ended. */
  datatype Ending = Returned(text: string) | Cancelled | Failed

  /** What the pump does once its helpers are done: go on with a segment or without, or raise. */
  datatype Leaving = Found(nonEmpty: bool) | Raising(e: Ending)

  datatype Pump =
    | Fresh
    | Hearing
    | JoiningFan(left: Leaving)
    | JoiningEvents(left: Leaving)
    | Streaming(final: Option<string>)
    | SendingText(final: Option<string>)
    | SendingFailure
    | Done(ending: Ending)

  datatype Helper = Absent | Running | Blocked | Over

  datatype Request = Request(text: string, audio: Option<bytes>)

  datatype Finalizer =
    | NotBegun
    | Joining
    | Recognizing(request: Request)
    | SendingVerdict
    | Finished

  /** What a task may be handed over its queue; `None` ends the stream. */
  type Item = Option<bytes>

  datatype Turn = Turn(
    id: int, cancelled: bool,
    inbox: seq<Item>, heard: seq<Item>,
    cap: nat, audio: bytes, overflow: bool,
    pump: Pump, pumpAsked: bool, fan: Helper, events: Helper,
    finalizer: Finalizer, finalizerAsked: bool)

  function Opened(id: int, cap: nat): Turn {
    Turn(id, false, [], [], cap, [], false, Fresh, false, Absent, Absent, NotBegun, false)
  }

  /** How `Orchestrator.recognize` ends. */
  datatype Outcome = Answered | NoSuchScene | BadRequest | Crashed

  datatype Action =
    | PumpBegins
    | SegmentFound(nonEmpty: bool)
    | SegmentsEnd
    | SegmentsFail
    | FanJoined
    | EventsJoined
    | AsrYields(isFinal: bool, text: string)
    | TextSent
    | AsrEnds
    | AsrFails
    | FailureSent
    | FailureUnsent
    | PumpStops
    | FanMoves
    | VadEvent(starts: bool)
    | EventSent
    | EventsEnd
    | FinalizerBegins
    | FinalizerJoins
    | Recognized(outcome: Outcome)
    | VerdictSent
    | FinalizerStops

  /**
   Whether the step can be taken. A request to stop the pump is passed on to the
   helper the pump is waiting for.
   */
  predicate Enabled(t: Turn, a: Action) {
    match a
    case PumpBegins => t.pump.Fresh? && !t.pumpAsked
    case SegmentFound(_) => t.pump.Hearing? && !t.pumpAsked
    case SegmentsEnd => t.pump.Hearing? && !t.pumpAsked
    case SegmentsFail => t.pump.Hearing? && !t.pumpAsked
    case FanJoined => t.pump.JoiningFan? && !t.pumpAsked && t.fan.Over?
    case EventsJoined => t.pump.JoiningEvents? && !t.pumpAsked && t.events.Over?
    // After its final text the recognizer yields nothing more.
    case AsrYields(_, _) => t.pump.Streaming? && !t.pumpAsked && t.pump.final == None
    case TextSent => t.pump.SendingText? && !t.pumpAsked
    case AsrEnds => t.pump.Streaming? && !t.pumpAsked
    case AsrFails => (t.pump.Streaming? || t.pump.SendingText?) && !t.pumpAsked
    case FailureSent => t.pump.SendingFailure? && !t.pumpAsked
    case FailureUnsent => t.pump.SendingFailure? && !t.pumpAsked
    case PumpStops => !t.pump.Done? && t.pumpAsked
    case FanMoves => t.fan.Running? && t.inbox != [] && !(t.pumpAsked && t.pump.JoiningFan?)
    case VadEvent(_) => t.events.Running? && !(t.pumpAsked && t.pump.JoiningEvents?)
    case EventSent => t.events.Blocked? && !(t.pumpAsked && t.pump.JoiningEvents?)
    case EventsEnd => (t.events.Running? || t.events.Blocked?) && !(t.pumpAsked && t.pump.JoiningEvents?)
    case FinalizerBegins => t.finalizer.NotBegun? && !t.finalizerAsked
    case FinalizerJoins => t.finalizer.Joining? && !t.finalizerAsked && t.pump.Done?
    case Recognized(_) => t.finalizer.Recognizing? && !t.finalizerAsked
    case VerdictSent => t.finalizer.SendingVerdict? && !t.finalizerAsked
    case FinalizerStops => !t.finalizer.Finished? && t.finalizerAsked
  }

  /** The frame whose send begins with the step. */
  function Emits(t: Turn, a: Action): Option<Frame>
    requires Enabled(t, a)
  {
    match a
    case VadEvent(starts) =>
      if t.cancelled then None else Some(if starts then SpeechStart else SpeechEnd)
    case AsrYields(isFinal, text) =>
      if t.cancelled then None else Some(if isFinal then Final(text) else Partial(text))
    case AsrFails =>
      if t.cancelled then None else Some(Error(AsrFailed))
    case FinalizerJoins =>
      if t.pump.ending.Returned? && !t.cancelled && Blank(t.pump.ending.text) then Some(Error(NoSpeech)) else None
    case Recognized(outcome) =>
      (match outcome
       case Answered => Some(Verdict)
       case NoSuchScene => Some(Error(UnknownScene))
       case BadRequest => Some(Error(InvalidRequest))
       case Crashed => None)
    case _ => None
  }

  function Step(t: Turn, a: Action): Turn
    requires Enabled(t, a)
  {
    match a
    case PumpBegins => t.(pump := Hearing, fan := Running, events := Running)
    case SegmentFound(nonEmpty) => t.(pump := JoiningFan(Found(nonEmpty && !t.cancelled)))
    case SegmentsEnd => t.(pump := JoiningFan(Found(false)))
    case SegmentsFail => t.(pump := JoiningFan(Raising(Failed)))
    case FanJoined => t.(pump := JoiningEvents(t.pump.left))
    case EventsJoined => t.(pump := AfterHelpers(t))
    case AsrYields(isFinal, text) =>
      if t.cancelled then t.(pump := Done(Returned("")))
      else t.(pump := SendingText(if isFinal then Some(text) else None))
    case TextSent => t.(pump := Streaming(t.pump.final))
    case AsrEnds => t.(pump := Done(Returned(if t.pump.final == None then "" else t.pump.final.value)))
    case AsrFails => t.(pump := if t.cancelled then Done(Returned("")) else SendingFailure)
    case FailureSent => t.(pump := Done(Returned("")), cancelled := true)
    case FailureUnsent => t.(pump := Done(Failed))
    case PumpStops => Stopped(t)
    case FanMoves =>
      t.(inbox := t.inbox[1..], heard := t.heard + [t.inbox[0]], fan := if t.inbox[0] == None then Over else Running)
    case VadEvent(_) => t.(events := if t.cancelled then Over else Blocked)
    case EventSent => t.(events := Running)
    case EventsEnd => t.(events := Over)
    case FinalizerBegins => t.(finalizer := Joining)
    case FinalizerJoins => t.(finalizer := AfterPump(t))
    case Recognized(outcome) => t.(finalizer := if outcome == Crashed then Finished else SendingVerdict)
    case VerdictSent => t.(finalizer := Finished)
    case FinalizerStops =>
      if t.finalizer.Joining? && !t.pump.Done? then t.(pumpAsked := true, finalizerAsked := false)
      else t.(finalizer := Finished, finalizerAsked := false)
  }

  function AfterHelpers(t: Turn): Pump
    requires t.pump.JoiningEvents?
  {
    match t.pump.left
    case Raising(e) => Done(e)
    case Found(nonEmpty) => if t.cancelled || !nonEmpty then Done(Returned("")) else Streaming(None)
  }

  /** Cancellation arrives at the await where the pump is suspended. */
  function Stopped(t: Turn): Turn
    requires !t.pump.Done?
  {
    var u := t.(pumpAsked := false);
    match t.pump
    case Fresh => u.(pump := Done(Cancelled))
    case Hearing => u.(pump := JoiningFan(Raising(Cancelled)))
    case JoiningFan(left) => u.(pump := JoiningEvents(left), fan := Over)
    case JoiningEvents(left) => u.(pump := AfterHelpers(t), events := Over)
    case _ => u.(pump := Done(Cancelled))
  }

  /** The request the step hands to the orchestrator: the text, and the audio for its second path. */
  function Hands(t: Turn, a: Action): Option<Request>
    requires Enabled(t, a)
  {
    if a.FinalizerJoins? && AfterPump(t).Recognizing? then Some(AfterPump(t).request) else None
  }

  function AfterPump(t: Turn): Finalizer
    requires t.pump.Done?
  {
    if !t.pump.ending.Returned? || t.cancelled then Finished
    else if Blank(t.pump.ending.text) then SendingVerdict
    else Recognizing(Request(t.pump.ending.text, if t.overflow then None else Some(t.audio)))
  }

  // ---------- What the receive loop does to a turn ----------

  /** A PCM message: mirrored up to the cap, and queued. */
  function Hears(t: Turn, data: bytes): Turn {
    if t.cancelled then t
    else
      var full := !t.overflow && |t.audio| + |data| > t.cap;
      t.(inbox := t.inbox + [Some(data)],
         overflow := t.overflow || full,
         audio := if full then [] else if t.overflow then t.audio else t.audio + data)
  }

  function EndsInput(t: Turn): Turn {
    if t.cancelled then t else t.(inbox := t.inbox + [None])
  }

  /** The first half of abandoning a turn. */
  function Cancels(t: Turn): Turn {
    if t.cancelled then t else t.(cancelled := true, inbox := t.inbox + [None], pumpAsked := !t.pump.Done?)
  }

  /** The second half, once the pump is done. */
  function Dismisses(t: Turn): Turn {
    if t.finalizer.Finished? then t else t.(finalizerAsked := true)
  }

  // ---------- The frames of a turn ----------

  datatype Stage = Speech | Partials | Told(text: string) | Closed

  /**
   What may follow a final text: a failure of the recognizer; after a blank text, that nothing was
   said; after any other, the verdict or why there is none.
   */
  predicate Answers(text: string, f: Frame) {
    f == Error(AsrFailed) ||
    if Blank(text) then f == Error(NoSpeech) else f == Verdict || f == Error(UnknownScene) || f == Error(InvalidRequest)
  }

  /** What may end a turn that had no final text. */
  predicate EndsEarly(f: Frame) {
    f == Error(NoSpeech) || f == Error(AsrFailed)
  }

  /** How far a turn's output has come, or `None` once a frame was out of place. */
  function Advance(stage: Option<Stage>, f: Frame): Option<Stage> {
    if stage == None then None
    else
      match (f, stage.value)
      case (SpeechStart, Speech) => Some(Speech)
      case (SpeechEnd, Speech) => Some(Speech)
      case (Partial(_), Speech) => Some(Partials)
      case (Partial(_), Partials) => Some(Partials)
      case (Final(text), Speech) => Some(Told(text))
      case (Final(text), Partials) => Some(Told(text))
      case (_, Told(text)) => if Answers(text, f) then Some(Closed) else None
      case (_, Closed) => None
      case _ => if EndsEarly(f) then Some(Closed) else None
  }

  function StageOf(out: seq<Frame>): Option<Stage> {
    if out == [] then Some(Speech) else Advance(StageOf(out[..|out| - 1]), out[|out| - 1])
  }

  predicate IsEvent(f: Frame) {
    f.SpeechStart? || f.SpeechEnd?
  }

  /**
   The order of a turn's frames: `events` speech events, then `partials` partial texts, then at most
   one final text, then at most one verdict or error, as the final text allows.
   */
  predicate InOrder(out: seq<Frame>, events: nat, partials: nat) {
    var rest := events + partials;
    rest <= |out| <= rest + 2 &&
    (forall i | 0 <= i < events :: IsEvent(out[i])) &&
    (forall i | events <= i < rest :: out[i].Partial?) &&
    (|out| == rest + 1 ==> out[rest].Final? || EndsEarly(out[rest])) &&
    (|out| == rest + 2 ==> out[rest].Final? && Answers(out[rest].text, out[rest + 1]))
  }

  /** What the stage says about where the output stands. */
  predicate StageFits(stage: Stage, out: seq<Frame>, events: nat, partials: nat)
    requires InOrder(out, events, partials)
  {
    if |out| == events + partials then stage == if partials == 0 then Speech else Partials
    else if out[|out| - 1].Final? then stage == Told(out[|out| - 1].text)
    else stage == Closed
  }

  lemma {:induction false} StageMeansOrder(out: seq<Frame>) returns (events: nat, partials: nat)
    requires StageOf(out).Some?
    ensures InOrder(out, events, partials) && StageFits(StageOf(out).value, out, events, partials)
  {
    if out == [] {
      events, partials := 0, 0;
    } else {
      var n := |out| - 1;
      events, partials := StageMeansOrder(out[..n]);
      if IsEvent(out[n]) {
        events := events + 1;
      } else if out[n].Partial? {
        partials := partials + 1;
      }
    }
  }

  lemma {:induction false} OrderMeansStage(out: seq<Frame>, events: nat, partials: nat)
    requires InOrder(out, events, partials)
    ensures StageOf(out).Some? && StageFits(StageOf(out).value, out, events, partials)
    decreases |out|
  {
    if out != [] {
      var n := |out| - 1;
      if n < events {
        OrderMeansStage(out[..n], n, 0);
      } else if n < events + partials {
        OrderMeansStage(out[..n], events, n - events);
      } else {
        OrderMeansStage(out[..n], events, partials);
      }
    }
  }

  /** The stages accept exactly the outputs in order. */
  lemma StageIffOrder(out: seq<Frame>)
    ensures StageOf(out).Some? <==> exists events: nat, partials: nat :: InOrder(out, events, partials)
  {
    if StageOf(out).Some? {
      var events, partials := StageMeansOrder(out);
    }
    if events: nat, partials: nat :| InOrder(out, events, partials) {
      OrderMeansStage(out, events, partials);
    }
  }

  // ---------- What every step of a turn keeps ----------

  /** The turn is in step with the frames it has sent. */
  predicate InStep(t: Turn, out: seq<Frame>) {
    var stage := StageOf(out);
    stage.Some? && PumpInStep(t, stage.value) && FinalizerInStep(t, stage.value) &&
    (t.events.Running? || t.events.Blocked? ==> t.pump.Hearing? || t.pump.JoiningFan? || t.pump.JoiningEvents?) &&
    (t.fan.Running? ==> t.pump.Hearing? || t.pump.JoiningFan?) &&
    (t.pump.Fresh? ==> t.fan.Absent?)
  }

  predicate PumpInStep(t: Turn, stage: Stage) {
    match t.pump
    case Streaming(final) => TextInStep(final, stage)
    case SendingText(final) => TextInStep(final, stage)
    case SendingFailure => stage == Closed
    case Done(_) => true
    case JoiningFan(left) => stage == Speech && LeavesBehind(left)
    case JoiningEvents(left) => stage == Speech && LeavesBehind(left)
    case _ => stage == Speech
  }

  predicate LeavesBehind(left: Leaving) {
    left.Raising? ==> !left.e.Returned?
  }

  predicate TextInStep(final: Option<string>, stage: Stage) {
    match final
    case None => stage == Speech || stage == Partials
    case Some(text) => stage == Told(text)
  }

  /** The final text sent, or nothing. */
  function TextAt(stage: Stage): string {
    if stage.Told? then stage.text else ""
  }

  predicate FinalizerInStep(t: Turn, stage: Stage) {
    match t.finalizer
    case Recognizing(request) => t.pump.Done? && stage == Told(request.text) && !Blank(request.text)
    case SendingVerdict => t.pump.Done? && stage == Closed
    case Finished => t.pump.Done?
    case _ =>
      t.pump.Done? && t.pump.ending.Returned? && !t.cancelled ==>
        stage != Closed && t.pump.ending.text == TextAt(stage)
  }

  /** After a request to stop the finalizer, the pump is done; after one to stop the pump, it is not. */
  predicate AskedInOrder(t: Turn) {
    (t.finalizerAsked ==> t.pump.Done?) && (t.pumpAsked ==> !t.pump.Done?)
  }

  function Sending(out: seq<Frame>, f: Option<Frame>): seq<Frame> {
    if f == None then out else out + [f.value]
  }

  lemma StageAfter(out: seq<Frame>, f: Frame)
    ensures StageOf(out + [f]) == Advance(StageOf(out), f)
  {
    assert (out + [f])[..|out|] == out;
  }

  predicate OfFinalizer(a: Action) {
    a.FinalizerBegins? || a.FinalizerJoins? || a.Recognized? || a.VerdictSent? || a.FinalizerStops?
  }

  predicate OfHelper(a: Action) {
    a.FanMoves? || a.VadEvent? || a.EventSent? || a.EventsEnd?
  }

  lemma FinalizerKeepsInStep(t: Turn, a: Action, out: seq<Frame>)
    requires OfFinalizer(a) && Enabled(t, a) && InStep(t, out) && AskedInOrder(t)
    ensures InStep(Step(t, a), Sending(out, Emits(t, a))) && AskedInOrder(Step(t, a))
  {
    hide StageOf;
    assert Blank("");
    hide Blank;
    if Emits(t, a).Some? {
      StageAfter(out, Emits(t, a).value);
    }
  }

  lemma HelperKeepsInStep(t: Turn, a: Action, out: seq<Frame>)
    requires OfHelper(a) && Enabled(t, a) && InStep(t, out) && AskedInOrder(t)
    ensures InStep(Step(t, a), Sending(out, Emits(t, a))) && AskedInOrder(Step(t, a))
  {
    hide StageOf, Blank;
    if Emits(t, a).Some? {
      StageAfter(out, Emits(t, a).value);
    }
  }

  lemma StopKeepsInStep(t: Turn, out: seq<Frame>)
    requires Enabled(t, PumpStops) && InStep(t, out) && AskedInOrder(t)
    ensures InStep(Step(t, PumpStops), Sending(out, Emits(t, PumpStops))) && AskedInOrder(Step(t, PumpStops))
  {
    hide StageOf;
    assert Blank("");
    hide Blank;
  }

  lemma PumpKeepsInStep(t: Turn, a: Action, out: seq<Frame>)
    requires !OfHelper(a) && !OfFinalizer(a) && !a.PumpStops? && Enabled(t, a) && InStep(t, out) && AskedInOrder(t)
    ensures InStep(Step(t, a), Sending(out, Emits(t, a))) && AskedInOrder(Step(t, a))
  {
    hide StageOf;
    assert Blank("");
    hide Blank;
    if Emits(t, a).Some? {
      StageAfter(out, Emits(t, a).value);
    }
  }

  lemma StepKeepsInStep(t: Turn, a: Action, out: seq<Frame>)
    requires Enabled(t, a) && InStep(t, out) && AskedInOrder(t)
    ensures InStep(Step(t, a), Sending(out, Emits(t, a))) && AskedInOrder(Step(t, a))
  {
    hide InStep, AskedInOrder, Step, Emits;
    if OfFinalizer(a) {
      FinalizerKeepsInStep(t, a, out);
    } else if OfHelper(a) {
      HelperKeepsInStep(t, a, out);
    } else if a.PumpStops? {
      StopKeepsInStep(t, out);
    } else {
      PumpKeepsInStep(t, a, out);
    }
  }

  /** Nothing more will be sent for the turn. */
  predicate Hushed(t: Turn) {
    t.cancelled && (t.finalizer.Recognizing? ==> t.finalizerAsked)
  }

  lemma HushedStaysHushed(t: Turn, a: Action)
    requires Enabled(t, a) && Hushed(t) && AskedInOrder(t)
    ensures Emits(t, a) == None && Hushed(Step(t, a))
  {
  }

  /** Every task of the turn has ended or was never begun. */
  predicate AtRest(t: Turn) {
    t.pump.Done? && t.finalizer.Finished? && !t.fan.Running? && !t.events.Running? && !t.events.Blocked?
  }

  /** A turn whose pump and finalizer are done has no helper left running. */
  lemma DoneIsAtRest(t: Turn, out: seq<Frame>)
    requires InStep(t, out) && t.finalizer.Finished?
    ensures AtRest(t)
  {
  }

  // ---------- The audio ----------

  /** The PCM among the items. */
  function Pcm(items: seq<Item>): bytes {
    if items == [] then []
    else
      var n := |items| - 1;
      Pcm(items[..n]) + if items[n] == None then [] else items[n].value
  }

  /**
   The helpers hear what was queued, in order, up to the first end; the mirror holds all of it
   exactly when it fits under the cap.
   */
  predicate AudioOk(t: Turn, put: seq<Item>) {
    QueueOk(t, put) && MirrorOk(t, Pcm(put))
  }

  predicate QueueOk(t: Turn, put: seq<Item>) {
    t.heard + t.inbox == put &&
    (forall i | 0 <= i < |t.heard| - 1 :: t.heard[i] != None) &&
    (t.fan.Absent? ==> t.heard == []) &&
    (t.fan.Running? && t.heard != [] ==> t.heard[|t.heard| - 1] != None)
  }

  predicate MirrorOk(t: Turn, pcm: bytes) {
    t.overflow == (|pcm| > t.cap) &&
    t.audio == (if t.overflow then [] else pcm)
  }

  /** The text is the final one sent; the audio is all the PCM put so far, or none once it passed the cap. */
  predicate RequestOk(request: Request, out: seq<Frame>, put: seq<Item>, cap: nat) {
    StageOf(out) == Some(Told(request.text)) &&
    request.audio == if |Pcm(put)| > cap then None else Some(Pcm(put))
  }

  lemma HandsOverAll(t: Turn, a: Action, out: seq<Frame>, put: seq<Item>)
    requires Enabled(t, a) && InStep(t, out) && AudioOk(t, put) && Hands(t, a).Some?
    ensures RequestOk(Hands(t, a).value, out, put, t.cap) && Emits(t, a) == None
  {
    hide StageOf, Pcm, QueueOk;
    assert Blank("");
    hide Blank;
  }

  lemma StepKeepsQueue(t: Turn, a: Action, put: seq<Item>)
    requires Enabled(t, a) && QueueOk(t, put) && (t.pump.Fresh? ==> t.fan.Absent?)
    ensures QueueOk(Step(t, a), put)
  {
    hide Blank;
  }

  lemma StepKeepsMirror(t: Turn, a: Action, pcm: bytes)
    requires Enabled(t, a) && MirrorOk(t, pcm)
    ensures MirrorOk(Step(t, a), pcm)
  {
    hide Blank;
  }

  lemma StepKeepsAudio(t: Turn, a: Action, put: seq<Item>)
    requires Enabled(t, a) && AudioOk(t, put) && (t.pump.Fresh? ==> t.fan.Absent?)
    ensures AudioOk(Step(t, a), put)
  {
    hide Pcm, QueueOk, MirrorOk, Step;
    StepKeepsQueue(t, a, put);
    StepKeepsMirror(t, a, Pcm(put));
  }

  lemma PutGrows(put: seq<Item>, item: Item)
    ensures Pcm(put + [item]) == Pcm(put) + if item == None then [] else item.value
  {
    assert (put + [item])[..|put|] == put;
  }

  lemma HearsKeepsAudio(t: Turn, data: bytes, put: seq<Item>)
    requires AudioOk(t, put) && !t.cancelled
    ensures AudioOk(Hears(t, data), put + [Some(data)])
  {
    hide Pcm;
    PutGrows(put, Some(data));
    assert t.heard + (t.inbox + [Some(data)]) == put + [Some(data)];
  }

  lemma EndKeepsAudio(t: Turn, put: seq<Item>)
    requires AudioOk(t, put)
    ensures !t.cancelled ==> AudioOk(EndsInput(t), put + [None]) && AudioOk(Cancels(t), put + [None])
  {
    hide Pcm;
    PutGrows(put, None);
    assert t.heard + (t.inbox + [None]) == put + [None];
  }
}
