/**
 The outputs of a turn, exactly: every list of frames in order is sent in some run, so the order that
 every run keeps (see `FramesInOrder`) is no more than the protocol.
 */
module StreamOutputs {
  import opened Bytes
  import opened Text
  import opened Turn
  import opened Stream

  // ---------- Steps of one turn ----------

  predicate Path(t: Turn, acts: seq<Action>)
    decreases acts
  {
    acts != [] ==> Enabled(t, acts[0]) && Path(Step(t, acts[0]), acts[1..])
  }

  function Along(t: Turn, acts: seq<Action>): Turn
    requires Path(t, acts)
    decreases acts
  {
    if acts == [] then t else Along(Step(t, acts[0]), acts[1..])
  }

  function Said(t: Turn, acts: seq<Action>): seq<Frame>
    requires Path(t, acts)
    decreases acts
  {
    if acts == [] then []
    else (if Emits(t, acts[0]).Some? then [Emits(t, acts[0]).value] else []) + Said(Step(t, acts[0]), acts[1..])
  }

  /** The steps lead from `t` to `u` and send `out`. */
  ghost predicate Leads(t: Turn, acts: seq<Action>, u: Turn, out: seq<Frame>) {
    Path(t, acts) && Along(t, acts) == u && Said(t, acts) == out
  }

  lemma {:induction false} Chain(t: Turn, a: seq<Action>, u: Turn, x: seq<Frame>, b: seq<Action>, v: Turn, y: seq<Frame>)
    requires Leads(t, a, u, x) && Leads(u, b, v, y)
    ensures Leads(t, a + b, v, x + y)
    decreases a
  {
    hide Enabled, Step, Emits;
    if a == [] {
      assert a + b == b && x + y == y;
    } else {
      assert (a + b)[1..] == a[1..] + b;
      var first := if Emits(t, a[0]).Some? then [Emits(t, a[0]).value] else [];
      var rest := Said(Step(t, a[0]), a[1..]);
      Chain(Step(t, a[0]), a[1..], u, rest, b, v, y);
      assert first + (rest + y) == first + rest + y;
    }
  }

  /** Steps that send nothing before others, or after. */
  lemma ChainQuietly(t: Turn, a: seq<Action>, u: Turn, x: seq<Frame>, b: seq<Action>, v: Turn, y: seq<Frame>)
    requires Leads(t, a, u, x) && Leads(u, b, v, y)
    ensures x == [] ==> Leads(t, a + b, v, y)
    ensures y == [] ==> Leads(t, a + b, v, x)
  {
    hide Leads;
    Chain(t, a, u, x, b, v, y);
    assert [] + y == y && x + [] == x;
  }

  lemma OneStep(t: Turn, a: Action)
    requires Enabled(t, a)
    ensures Leads(t, [a], Step(t, a), if Emits(t, a).Some? then [Emits(t, a).value] else [])
  {
    hide Enabled, Step, Emits;
    var f := if Emits(t, a).Some? then [Emits(t, a).value] else [];
    NoSteps(Step(t, a));
    assert [a][0] == a && [a][1..] == [];
    assert Said(t, [a]) == f + [];
    assert Path(t, [a]) && Along(t, [a]) == Step(t, a);
  }

  lemma TwoSteps(t: Turn, a: Action, b: Action)
    requires Enabled(t, a) && Enabled(Step(t, a), b) && Emits(Step(t, a), b) == None
    ensures Leads(t, [a, b], Step(Step(t, a), b), if Emits(t, a).Some? then [Emits(t, a).value] else [])
  {
    hide Enabled, Step, Emits, Leads;
    OneStep(t, a);
    OneStep(Step(t, a), b);
    var f := if Emits(t, a).Some? then [Emits(t, a).value] else [];
    ChainQuietly(t, [a], Step(t, a), f, [b], Step(Step(t, a), b), []);
    assert [a] + [b] == [a, b];
  }

  // ---------- The parts of an output ----------

  /** A turn whose input has ended, before its tasks have run. */
  function Ready(cap: nat): Turn {
    Opened(0, cap).(inbox := [None])
  }

  function Heard(cap: nat): Turn {
    Ready(cap).(pump := Hearing, fan := Running, events := Running)
  }

  function Streams(cap: nat, final: Option<string>): Turn {
    Ready(cap).(inbox := [], heard := [None], pump := Streaming(final), fan := Over, events := Over)
  }

  lemma Begins(cap: nat)
    ensures Leads(Ready(cap), [PumpBegins], Heard(cap), [])
  {
    OneStep(Ready(cap), PumpBegins);
  }

  lemma {:induction false} EventsLead(cap: nat, out: seq<Frame>) returns (acts: seq<Action>)
    requires forall i | 0 <= i < |out| :: IsEvent(out[i])
    ensures Leads(Heard(cap), acts, Heard(cap), out)
  {
    hide Leads;
    if out == [] {
      acts := [];
      NoSteps(Heard(cap));
    } else {
      var n := |out| - 1;
      acts := EventsLead(cap, out[..n]);
      assert IsEvent(out[n]);
      var a := VadEvent(out[n].SpeechStart?);
      TwoSteps(Heard(cap), a, EventSent);
      Chain(Heard(cap), acts, Heard(cap), out[..n], [a, EventSent], Heard(cap), [out[n]]);
      acts := acts + [a, EventSent];
      assert out[..n] + [out[n]] == out;
    }
  }

  lemma NoSteps(t: Turn)
    ensures Leads(t, [], t, [])
  {
  }

  lemma SegmentLeads(cap: nat) returns (acts: seq<Action>)
    ensures Leads(Heard(cap), acts, Streams(cap, None), [])
  {
    var t0 := Heard(cap);
    var t2 := Step(Step(t0, FanMoves), SegmentFound(true));
    var t4 := Step(Step(t2, FanJoined), EventsEnd);
    TwoSteps(t0, FanMoves, SegmentFound(true));
    TwoSteps(t2, FanJoined, EventsEnd);
    OneStep(t4, EventsJoined);
    SegmentSteps(cap);
    hide Leads, Step, Enabled, Emits;
    var a, b := [FanMoves, SegmentFound(true)], [FanJoined, EventsEnd];
    ChainQuietly(t0, a, t2, [], b, t4, []);
    ChainQuietly(t0, a + b, t4, [], [EventsJoined], Streams(cap, None), []);
    acts := a + b + [EventsJoined];
  }

  lemma SegmentSteps(cap: nat)
    ensures var t2 := Step(Step(Heard(cap), FanMoves), SegmentFound(true));
      var t4 := Step(Step(t2, FanJoined), EventsEnd);
      Step(t4, EventsJoined) == Streams(cap, None)
  {
  }

  lemma {:induction false} PartialsLead(cap: nat, out: seq<Frame>) returns (acts: seq<Action>)
    requires forall i | 0 <= i < |out| :: out[i].Partial?
    ensures Leads(Streams(cap, None), acts, Streams(cap, None), out)
  {
    hide Leads;
    if out == [] {
      acts := [];
      NoSteps(Streams(cap, None));
    } else {
      var n := |out| - 1;
      acts := PartialsLead(cap, out[..n]);
      var a := AsrYields(false, out[n].text);
      TwoSteps(Streams(cap, None), a, TextSent);
      Chain(Streams(cap, None), acts, Streams(cap, None), out[..n], [a, TextSent], Streams(cap, None), [out[n]]);
      acts := acts + [a, TextSent];
      assert out[..n] + [out[n]] == out;
    }
  }

  lemma FinalLeads(cap: nat, text: string)
    ensures Leads(Streams(cap, None), [AsrYields(true, text), TextSent], Streams(cap, Some(text)), [Final(text)])
  {
    TwoSteps(Streams(cap, None), AsrYields(true, text), TextSent);
  }

  /** Once the recognizer is done: the finalizer takes over. */
  lemma FinalizerLeads(cap: nat, final: Option<string>) returns (acts: seq<Action>, u: Turn)
    ensures Leads(Streams(cap, final), acts, u, [])
    ensures u == Streams(cap, final).(
      pump := Done(Returned(if final == None then "" else final.value)), finalizer := Joining)
  {
    acts := [AsrEnds, FinalizerBegins];
    TwoSteps(Streams(cap, final), AsrEnds, FinalizerBegins);
    u := Step(Step(Streams(cap, final), AsrEnds), FinalizerBegins);
  }

  function OutcomeFor(f: Frame): Outcome {
    if f == Verdict then Answered else if f == Error(UnknownScene) then NoSuchScene else BadRequest
  }

  /** Any frame that may end the turn. */
  lemma EndLeads(cap: nat, final: Option<string>, f: Frame) returns (acts: seq<Action>, u: Turn)
    requires if final.Some? then Answers(final.value, f) else EndsEarly(f)
    ensures Leads(Streams(cap, final), acts, u, [f])
  {
    if f == Error(AsrFailed) {
      OneStep(Streams(cap, final), AsrFails);
      acts, u := [AsrFails], Step(Streams(cap, final), AsrFails);
    } else {
      acts, u := FinalizerLeads(cap, final);
      var more, v := AnswerLeads(u, f);
      hide Leads;
      ChainQuietly(Streams(cap, final), acts, u, [], more, v, [f]);
      acts, u := acts + more, v;
    }
  }

  lemma AnswerLeads(t: Turn, f: Frame) returns (acts: seq<Action>, u: Turn)
    requires t.finalizer == Joining && t.pump.Done? && t.pump.ending.Returned? && !t.cancelled && !t.finalizerAsked
    requires f != Error(AsrFailed) && (t.pump.ending.text == "" ==> f == Error(NoSpeech))
    requires Answers(t.pump.ending.text, f)
    ensures Leads(t, acts, u, [f])
  {
    hide Leads;
    OneStep(t, FinalizerJoins);
    acts, u := [FinalizerJoins], Step(t, FinalizerJoins);
    if f != Error(NoSpeech) {
      var last := Recognized(OutcomeFor(f));
      OneStep(u, last);
      ChainQuietly(t, acts, u, [], [last], Step(u, last), [f]);
      acts, u := acts + [last], Step(u, last);
    }
  }

  /** What follows the partials. */
  lemma TailLeads(cap: nat, out: seq<Frame>) returns (acts: seq<Action>, u: Turn)
    requires |out| <= 2
    requires |out| == 1 ==> out[0].Final? || EndsEarly(out[0])
    requires |out| == 2 ==> out[0].Final? && Answers(out[0].text, out[1])
    ensures Leads(Streams(cap, None), acts, u, out)
  {
    hide Leads;
    if out == [] {
      acts, u := [], Streams(cap, None);
      NoSteps(u);
    } else if !out[0].Final? {
      acts, u := EndLeads(cap, None, out[0]);
      assert out == [out[0]];
    } else {
      FinalLeads(cap, out[0].text);
      acts, u := [AsrYields(true, out[0].text), TextSent], Streams(cap, Some(out[0].text));
      if |out| == 2 {
        var more, v := EndLeads(cap, Some(out[0].text), out[1]);
        Chain(Streams(cap, None), acts, u, [out[0]], more, v, [out[1]]);
        acts, u := acts + more, v;
        assert [out[0]] + [out[1]] == out;
      } else {
        assert out == [out[0]];
      }
    }
  }

  lemma OutputLeads(cap: nat, out: seq<Frame>, events: nat, partials: nat) returns (acts: seq<Action>, u: Turn)
    requires InOrder(out, events, partials)
    ensures Leads(Ready(cap), acts, u, out)
  {
    hide Leads, Ready, Heard, Streams, Answers, EndsEarly, IsEvent;
    var rest := events + partials;
    var x, y, z := out[..events], out[events..rest], out[rest..];
    var a := EventsLead(cap, x);
    var b := SegmentLeads(cap);
    var c := PartialsLead(cap, y);
    var d, v := TailLeads(cap, z);
    acts := Assembled(cap, x, y, z, a, b, c, d, v);
    u := v;
    assert x + y + z == out;
  }

  lemma Assembled(cap: nat, x: seq<Frame>, y: seq<Frame>, z: seq<Frame>, a: seq<Action>, b: seq<Action>, c: seq<Action>,
                  d: seq<Action>, v: Turn)
    returns (acts: seq<Action>)
    requires Leads(Heard(cap), a, Heard(cap), x) && Leads(Heard(cap), b, Streams(cap, None), [])
    requires Leads(Streams(cap, None), c, Streams(cap, None), y) && Leads(Streams(cap, None), d, v, z)
    ensures Leads(Ready(cap), acts, v, x + y + z)
  {
    hide Leads, Ready, Heard, Streams;
    Begins(cap);
    acts := [PumpBegins] + a;
    ChainQuietly(Ready(cap), [PumpBegins], Heard(cap), [], a, Heard(cap), x);
    ChainQuietly(Ready(cap), acts, Heard(cap), x, b, Streams(cap, None), []);
    acts := acts + b;
    Chain(Ready(cap), acts, Streams(cap, None), x, c, Streams(cap, None), y);
    acts := acts + c;
    Chain(Ready(cap), acts, Streams(cap, None), x + y, d, v, z);
    acts := acts + d;
  }

  // ---------- In a run ----------

  function Tasks(acts: seq<Action>): seq<Move> {
    seq(|acts|, i requires 0 <= i < |acts| => Task(0, acts[i]))
  }

  lemma RunMore(cap: nat, moves: seq<Move>, m: Move)
    requires Run(cap, moves) && Legal(After(cap, moves), m)
    ensures Run(cap, moves + [m]) && After(cap, moves + [m]) == Apply(After(cap, moves), m)
  {
    hide Legal, Apply;
    assert (moves + [m])[..|moves|] == moves;
  }

  lemma {:induction false} Lifted(cap: nat, moves: seq<Move>, t: Turn, acts: seq<Action>)
    requires Run(cap, moves) && After(cap, moves).turns == [t] && Path(t, acts)
    ensures Run(cap, moves + Tasks(acts))
    ensures FramesOf(After(cap, moves + Tasks(acts)).log, t.id) == FramesOf(After(cap, moves).log, t.id) + Said(t, acts)
    decreases acts
  {
    hide Enabled, Step, Emits, Hands, FramesOf, Run, After, Legal, Apply;
    if acts == [] {
      assert moves + Tasks(acts) == moves;
      var out := FramesOf(After(cap, moves).log, t.id);
      assert out + [] == out;
    } else {
      var s, m := After(cap, moves), Task(0, acts[0]);
      StepInRun(s, t, acts[0]);
      RunMore(cap, moves, m);
      StepKeepsName(t, acts[0]);
      Lifted(cap, moves + [m], Step(t, acts[0]), acts[1..]);
      assert moves + [m] + Tasks(acts[1..]) == moves + Tasks(acts);
      var out, first := FramesOf(s.log, t.id), if Emits(t, acts[0]).Some? then [Emits(t, acts[0]).value] else [];
      assert out + first + Said(Step(t, acts[0]), acts[1..]) == out + (first + Said(Step(t, acts[0]), acts[1..]));
    }
  }

  lemma StepInRun(s: State, t: Turn, a: Action)
    requires s.turns == [t] && Enabled(t, a)
    ensures Legal(s, Task(0, a)) && Apply(s, Task(0, a)).turns == [Step(t, a)]
    ensures FramesOf(Apply(s, Task(0, a)).log, t.id) ==
      FramesOf(s.log, t.id) + if Emits(t, a).Some? then [Emits(t, a).value] else []
  {
    hide Enabled, Step, Emits, Hands, FramesOf;
    if Emits(t, a).Some? {
      LogGrows(s.log, Sent(t.id, Emits(t, a).value));
    } else if Hands(t, a).Some? {
      LogGrows(s.log, Handed(t.id, Hands(t, a).value));
    }
    assert FramesOf(s.log, t.id) + [] == FramesOf(s.log, t.id);
  }

  /** A first turn with id 0, whose input ends at once. */
  const OPENING: seq<Move> := [Receive(Start(Some("session"), Some(0), true, true)), ReceiveStop]

  function FirstAccepted(cap: nat): State {
    State(cap, Some("session"), 0, [Opened(0, cap)], Listening, [Abandoning, Accepted(0)])
  }

  function FirstEnded(cap: nat): State {
    State(cap, Some("session"), 0, [Ready(cap)], Listening, [Abandoning, Accepted(0), Put(0, None)])
  }

  lemma FirstStart(cap: nat)
    ensures Legal(Connected(cap), OPENING[0]) && Apply(Connected(cap), OPENING[0]) == FirstAccepted(cap)
  {
    var turns: seq<Turn> := [];
    assert turns + [Opened(0, cap)] == [Opened(0, cap)];
    var log: seq<Event> := [];
    assert log + [Abandoning] == [Abandoning] && [Abandoning] + [Accepted(0)] == [Abandoning, Accepted(0)];
  }

  lemma FirstStop(cap: nat)
    ensures Legal(FirstAccepted(cap), OPENING[1]) && Apply(FirstAccepted(cap), OPENING[1]) == FirstEnded(cap)
  {
    var turns, log := FirstAccepted(cap).turns, FirstAccepted(cap).log;
    var items: seq<Item> := [];
    assert items + [None] == [None];
    assert EndsInput(turns[0]) == Ready(cap) && turns[0 := Ready(cap)] == [Ready(cap)];
    assert log + [Put(0, None)] == [Abandoning, Accepted(0), Put(0, None)];
  }

  lemma OpeningRuns(cap: nat)
    ensures Run(cap, OPENING) && After(cap, OPENING) == FirstEnded(cap)
  {
    hide Apply, Legal, FirstAccepted, FirstEnded;
    var a, b := OPENING[0], OPENING[1];
    assert Run(cap, []) && After(cap, []) == Connected(cap);
    FirstStart(cap);
    RunMore(cap, [], a);
    assert [] + [a] == [a];
    FirstStop(cap);
    RunMore(cap, [a], b);
    assert [a] + [b] == OPENING;
  }

  lemma NothingSent(id: int)
    ensures FramesOf([], id) == []
  {
  }

  lemma NoFrames(cap: nat)
    ensures FramesOf(FirstEnded(cap).log, 0) == []
  {
    hide FramesOf;
    var none: seq<Event> := [];
    var a, b, c := Abandoning, Accepted(0), Put(0, None);
    NothingSent(0);
    LogGrows(none, a);
    LogGrows(none + [a], b);
    LogGrows(none + [a] + [b], c);
    assert none + [a] + [b] + [c] == FirstEnded(cap).log;
  }

  /** Some run sends exactly these frames with some turn id. */
  ghost predicate Possible(out: seq<Frame>) {
    exists cap: nat, moves: seq<Move>, id: int :: Run(cap, moves) && FramesOf(After(cap, moves).log, id) == out
  }

  /** The frames a turn can have sent are exactly the lists in order. */
  lemma PossibleIffInOrder(out: seq<Frame>)
    ensures Possible(out) <==> exists events: nat, partials: nat :: InOrder(out, events, partials)
  {
    hide Run, After, FramesOf, InOrder;
    if cap: nat, moves: seq<Move>, id: int :| Run(cap, moves) && FramesOf(After(cap, moves).log, id) == out {
      FramesInOrder(cap, moves, id);
    }
    if events: nat, partials: nat :| InOrder(out, events, partials) {
      var acts, u := OutputLeads(0, out, events, partials);
      OpeningRuns(0);
      NoFrames(0);
      Lifted(0, OPENING, Ready(0), acts);
      assert [] + out == out;
      assert Run(0, OPENING + Tasks(acts)) && FramesOf(After(0, OPENING + Tasks(acts)).log, 0) == out;
    }
  }
}
