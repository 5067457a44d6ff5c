/**
 The receive loop of a WebSocket connection (src/sandroid/api/routes.py) and the turns it opens, as
 one machine whose steps interleave in any order, with the history of what was received and sent.
 */
module Stream {
  import opened Bytes
  import opened Turn
  import opened Text

  /** A `start` message: which fields have the right type, and whether `n_best` can be read. */
  datatype Start = Start(sessionId: Option<string>, turnId: Option<int>, named: bool, nBestReads: bool)

  /** What a `start` message that passed the checks goes on with. */
  datatype Opening = Opening(sessionId: string, turnId: int, nBestReads: bool)

  datatype StartError = BadStart | SessionMismatch | StaleTurn

  /** Where the receive loop is suspended. */
  datatype Loop =
    | Listening
    | Replying(fatal: bool)
    | AwaitingPump(next: Option<Opening>)
    | AwaitingFinalizer(next: Option<Opening>)
    | Gone

  datatype Event =
    | Refused(error: StartError)
    | Abandoning
    | Accepted(turn: int)
    | Put(turn: int, item: Item)
    | Sent(turn: int, frame: Frame)
    | Handed(turn: int, request: Request)

  datatype State = State(
    cap: nat, sessionId: Option<string>, currentTurn: int, turns: seq<Turn>, loop: Loop, log: seq<Event>)

  function Connected(cap: nat): State {
    State(cap, None, -1, [], Listening, [])
  }

  datatype Move =
    | Receive(start: Start)
    | ReceivePcm(data: bytes)
    | ReceiveStop
    /** A disconnect, or an exception in the receive loop. */
    | Leave
    | Replied
    | ReplyFails
    | PumpAwaited
    | FinalizerAwaited
    | Task(index: nat, action: Action)

  predicate Legal(s: State, m: Move) {
    match m
    case Receive(_) => s.loop.Listening?
    case ReceivePcm(_) => s.loop.Listening?
    case ReceiveStop => s.loop.Listening?
    case Leave => s.loop.Listening?
    case Replied => s.loop.Replying?
    case ReplyFails => s.loop.Replying?
    case PumpAwaited => s.loop.AwaitingPump? && s.turns != [] && Last(s).pump.Done?
    case FinalizerAwaited => s.loop.AwaitingFinalizer? && s.turns != [] && Last(s).finalizer.Finished?
    case Task(i, a) => i < |s.turns| && Enabled(s.turns[i], a)
  }

  /** The turn `_ctx` refers to. */
  function Last(s: State): Turn
    requires s.turns != []
  {
    s.turns[|s.turns| - 1]
  }

  function WithLast(s: State, t: Turn): State
    requires s.turns != []
  {
    s.(turns := s.turns[|s.turns| - 1 := t])
  }

  function Logged(s: State, e: Event): State {
    s.(log := s.log + [e])
  }

  function Reply(s: State, error: StartError): State {
    Logged(s, Refused(error)).(loop := Replying(error != StaleTurn))
  }

  /** The start message of a new turn, in the order of the source's checks. */
  function Starts(s: State, m: Start): State {
    if m.sessionId == None || m.turnId == None || !m.named then Reply(s, BadStart)
    else if s.sessionId != None && m.sessionId != s.sessionId then Reply(s, SessionMismatch)
    else if m.turnId.value <= s.currentTurn then Reply(s, StaleTurn)
    else Abandons(s, Some(Opening(m.sessionId.value, m.turnId.value, m.nBestReads)))
  }

  /** Abandoning the current turn, up to the first await. */
  function Abandons(s: State, next: Option<Opening>): State {
    var s := Logged(s, Abandoning);
    if s.turns == [] then Continues(s, next)
    else
      var t := Last(s);
      var s := if t.cancelled then s else Logged(WithLast(s, Cancels(t)), Put(t.id, None));
      if Last(s).pumpAsked then s.(loop := AwaitingPump(next)) else AbandonsFinalizer(s, next)
  }

  function AbandonsFinalizer(s: State, next: Option<Opening>): State
    requires s.turns != []
  {
    var t := Last(s);
    if t.finalizer.Finished? then Continues(s, next)
    else WithLast(s, Dismisses(t)).(loop := AwaitingFinalizer(next))
  }

  /** The rest of `handle_start`, or the end of the connection. */
  function Continues(s: State, next: Option<Opening>): State {
    if next == None then s.(loop := Gone)
    else
      var o := next.value;
      var s := Logged(s, Accepted(o.turnId)).(sessionId := Some(o.sessionId), currentTurn := o.turnId);
      if o.nBestReads then s.(turns := s.turns + [Opened(o.turnId, s.cap)], loop := Listening)
      else s.(loop := Gone)
  }

  function Apply(s: State, m: Move): State
    requires Legal(s, m)
  {
    match m
    case Receive(start) => Starts(s, start)
    case ReceivePcm(data) =>
      if s.turns == [] || Last(s).cancelled then s
      else Logged(WithLast(s, Hears(Last(s), data)), Put(Last(s).id, Some(data)))
    case ReceiveStop =>
      if s.turns == [] || Last(s).cancelled then s
      else Logged(WithLast(s, EndsInput(Last(s))), Put(Last(s).id, None))
    case Leave => Abandons(s, None)
    case Replied => if s.loop.fatal then Abandons(s, None) else s.(loop := Listening)
    case ReplyFails => Abandons(s, None)
    case PumpAwaited => AbandonsFinalizer(s, s.loop.next)
    case FinalizerAwaited => Continues(s, s.loop.next)
    case Task(i, a) =>
      var t := s.turns[i];
      var s := s.(turns := s.turns[i := Step(t, a)]);
      if Emits(t, a).Some? then Logged(s, Sent(t.id, Emits(t, a).value))
      else if Hands(t, a).Some? then Logged(s, Handed(t.id, Hands(t, a).value))
      else s
  }

  /** A run from a fresh connection. */
  predicate Run(cap: nat, moves: seq<Move>)
    decreases |moves|, 0
  {
    moves == [] ||
    var n := |moves| - 1;
    Run(cap, moves[..n]) && Legal(After(cap, moves[..n]), moves[n])
  }

  function After(cap: nat, moves: seq<Move>): State
    requires Run(cap, moves)
    decreases |moves|, 1
  {
    if moves == [] then Connected(cap)
    else
      var n := |moves| - 1;
      Apply(After(cap, moves[..n]), moves[n])
  }

  // ---------- Reading the history ----------

  /** The frames sent for a turn, in order. */
  function FramesOf(log: seq<Event>, id: int): seq<Frame> {
    if log == [] then []
    else
      var n := |log| - 1;
      var out := FramesOf(log[..n], id);
      if log[n].Sent? && log[n].turn == id then out + [log[n].frame] else out
  }

  /** The items queued for a turn, in order. */
  function ItemsOf(log: seq<Event>, id: int): seq<Item> {
    if log == [] then []
    else
      var n := |log| - 1;
      var put := ItemsOf(log[..n], id);
      if log[n].Put? && log[n].turn == id then put + [log[n].item] else put
  }

  /** The turn that may send: the one accepted last, until it is being abandoned. */
  function Open(log: seq<Event>): Option<int> {
    if log == [] then None
    else
      var n := |log| - 1;
      match log[n]
      case Accepted(id) => Some(id)
      case Abandoning => None
      case _ => Open(log[..n])
  }

  /** The id accepted last. */
  function Newest(log: seq<Event>): int {
    if log == [] then -1
    else
      var n := |log| - 1;
      if log[n].Accepted? then log[n].turn else Newest(log[..n])
  }

  /** Ids only grow, and a frame is only sent for the open turn. */
  predicate Orderly(log: seq<Event>) {
    log == [] ||
    var n := |log| - 1;
    Orderly(log[..n]) &&
    match log[n]
    case Accepted(id) => Newest(log[..n]) < id
    case Sent(id, _) => Open(log[..n]) == Some(id)
    case _ => true
  }

  /** Each request carried what its turn had sent and been given by then. */
  predicate RequestsOk(log: seq<Event>, cap: nat) {
    log == [] ||
    var n := |log| - 1;
    RequestsOk(log[..n], cap) &&
    (log[n].Handed? ==>
       RequestOk(log[n].request, FramesOf(log[..n], log[n].turn), ItemsOf(log[..n], log[n].turn), cap))
  }

  lemma LogGrows(log: seq<Event>, e: Event)
    ensures forall id ::
      FramesOf(log + [e], id) == if e.Sent? && e.turn == id then FramesOf(log, id) + [e.frame] else FramesOf(log, id)
    ensures forall id ::
      ItemsOf(log + [e], id) == if e.Put? && e.turn == id then ItemsOf(log, id) + [e.item] else ItemsOf(log, id)
    ensures Open(log + [e]) == (match e case Accepted(id) => Some(id) case Abandoning => None case _ => Open(log))
    ensures Newest(log + [e]) == if e.Accepted? then e.turn else Newest(log)
    ensures Orderly(log + [e]) <==>
      Orderly(log) && (e.Accepted? ==> Newest(log) < e.turn) && (e.Sent? ==> Open(log) == Some(e.turn))
  {
    assert (log + [e])[..|log|] == log;
  }

  lemma RequestsGrow(log: seq<Event>, cap: nat, e: Event)
    requires RequestsOk(log, cap)
    requires e.Handed? ==> RequestOk(e.request, FramesOf(log, e.turn), ItemsOf(log, e.turn), cap)
    ensures RequestsOk(log + [e], cap)
  {
    hide FramesOf, ItemsOf, RequestOk;
    assert (log + [e])[..|log|] == log;
  }

  // ---------- What every move keeps ----------

  predicate TurnOk(t: Turn, log: seq<Event>, cap: nat) {
    InStep(t, FramesOf(log, t.id)) && AskedInOrder(t) && AudioOk(t, ItemsOf(log, t.id)) && t.cap == cap
  }

  predicate TurnsOk(turns: seq<Turn>, log: seq<Event>, cap: nat) {
    (forall i, j | 0 <= i < j < |turns| :: turns[i].id < turns[j].id) &&
    (forall i | 0 <= i < |turns| :: TurnOk(turns[i], log, cap))
  }

  function Ids(turns: seq<Turn>): set<int> {
    set i | 0 <= i < |turns| :: turns[i].id
  }

  /** Whatever was sent or queued concerns one of the turns. */
  ghost predicate NothingElse(log: seq<Event>, ids: set<int>) {
    forall id | id !in ids :: FramesOf(log, id) == [] && ItemsOf(log, id) == []
  }

  /** A turn that has been replaced. */
  predicate Past(t: Turn) {
    Hushed(t) && t.finalizer.Finished?
  }

  predicate LoopOk(s: State) {
    match s.loop
    case Listening => LastOpen(s)
    case Replying(_) => LastOpen(s)
    case AwaitingPump(next) => s.turns != [] && Hushed(Last(s)) && NextOk(s, next)
    case AwaitingFinalizer(next) => s.turns != [] && Hushed(Last(s)) && Last(s).pump.Done? && NextOk(s, next)
    case Gone => s.turns != [] ==> Past(Last(s))
  }

  /** The last turn may send, unless it has failed and its pump is done. */
  predicate LastOpen(s: State) {
    if s.turns == [] then Open(s.log) == None
    else Open(s.log) == Some(Last(s).id) && (Last(s).cancelled ==> Last(s).pump.Done?)
  }

  predicate NextOk(s: State, next: Option<Opening>) {
    next.Some? ==>
      next.value.turnId > s.currentTurn && (s.sessionId == None || s.sessionId == Some(next.value.sessionId))
  }

  ghost predicate Inv(s: State) {
    TurnsOk(s.turns, s.log, s.cap) && NothingElse(s.log, Ids(s.turns)) && Orderly(s.log) && RequestsOk(s.log, s.cap) &&
    Newest(s.log) == s.currentTurn && (s.turns != [] ==> Last(s).id <= s.currentTurn) &&
    (forall i | 0 <= i < |s.turns| - 1 :: Past(s.turns[i])) && LoopOk(s)
  }

  lemma LoggingKeepsTurns(turns: seq<Turn>, log: seq<Event>, cap: nat, e: Event)
    requires TurnsOk(turns, log, cap) && !e.Sent? && !e.Put?
    ensures TurnsOk(turns, log + [e], cap)
    ensures NothingElse(log, Ids(turns)) ==> NothingElse(log + [e], Ids(turns))
  {
    hide FramesOf, ItemsOf, InStep, AudioOk, AskedInOrder;
    LogGrows(log, e);
  }

  lemma SameIds(turns: seq<Turn>, i: nat, t: Turn)
    requires i < |turns| && t.id == turns[i].id
    ensures Ids(turns[i := t]) == Ids(turns)
  {
    var after := turns[i := t];
    assert forall j | 0 <= j < |turns| :: after[j].id == turns[j].id;
    forall id | id in Ids(turns)
      ensures id in Ids(after)
    {
      var j :| 0 <= j < |turns| && turns[j].id == id;
      assert after[j].id == id;
    }
  }

  /** One turn takes a step, and sends or queues something. */
  lemma ChangeKeepsTurns(turns: seq<Turn>, log: seq<Event>, cap: nat, i: nat, t: Turn, e: Event)
    requires TurnsOk(turns, log, cap) && i < |turns| && t.id == turns[i].id
    requires (e.Sent? || e.Put?) && e.turn == t.id && TurnOk(t, log + [e], cap)
    ensures TurnsOk(turns[i := t], log + [e], cap)
    ensures Ids(turns[i := t]) == Ids(turns)
    ensures NothingElse(log, Ids(turns)) ==> NothingElse(log + [e], Ids(turns))
  {
    hide FramesOf, ItemsOf, InStep, AudioOk, AskedInOrder;
    LogGrows(log, e);
    SameIds(turns, i, t);
    assert t.id in Ids(turns);
    var after := turns[i := t];
    forall j | 0 <= j < |after|
      ensures TurnOk(after[j], log + [e], cap)
    {
      assert j < i ==> turns[j].id < turns[i].id;
      assert j > i ==> turns[i].id < turns[j].id;
    }
  }

  lemma TaskKeepsTurn(t: Turn, log: seq<Event>, cap: nat, a: Action)
    requires TurnOk(t, log, cap) && Enabled(t, a)
    ensures Step(t, a).id == t.id
    ensures TurnOk(Step(t, a), if Emits(t, a) == None then log else log + [Sent(t.id, Emits(t, a).value)], cap)
    ensures Hands(t, a).Some? ==>
      RequestOk(Hands(t, a).value, FramesOf(log, t.id), ItemsOf(log, t.id), cap) && Emits(t, a) == None
  {
    hide FramesOf, ItemsOf, InStep, AudioOk, AskedInOrder, Step, Emits, Hands, Enabled, RequestOk;
    var out, put, f := FramesOf(log, t.id), ItemsOf(log, t.id), Emits(t, a);
    FreshHasNoFan(t, out);
    StepKeepsInStep(t, a, out);
    StepKeepsAudio(t, a, put);
    StepKeepsName(t, a);
    if f.Some? {
      LogGrows(log, Sent(t.id, f.value));
    }
    if Hands(t, a).Some? {
      HandsOverAll(t, a, out, put);
    }
  }

  lemma FreshHasNoFan(t: Turn, out: seq<Frame>)
    requires InStep(t, out)
    ensures t.pump.Fresh? ==> t.fan.Absent?
  {
  }

  lemma StepKeepsName(t: Turn, a: Action)
    requires Enabled(t, a)
    ensures Step(t, a).id == t.id && Step(t, a).cap == t.cap
  {
    hide Blank, AfterPump, AfterHelpers;
  }

  lemma StepKeepsEnds(t: Turn, a: Action)
    requires Enabled(t, a)
    ensures t.finalizer.Finished? ==> Step(t, a).finalizer.Finished?
    ensures t.pump.Done? ==> Step(t, a).pump.Done?
    ensures Step(t, a).cancelled && !t.cancelled ==> Step(t, a).pump.Done?
  {
    hide Blank, AfterPump, AfterHelpers;
  }

  lemma QueueingKeepsTurn(t: Turn, log: seq<Event>, cap: nat, item: Item)
    requires TurnOk(t, log, cap) && !t.cancelled
    ensures item.Some? ==> TurnOk(Hears(t, item.value), log + [Put(t.id, item)], cap)
    ensures item == None ==>
      TurnOk(EndsInput(t), log + [Put(t.id, item)], cap) && TurnOk(Cancels(t), log + [Put(t.id, item)], cap)
  {
    hide FramesOf, ItemsOf, AudioOk, StageOf;
    var put := ItemsOf(log, t.id);
    LogGrows(log, Put(t.id, item));
    if item.Some? {
      HearsKeepsAudio(t, item.value, put);
    } else {
      EndKeepsAudio(t, put);
    }
  }

  lemma TaskKeepsInv(s: State, i: nat, a: Action)
    requires Inv(s) && Legal(s, Task(i, a))
    ensures Inv(Apply(s, Task(i, a)))
  {
    hide FramesOf, ItemsOf, InStep, AudioOk, Step, Emits, Hands, Enabled, RequestOk, Hushed, Open, Newest, Orderly, NothingElse, Ids, RequestsOk;
    var t, f := s.turns[i], Emits(s.turns[i], a);
    TaskKeepsTurn(t, s.log, s.cap, a);
    StepKeepsEnds(t, a);
    if Hushed(t) {
      HushedStaysHushed(t, a);
    }
    if f.Some? {
      var e := Sent(t.id, f.value);
      ChangeKeepsTurns(s.turns, s.log, s.cap, i, Step(t, a), e);
      LogGrows(s.log, e);
      RequestsGrow(s.log, s.cap, e);
    } else {
      SilentChange(s.turns, s.log, s.cap, i, Step(t, a));
      if Hands(t, a).Some? {
        var e := Handed(t.id, Hands(t, a).value);
        LoggingKeepsTurns(s.turns[i := Step(t, a)], s.log, s.cap, e);
        LogGrows(s.log, e);
        RequestsGrow(s.log, s.cap, e);
      }
    }
  }

  lemma SilentChange(turns: seq<Turn>, log: seq<Event>, cap: nat, i: nat, t: Turn)
    requires TurnsOk(turns, log, cap) && i < |turns| && t.id == turns[i].id && TurnOk(t, log, cap)
    ensures TurnsOk(turns[i := t], log, cap) && Ids(turns[i := t]) == Ids(turns)
  {
    hide TurnOk;
    SameIds(turns, i, t);
  }

  lemma QueueingKeepsInv(s: State, m: Move)
    requires Inv(s) && Legal(s, m) && (m.ReceivePcm? || m.ReceiveStop?)
    ensures Inv(Apply(s, m))
  {
    hide FramesOf, ItemsOf, InStep, AudioOk, Hushed, Open, Newest, Orderly, NothingElse, Ids, RequestsOk;
    if s.turns != [] && !Last(s).cancelled {
      var t := Last(s);
      var item := if m.ReceivePcm? then Some(m.data) else None;
      QueueingKeepsTurn(t, s.log, s.cap, item);
      var e := Put(t.id, item);
      ChangeKeepsTurns(s.turns, s.log, s.cap, |s.turns| - 1, if m.ReceivePcm? then Hears(t, m.data) else EndsInput(t), e);
      LogGrows(s.log, e);
      RequestsGrow(s.log, s.cap, e);
    }
  }

  /** What holds of the other turns and the history, wherever the loop is. */
  ghost predicate Core(s: State) {
    TurnsOk(s.turns, s.log, s.cap) && NothingElse(s.log, Ids(s.turns)) && Orderly(s.log) && RequestsOk(s.log, s.cap) &&
    Newest(s.log) == s.currentTurn && (s.turns != [] ==> Last(s).id <= s.currentTurn) &&
    (forall i | 0 <= i < |s.turns| - 1 :: Past(s.turns[i]))
  }

  lemma OneMore(turns: seq<Turn>, t: Turn)
    ensures Ids(turns) <= Ids(turns + [t])
  {
    forall id | id in Ids(turns)
      ensures id in Ids(turns + [t])
    {
      var j :| 0 <= j < |turns| && turns[j].id == id;
      assert (turns + [t])[j].id == id;
    }
  }

  lemma OpenedHasId(id: int, cap: nat)
    ensures Opened(id, cap).id == id && !Opened(id, cap).cancelled
  {
  }

  lemma OpenedIsOk(id: int, cap: nat, log: seq<Event>)
    requires FramesOf(log, id) == [] && ItemsOf(log, id) == []
    ensures TurnOk(Opened(id, cap), log, cap)
  {
    hide FramesOf, ItemsOf;
  }

  lemma ContinuesKeepsInv(s: State, next: Option<Opening>)
    requires Core(s) && NextOk(s, next) && (s.turns != [] ==> Past(Last(s)))
    ensures Inv(Continues(s, next))
  {
    hide FramesOf, ItemsOf, TurnOk, Open, Newest, Orderly, RequestsOk, Hushed, Opened;
    if next.Some? {
      var id := next.value.turnId;
      var log := s.log + [Accepted(id)];
      LoggingKeepsTurns(s.turns, s.log, s.cap, Accepted(id));
      LogGrows(s.log, Accepted(id));
      RequestsGrow(s.log, s.cap, Accepted(id));
      assert FramesOf(log, id) == [] && ItemsOf(log, id) == [];
      OpenedIsOk(id, s.cap, log);
      OpenedHasId(id, s.cap);
      assert Ids(s.turns) <= Ids(s.turns + [Opened(id, s.cap)]) by {
        OneMore(s.turns, Opened(id, s.cap));
      }
    }
  }

  lemma DismissKeepsTurn(t: Turn, log: seq<Event>, cap: nat)
    requires TurnOk(t, log, cap) && t.pump.Done?
    ensures TurnOk(Dismisses(t), log, cap)
  {
    hide FramesOf, ItemsOf, StageOf, Pcm;
  }

  lemma DismissKeepsInv(s: State, next: Option<Opening>)
    requires Core(s) && NextOk(s, next) && s.turns != [] && Last(s).cancelled && Last(s).pump.Done?
    ensures Inv(AbandonsFinalizer(s, next))
  {
    hide FramesOf, ItemsOf, TurnOk, Open, Newest, Orderly, NothingElse, Ids, RequestsOk;
    if Last(s).finalizer.Finished? {
      ContinuesKeepsInv(s, next);
    } else {
      DismissKeepsTurn(Last(s), s.log, s.cap);
      SilentChange(s.turns, s.log, s.cap, |s.turns| - 1, Dismisses(Last(s)));
    }
  }

  lemma AbandonKeepsInv(s: State, next: Option<Opening>)
    requires Inv(s) && (s.loop.Listening? || s.loop.Replying?) && NextOk(s, next)
    ensures Inv(Abandons(s, next))
  {
    hide FramesOf, ItemsOf, StageOf, AudioOk, Open, Newest, Orderly, NothingElse, Ids, RequestsOk;
    LoggingKeepsTurns(s.turns, s.log, s.cap, Abandoning);
    LogGrows(s.log, Abandoning);
    RequestsGrow(s.log, s.cap, Abandoning);
    var s1 := Logged(s, Abandoning);
    if s.turns == [] {
      ContinuesKeepsInv(s1, next);
    } else {
      var t := Last(s);
      var e := Put(t.id, None);
      var s2 := if t.cancelled then s1 else Logged(WithLast(s1, Cancels(t)), e);
      if !t.cancelled {
        QueueingKeepsTurn(t, s1.log, s.cap, None);
        ChangeKeepsTurns(s.turns, s1.log, s.cap, |s.turns| - 1, Cancels(t), e);
        LogGrows(s1.log, e);
        RequestsGrow(s1.log, s.cap, e);
      }
      if !Last(s2).pumpAsked {
        DismissKeepsInv(s2, next);
      }
    }
  }

  lemma MoveKeepsInv(s: State, m: Move)
    requires Inv(s) && Legal(s, m)
    ensures Inv(Apply(s, m))
  {
    hide TurnsOk, NothingElse, Ids, RequestsOk, Orderly, Open, Newest, Past, Hushed, Abandons, AbandonsFinalizer, Continues;
    match m {
      case Task(i, a) => TaskKeepsInv(s, i, a);
      case ReceivePcm(_) => QueueingKeepsInv(s, m);
      case ReceiveStop => QueueingKeepsInv(s, m);
      case Receive(start) => StartKeepsInv(s, start);
      case Leave => AbandonKeepsInv(s, None);
      case Replied =>
        if s.loop.fatal {
          AbandonKeepsInv(s, None);
        }
      case ReplyFails => AbandonKeepsInv(s, None);
      case PumpAwaited => PumpAwaitedKeepsInv(s);
      case FinalizerAwaited => FinalizerAwaitedKeepsInv(s);
    }
  }

  lemma PumpAwaitedKeepsInv(s: State)
    requires Inv(s) && Legal(s, PumpAwaited)
    ensures Inv(Apply(s, PumpAwaited))
  {
    hide TurnsOk, NothingElse, Ids, RequestsOk, Orderly, Open, Newest, AbandonsFinalizer;
    DismissKeepsInv(s, s.loop.next);
  }

  lemma FinalizerAwaitedKeepsInv(s: State)
    requires Inv(s) && Legal(s, FinalizerAwaited)
    ensures Inv(Apply(s, FinalizerAwaited))
  {
    hide TurnsOk, NothingElse, Ids, RequestsOk, Orderly, Open, Newest, Continues;
    ContinuesKeepsInv(s, s.loop.next);
  }

  lemma StartKeepsInv(s: State, start: Start)
    requires Inv(s) && Legal(s, Receive(start))
    ensures Inv(Starts(s, start))
  {
    hide TurnsOk, NothingElse, Ids, RequestsOk, Orderly, Open, Newest, Past, Hushed, Abandons;
    forall error
      ensures Inv(Reply(s, error))
    {
      LoggingKeepsTurns(s.turns, s.log, s.cap, Refused(error));
      LogGrows(s.log, Refused(error));
      RequestsGrow(s.log, s.cap, Refused(error));
    }
    if start.sessionId.Some? && start.turnId.Some? && s.currentTurn < start.turnId.value &&
       (s.sessionId == None || s.sessionId == start.sessionId) {
      AbandonKeepsInv(s, Some(Opening(start.sessionId.value, start.turnId.value, start.nBestReads)));
    }
  }

  // ---------- Every run ----------

  lemma {:induction false} RunKeepsInv(cap: nat, moves: seq<Move>)
    requires Run(cap, moves)
    ensures Inv(After(cap, moves))
    decreases |moves|
  {
    if moves != [] {
      var n := |moves| - 1;
      RunKeepsInv(cap, moves[..n]);
      MoveKeepsInv(After(cap, moves[..n]), moves[n]);
    }
  }

  /**
   In every interleaving, the frames sent with one turn id are speech events, then partials, then at
   most one final, then at most one verdict or error; and there is no verdict without a final.
   */
  lemma FramesInOrder(cap: nat, moves: seq<Move>, id: int)
    requires Run(cap, moves)
    ensures exists events: nat, partials: nat :: InOrder(FramesOf(After(cap, moves).log, id), events, partials)
  {
    hide Run, After, Orderly, RequestsOk, Newest, Past, LoopOk, StageOf, FramesOf, ItemsOf, PumpInStep, FinalizerInStep;
    RunKeepsInv(cap, moves);
    var s := After(cap, moves);
    NothingIsInStage();
    if id in Ids(s.turns) {
      var i :| 0 <= i < |s.turns| && s.turns[i].id == id;
      assert TurnOk(s.turns[i], s.log, s.cap);
    }
    StageIffOrder(FramesOf(s.log, id));
  }

  lemma {:induction false} OrderlyPrefix(log: seq<Event>, n: nat)
    requires Orderly(log) && n <= |log|
    ensures Orderly(log[..n])
    decreases |log|
  {
    if n < |log| {
      OrderlyPrefix(log[..|log| - 1], n);
      assert log[..|log| - 1][..n] == log[..n];
    } else {
      assert log[..n] == log;
    }
  }

  lemma {:induction false} NewestCovers(log: seq<Event>, i: nat, j: nat)
    requires i < j <= |log| && Orderly(log[..j])
    ensures log[i].Accepted? ==> log[i].turn <= Newest(log[..j])
    ensures Open(log[..j]).Some? ==> Open(log[..j]).value == Newest(log[..j])
    decreases j
  {
    assert log[..j][..j - 1] == log[..j - 1];
    if i < j - 1 {
      NewestCovers(log, i, j - 1);
    } else {
      OpenIsNewest(log[..j]);
    }
  }

  lemma {:induction false} OpenIsNewest(log: seq<Event>)
    ensures Open(log).Some? ==> Open(log).value == Newest(log)
    decreases |log|
  {
    if log != [] {
      OpenIsNewest(log[..|log| - 1]);
    }
  }

  lemma {:induction false} OpenIsRecent(log: seq<Event>, i: nat, j: nat)
    requires i < j <= |log| && log[i].Abandoning? && Open(log[..j]).Some?
    ensures exists k | i < k < j :: log[k] == Accepted(Open(log[..j]).value)
    decreases j
  {
    assert log[..j][..j - 1] == log[..j - 1];
    if log[j - 1].Accepted? {
      assert i < j - 1;
    } else {
      OpenIsRecent(log, i, j - 1);
    }
  }

  lemma NothingIsInStage()
    ensures StageOf([]) == Some(Speech)
  {
  }

  /** Entry `i` before entry `j`: ids grow, and only the open turn sends. */
  predicate InSequence(log: seq<Event>, i: nat, j: nat)
    requires i < j < |log|
  {
    (log[j].Sent? ==> Open(log[..j]) == Some(log[j].turn)) &&
    (log[i].Accepted? && log[j].Accepted? ==> log[i].turn < log[j].turn) &&
    (log[i].Accepted? && log[j].Sent? ==> log[i].turn <= log[j].turn) &&
    (log[i].Abandoning? && log[j].Sent? ==> exists k | i < k < j :: log[k] == Accepted(log[j].turn))
  }

  lemma OrderlyMeans(log: seq<Event>, i: nat, j: nat)
    requires Orderly(log) && i < j < |log|
    ensures InSequence(log, i, j)
  {
    OrderlyPrefix(log, j);
    OrderlyPrefix(log, j + 1);
    assert log[..j + 1][..j] == log[..j];
    hide Newest, Open;
    NewestCovers(log, i, j);
    if log[i].Abandoning? && log[j].Sent? {
      OpenIsRecent(log, i, j);
    }
  }

  /**
   Barge-in: accepted ids strictly increase, and a frame's send only begins for the id accepted last,
   and not once that turn is being abandoned. So after an acceptance no older turn is heard of.
   */
  lemma OnlyTheNewestSpeaks(cap: nat, moves: seq<Move>, i: nat, j: nat)
    requires Run(cap, moves) && i < j < |After(cap, moves).log|
    ensures InSequence(After(cap, moves).log, i, j)
  {
    hide Run, After, InSequence, Orderly;
    RunKeepsInv(cap, moves);
    OrderlyMeans(After(cap, moves).log, i, j);
  }

  lemma PastIsAtRest(s: State, i: nat)
    requires TurnsOk(s.turns, s.log, s.cap) && i < |s.turns| && Past(s.turns[i])
    ensures AtRest(s.turns[i])
  {
    hide InStep, AtRest, AskedInOrder, AudioOk, Hushed, FramesOf, ItemsOf;
    assert TurnOk(s.turns[i], s.log, s.cap);
    DoneIsAtRest(s.turns[i], FramesOf(s.log, s.turns[i].id));
  }

  /** No task of a replaced turn outlives the acceptance of the next, and none outlives the connection. */
  lemma PastTurnsAreAtRest(cap: nat, moves: seq<Move>, i: nat)
    requires Run(cap, moves) && i < |After(cap, moves).turns|
    ensures var s := After(cap, moves);
      i < |s.turns| - 1 || s.loop.Gone? ==> AtRest(s.turns[i])
  {
    hide Run, After, TurnsOk, NothingElse, Ids, Orderly, RequestsOk, Newest, Past, AtRest, Open;
    RunKeepsInv(cap, moves);
    var s := After(cap, moves);
    if i < |s.turns| - 1 || s.loop.Gone? {
      PastIsAtRest(s, i);
    }
  }

  /**
   What a turn's helpers heard is what was queued for it, in order, up to the first end; and the
   mirrored audio is all its PCM, or nothing once that passed the cap.
   */
  lemma AudioIsKept(cap: nat, moves: seq<Move>, i: nat)
    requires Run(cap, moves) && i < |After(cap, moves).turns|
    ensures var s := After(cap, moves); AudioOk(s.turns[i], ItemsOf(s.log, s.turns[i].id)) && s.turns[i].cap == cap
  {
    hide Run, After, NothingElse, Ids, Orderly, RequestsOk, Newest, Past, LoopOk, AudioOk, InStep, FramesOf, ItemsOf;
    RunKeepsInv(cap, moves);
    CapStays(cap, moves);
    var s := After(cap, moves);
    assert TurnOk(s.turns[i], s.log, s.cap);
  }

  lemma {:induction false} RequestsMean(log: seq<Event>, cap: nat, j: nat)
    requires RequestsOk(log, cap) && j < |log| && log[j].Handed?
    ensures RequestOk(log[j].request, FramesOf(log[..j], log[j].turn), ItemsOf(log[..j], log[j].turn), cap)
    decreases |log|
  {
    hide RequestOk, FramesOf, ItemsOf;
    var n := |log| - 1;
    if j < n {
      RequestsMean(log[..n], cap, j);
      assert log[..n][..j] == log[..j];
    }
  }

  /**
   Every request handed to the orchestrator carries the final text that was sent, and exactly the PCM
   queued for its turn up to then, or no audio when that had passed the cap.
   */
  lemma RequestsCarryAll(cap: nat, moves: seq<Move>, j: nat)
    requires Run(cap, moves) && j < |After(cap, moves).log| && After(cap, moves).log[j].Handed?
    ensures var log := After(cap, moves).log;
      RequestOk(log[j].request, FramesOf(log[..j], log[j].turn), ItemsOf(log[..j], log[j].turn), cap)
  {
    hide Run, After, RequestOk, RequestsOk, FramesOf, ItemsOf, TurnsOk, NothingElse, Orderly, Newest, LoopOk, Past;
    RunKeepsInv(cap, moves);
    CapStays(cap, moves);
    RequestsMean(After(cap, moves).log, cap, j);
  }

  lemma CapKept(s: State, m: Move)
    requires Legal(s, m)
    ensures Apply(s, m).cap == s.cap
  {
    hide Enabled, Step, Emits, Cancels, Dismisses, Hears, EndsInput, Opened;
  }

  lemma {:induction false} CapStays(cap: nat, moves: seq<Move>)
    requires Run(cap, moves)
    ensures After(cap, moves).cap == cap
    decreases |moves|
  {
    hide Legal, Apply;
    if moves != [] {
      var n := |moves| - 1;
      CapStays(cap, moves[..n]);
      CapKept(After(cap, moves[..n]), moves[n]);
    }
  }

  lemma SessionKept(s: State, m: Move)
    requires Inv(s) && Legal(s, m) && s.sessionId.Some?
    ensures Apply(s, m).sessionId == s.sessionId
  {
    hide TurnsOk, NothingElse, Ids, RequestsOk, Orderly, Open, Newest, Past, Hushed, Enabled, Step, Emits;
  }

  /** Every turn of a connection belongs to the session of the first. */
  lemma {:induction false} SessionNeverChanges(cap: nat, moves: seq<Move>, n: nat)
    requires Run(cap, moves) && n <= |moves| && Run(cap, moves[..n]) && After(cap, moves[..n]).sessionId.Some?
    ensures After(cap, moves).sessionId == After(cap, moves[..n]).sessionId
    decreases |moves|
  {
    hide Inv, Legal, Apply;
    if n < |moves| {
      var k := |moves| - 1;
      assert moves[..k][..n] == moves[..n];
      SessionNeverChanges(cap, moves[..k], n);
      RunKeepsInv(cap, moves[..k]);
      SessionKept(After(cap, moves[..k]), moves[k]);
    } else {
      assert moves[..n] == moves;
    }
  }
}
