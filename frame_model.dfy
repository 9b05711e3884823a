/**
 * The frame state machines of Frame.cs, LastFrame.cs and FrameStates.cs as
 * functions on frame values. Each function below is one C# method (or one
 * `case` body) of the synchronous event cascade:
 *
 *   Roll (the state's Roll)  ->  AddFrameEvent(Rolled)  ->  RecordRoll
 *     ->  ConstructState (the new state's constructor)  ->  ChangeState
 *
 * where ConstructState and ChangeState may log further events through
 * AddFrameEvent (Strike, Spare, StartOfSecondRoll, StartOfThirdRoll,
 * EndOfFrame), and ChangeState(Completed) sends a signal to the game.
 * A regular frame (1-9) and the last frame (10) share one value type; the
 * `last` flag selects the transition table, as LastFrame's overrides do.
 */
module FrameModel {
  import opened Wrappers
  import opened Events
  import Rolls

  const PinsAtStartOfFrame := 10

  /** The seven IFrameState classes. */
  datatype FrameStage =
    | StartOfFrame
    | PlayedOneRollRegular
    | PlayedTwoRollsRegular
    | Completed
    | PlayedOneRollLast
    | PlayedTwoRollsLast
    | PlayedThreeRollsLast

  /**
   * The fields of a frame: its number, whether it is the LastFrame, the pins
   * of its rolls, its event log, its stored state and the LastFrame's stored
   * remaining-pins field (a regular frame never writes it).
   */
  datatype FrameValue = FrameValue(
    number: int,
    last: bool,
    rolls: seq<int>,
    events: seq<FrameEvent>,
    state: FrameStage,
    storedRemaining: int)

  /**
   * What a cascade step leaves behind: the frame, the game events it sent to
   * the game (AddGameEvent calls), and the exception that stopped it, if any
   * (the frame is then as it was when the exception was thrown).
   */
  datatype Cascade = Cascade(frame: FrameValue, sent: seq<GameEvent>, error: Option<Error>)

  function Sum(s: seq<int>): int
  {
    if s == [] then 0 else s[0] + Sum(s[1..])
  }

  lemma {:induction false} SumAppend(s: seq<int>, x: int)
    ensures Sum(s + [x]) == Sum(s) + x
  {
    if s != [] {
      assert (s + [x])[1..] == s[1..] + [x];
      SumAppend(s[1..], x);
    }
  }

  /** NumOfKnockedOverPins: the same sum for both kinds of frame. */
  function KnockedOver(v: FrameValue): int
  {
    Sum(v.rolls)
  }

  /**
   * NumOfRemainingPins: ten minus the pins knocked over for a regular frame,
   * the stored field for the last frame.
   */
  function RemainingPins(v: FrameValue): int
  {
    if v.last then v.storedRemaining else PinsAtStartOfFrame - KnockedOver(v)
  }

  /** IsStrike; the LastFrame override throws, so it applies to regular frames only. */
  predicate IsStrike(v: FrameValue)
    requires !v.last
  {
    |v.rolls| == 1 && RemainingPins(v) == 0
  }

  /** IsSpare; regular frames only, as IsStrike. */
  predicate IsSpare(v: FrameValue)
    requires !v.last
  {
    |v.rolls| == 2 && RemainingPins(v) == 0
  }

  /** The number of rolls a frame in this state has at least played. */
  function MinRolls(s: FrameStage): nat
  {
    match s
    case StartOfFrame => 0
    case Completed => 0
    case PlayedOneRollRegular => 1
    case PlayedOneRollLast => 1
    case PlayedTwoRollsRegular => 2
    case PlayedTwoRollsLast => 2
    case PlayedThreeRollsLast => 3
  }

  /** The state never claims more rolls than the frame holds (so `Rolls[i]` never fails). */
  predicate Wf(v: FrameValue)
  {
    MinRolls(v.state) <= |v.rolls|
  }

  predicate RegularStage(s: FrameStage)
  {
    s == PlayedOneRollRegular || s == PlayedTwoRollsRegular
  }

  /** What every cascade step keeps: identity, kind, well-formedness, and rolls only grow. */
  predicate Kept(v: FrameValue, w: FrameValue)
  {
    w.number == v.number && w.last == v.last && Wf(w) && |v.rolls| <= |w.rolls|
  }

  function Log(v: FrameValue, e: FrameEvent): FrameValue
  {
    v.(events := v.events + [e])
  }

  function Done(v: FrameValue): Cascade
  {
    Cascade(v, [], None)
  }

  function Fail(v: FrameValue, err: Error): Cascade
  {
    Cascade(v, [], Some(err))
  }

  function EventRank(e: FrameEvent): nat
  {
    match e
    case StartOfFirstRoll(_) => 1
    case StartOfSecondRoll(_, _, _) => 1
    case StartOfThirdRoll(_, _, _) => 1
    case EndOfFrame(_, _) => 2
    case Strike(_) => 3
    case Spare(_) => 3
    case Rolled(_, _) => 5
  }

  function StateRank(s: FrameStage): nat
  {
    match s
    case Completed => 1
    case StartOfFrame => 2
    case _ => 4
  }

  /** The signal ChangeState(Completed) sends: advance below frame 10, end of game at 10. */
  function CompletionSignal(n: int): GameEvent
  {
    if n < 10 then AdvanceFrame(n, n + 1) else EndOfGame(n)
  }

  /** AddFrameEvent, dispatched to the frame's own table (LastFrame overrides it). */
  function AddFrameEvent(v: FrameValue, from: FrameStage, e: FrameEvent): (c: Cascade)
    requires Wf(v) && MinRolls(from) <= |v.rolls|
    ensures Kept(v, c.frame)
    decreases EventRank(e), 3
  {
    if v.last then LastAddFrameEvent(v, from, e) else RegularAddFrameEvent(v, from, e)
  }

  /** Frame.AddFrameEvent: the regular frame's event table. */
  function RegularAddFrameEvent(v: FrameValue, from: FrameStage, e: FrameEvent): (c: Cascade)
    requires !v.last && Wf(v) && MinRolls(from) <= |v.rolls|
    ensures Kept(v, c.frame)
    decreases EventRank(e), 2
  {
    match e
    case StartOfFirstRoll(_) => Done(Log(v, e))
    case StartOfSecondRoll(_, _, _) => Done(Log(v, e))
    case Rolled(_, pins) =>
      if from == StartOfFrame then RecordRoll(v, e, pins, PlayedOneRollRegular)
      else if from == PlayedOneRollRegular then RecordRoll(v, e, pins, PlayedTwoRollsRegular)
      else Fail(v, UnknownEvent)
    case Strike(_) =>
      if from == PlayedOneRollRegular then
        var v1 := Log(v, e);
        AddFrameEvent(v1, v1.state, EndOfFrame(v1.number, KnockedOver(v1)))
      else Fail(v, UnknownEvent)
    case Spare(_) =>
      var v1 := Log(v, e);
      AddFrameEvent(v1, v1.state, EndOfFrame(v1.number, KnockedOver(v1)))
    case EndOfFrame(_, _) => ChangeState(Log(v, e), Completed)
    case StartOfThirdRoll(_, _, _) => Fail(v, UnknownEvent)
  }

  /** LastFrame.AddFrameEvent: the tenth frame's event table. */
  function LastAddFrameEvent(v: FrameValue, from: FrameStage, e: FrameEvent): (c: Cascade)
    requires v.last && Wf(v) && MinRolls(from) <= |v.rolls|
    ensures Kept(v, c.frame)
    decreases EventRank(e), 2
  {
    match e
    case StartOfFirstRoll(_) => Done(Log(v, e))
    case StartOfSecondRoll(_, _, remaining) => Done(Log(v.(storedRemaining := remaining), e))
    case StartOfThirdRoll(_, _, remaining) => Done(Log(v.(storedRemaining := remaining), e))
    case Rolled(_, pins) =>
      if from == StartOfFrame then RecordRoll(v, e, pins, PlayedOneRollLast)
      else if from == PlayedOneRollLast then RecordRoll(v, e, pins, PlayedTwoRollsLast)
      else if from == PlayedTwoRollsLast then RecordRoll(v, e, pins, PlayedThreeRollsLast)
      else Fail(v, UnknownEvent)
    case Strike(_) =>
      var v1 := Log(v, e);
      if from == PlayedOneRollLast then
        AddFrameEvent(v1, v1.state, StartOfSecondRoll(v1.number, 10, 10))
      else if from == PlayedTwoRollsLast then
        AddFrameEvent(v1, v1.state, StartOfThirdRoll(v1.number, KnockedOver(v1), 10))
      else if from == PlayedThreeRollsLast then
        AddFrameEvent(v1, v1.state, EndOfFrame(v1.number, KnockedOver(v1)))
      else Fail(v, UnknownEvent)
    case Spare(_) =>
      var v1 := Log(v, e);
      if from == PlayedTwoRollsLast then
        AddFrameEvent(v1, v1.state, StartOfThirdRoll(v1.number, KnockedOver(v1), 10))
      else if from == PlayedThreeRollsLast then
        AddFrameEvent(v1, v1.state, EndOfFrame(v1.number, KnockedOver(v1)))
      else Fail(v, UnknownEvent)
    case EndOfFrame(_, _) => ChangeState(Log(v, e), Completed)
  }

  /**
   * The body of the `RollFrameEvent` cases: create the roll (which may
   * throw before anything changes), add it, log the event, then
   * `ChangeState(new next(...))`: the new state's constructor runs first,
   * then ChangeState stores it and reacts to it.
   */
  function RecordRoll(v: FrameValue, e: FrameEvent, pins: int, next: FrameStage): (c: Cascade)
    requires Wf(v) && MinRolls(next) <= |v.rolls| + 1 && (RegularStage(next) ==> !v.last)
    ensures Kept(v, c.frame)
    decreases 5, 1
  {
    match Rolls.Create(true, pins)
    case Failure(err) => Fail(v, err)
    case Success(roll) =>
      var v1 := Log(v.(rolls := v.rolls + [roll.pinsKnockedOver]), e);
      var c1 := ConstructState(v1, next);
      if c1.error.Some? then c1
      else
        var c2 := ChangeState(c1.frame, next);
        Cascade(c2.frame, c1.sent + c2.sent, c2.error)
  }

  /**
   * The constructors of the state classes in FrameStates.cs: the events a
   * state logs when it is created, before the frame stores it.
   */
  function ConstructState(v: FrameValue, s: FrameStage): (c: Cascade)
    requires Wf(v) && MinRolls(s) <= |v.rolls| && (RegularStage(s) ==> !v.last)
    ensures Kept(v, c.frame)
    decreases StateRank(s), 1
  {
    var n := v.number;
    match s
    case StartOfFrame => AddFrameEvent(v, s, StartOfFirstRoll(n))
    case PlayedOneRollRegular =>
      if IsStrike(v) then AddFrameEvent(v, s, Strike(n)) else Done(v)
    case PlayedTwoRollsRegular =>
      if IsSpare(v) then AddFrameEvent(v, s, Spare(n))
      else AddFrameEvent(v, s, EndOfFrame(n, KnockedOver(v)))
    case Completed => Done(v)
    case PlayedOneRollLast =>
      if v.rolls[0] == 10 then AddFrameEvent(v, s, Strike(n)) else Done(v)
    case PlayedTwoRollsLast =>
      if v.rolls[1] == 10 && v.rolls[0] == 10 then AddFrameEvent(v, s, Strike(n))
      else if v.rolls[0] != 10 && v.rolls[0] + v.rolls[1] == 10 then AddFrameEvent(v, s, Spare(n))
      else if v.rolls[0] == 10 then AddFrameEvent(v, s, StartOfThirdRoll(n, KnockedOver(v), RemainingPins(v)))
      else AddFrameEvent(v, s, EndOfFrame(n, KnockedOver(v)))
    case PlayedThreeRollsLast =>
      if v.rolls[2] == 10 then AddFrameEvent(v, s, Strike(n))
      else AddFrameEvent(v, s, EndOfFrame(n, KnockedOver(v)))
  }

  /** ChangeState, dispatched to the frame's own table. */
  function ChangeState(v: FrameValue, s: FrameStage): (c: Cascade)
    requires Wf(v) && MinRolls(s) <= |v.rolls| && (RegularStage(s) ==> !v.last)
    ensures Kept(v, c.frame)
    decreases StateRank(s), 1
  {
    if v.last then LastChangeState(v, s) else RegularChangeState(v, s)
  }

  /** Frame.ChangeState: store the state, then react to it. */
  function RegularChangeState(v: FrameValue, s: FrameStage): (c: Cascade)
    requires !v.last && Wf(v) && MinRolls(s) <= |v.rolls|
    ensures Kept(v, c.frame)
    decreases StateRank(s), 0
  {
    var v1 := v.(state := s);
    match s
    case PlayedOneRollRegular =>
      if !IsStrike(v1) then
        AddFrameEvent(v1, v1.state, StartOfSecondRoll(v1.number, KnockedOver(v1), RemainingPins(v1)))
      else Done(v1)
    case PlayedTwoRollsRegular => Done(v1)
    case Completed => Cascade(v1, [CompletionSignal(v1.number)], None)
    case _ => Fail(v1, UnknownState)
  }

  /** LastFrame.ChangeState: store the state, then react to it. */
  function LastChangeState(v: FrameValue, s: FrameStage): (c: Cascade)
    requires v.last && Wf(v) && MinRolls(s) <= |v.rolls|
    ensures Kept(v, c.frame)
    decreases StateRank(s), 0
  {
    var v1 := v.(state := s);
    match s
    case PlayedOneRollLast =>
      if v1.rolls[0] < 10 then
        AddFrameEvent(v1, v1.state, StartOfSecondRoll(v1.number, v1.rolls[0], 10 - v1.rolls[0]))
      else Done(v1)
    case PlayedTwoRollsLast => Done(v1)
    case PlayedThreeRollsLast => Done(v1)
    case Completed => Cascade(v1, [CompletionSignal(v1.number)], None)
    case _ => Fail(v1, UnknownState)
  }

  /**
   * Frame.Roll, i.e. the Roll method of the stored state: the guard of that
   * state, then the RollFrameEvent cascade. The guard runs before the roll
   * is created, so it is checked before the pin range.
   */
  function Roll(v: FrameValue, pins: int): (c: Cascade)
    requires Wf(v)
    ensures Kept(v, c.frame)
  {
    match v.state
    case StartOfFrame => AddFrameEvent(v, StartOfFrame, Rolled(v.number, pins))
    case PlayedOneRollRegular =>
      if pins > RemainingPins(v) then
        Fail(v, InvalidFrameState(ExceedsRemainingPins(Some(RemainingPins(v)))))
      else AddFrameEvent(v, PlayedOneRollRegular, Rolled(v.number, pins))
    case PlayedTwoRollsRegular => Fail(v, InvalidFrameState(TooManyRolls))
    case Completed => Fail(v, InvalidFrameState(FrameCompleted))
    case PlayedOneRollLast => LastStateRoll(v, pins)
    case PlayedTwoRollsLast => LastStateRoll(v, pins)
    case PlayedThreeRollsLast => LastStateRoll(v, pins)
  }

  /** The Roll method shared by the three last-frame states. */
  function LastStateRoll(v: FrameValue, pins: int): (c: Cascade)
    requires Wf(v)
    ensures Kept(v, c.frame)
  {
    if pins > RemainingPins(v) then Fail(v, InvalidFrameState(ExceedsRemainingPins(None)))
    else AddFrameEvent(v, v.state, Rolled(v.number, pins))
  }

  /**
   * The Frame constructor: fields start empty, then
   * `FrameState = new StartOfFrameState(...)`, whose constructor logs
   * StartOfFirstRoll.
   */
  function New(n: int, last: bool): (v: FrameValue)
    ensures v == FrameValue(n, last, [], [StartOfFirstRoll(n)], StartOfFrame, PinsAtStartOfFrame)
  {
    var blank := FrameValue(n, last, [], [], StartOfFrame, PinsAtStartOfFrame);
    var e := StartOfFirstRoll(n);
    assert last ==> LastAddFrameEvent(blank, StartOfFrame, e) == Done(Log(blank, e));
    assert !last ==> RegularAddFrameEvent(blank, StartOfFrame, e) == Done(Log(blank, e));
    assert ConstructState(blank, StartOfFrame) == AddFrameEvent(blank, StartOfFrame, e);
    ConstructState(blank, StartOfFrame).frame.(state := StartOfFrame)
  }

  /** Frame.Create: only numbers 1 to 9 make a regular frame. */
  function Create(n: int): (r: Result<FrameValue, Error>)
    ensures r.Success? <==> 1 <= n <= 9
    ensures r.Failure? ==> r.error == InvalidFrameState(FrameNumberOutOfRange)
    ensures r.Success? ==> r.value.number == n && !r.value.last && r.value.rolls == []
                           && r.value.events == [StartOfFirstRoll(n)] && r.value.state == StartOfFrame
                           && RemainingPins(r.value) == 10 && r.value.storedRemaining == PinsAtStartOfFrame
  {
    if n < 1 || n > 9 then Failure(InvalidFrameState(FrameNumberOutOfRange))
    else Success(New(n, false))
  }

  /** LastFrame.Create: always frame 10, with no range check. */
  function CreateLast(): (v: FrameValue)
    ensures v.number == 10 && v.last && v.rolls == [] && v.events == [StartOfFirstRoll(10)]
    ensures v.state == StartOfFrame && RemainingPins(v) == 10
  {
    New(10, true)
  }
}
