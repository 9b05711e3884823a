/**
 * Frame.cs, LastFrame.cs and the Roll guards of FrameStates.cs as a class
 * whose methods update the frame's fields in place, step by step, as the C#
 * cascade does. Every method is proved to leave exactly the frame (and to
 * send exactly the game events and raise exactly the exception) that the
 * function of the same name in FrameModel computes from the old frame.
 */
module Frames {
  import opened Wrappers
  import opened Events
  import opened FrameModel
  import Rolls

  class Frame {
    /** FrameNumber: fixed at construction. */
    const number: int
    /** Whether this is the LastFrame subclass. */
    const last: bool
    var rolls: seq<int>
    var events: seq<FrameEvent>
    /** FrameState, the stored state object. */
    var state: FrameStage
    /** LastFrame._numOfPinsRemaining; a regular frame never writes it. */
    var storedRemaining: int

    function Value(): FrameValue
      reads this
    {
      FrameValue(number, last, rolls, events, state, storedRemaining)
    }

    predicate Valid()
      reads this
    {
      Wf(Value())
    }

    /**
     * The shared constructor: the fields start empty, then
     * `FrameState = new StartOfFrameState(...)` logs StartOfFirstRoll.
     */
    constructor (n: int, isLast: bool)
      ensures Value() == New(n, isLast) && Valid()
    {
      number := n;
      last := isLast;
      rolls := [];
      events := [];
      state := StartOfFrame;
      storedRemaining := PinsAtStartOfFrame;
      new;
      var sent, err := ConstructState(StartOfFrame);
      state := StartOfFrame;
    }

    /** Frame.Create: a regular frame numbered 1 to 9, or the range error. */
    static method Create(n: int) returns (r: Result<Frame, Error>)
      ensures r.Success? <==> FrameModel.Create(n).Success?
      ensures r.Success? ==> fresh(r.value) && r.value.Value() == FrameModel.Create(n).value
      ensures r.Failure? ==> r.error == FrameModel.Create(n).error
    {
      if n < 1 || n > 9 {
        return Failure(InvalidFrameState(FrameNumberOutOfRange));
      }
      var f := new Frame(n, false);
      return Success(f);
    }

    /** LastFrame.Create: always frame 10. */
    static method CreateLast() returns (f: Frame)
      ensures fresh(f) && f.Value() == FrameModel.CreateLast()
    {
      f := new Frame(10, true);
    }

    /** Frame.Roll: the stored state's Roll method. */
    method Roll(pins: int) returns (sent: seq<GameEvent>, err: Option<Error>)
      requires Valid()
      modifies this
      ensures Valid()
      ensures Cascade(Value(), sent, err) == FrameModel.Roll(old(Value()), pins)
    {
      match state
      case StartOfFrame =>
        sent, err := AddFrameEvent(StartOfFrame, Rolled(number, pins));
      case PlayedOneRollRegular =>
        if pins > RemainingPins(Value()) {
          sent, err := [], Some(InvalidFrameState(ExceedsRemainingPins(Some(RemainingPins(Value())))));
        } else {
          sent, err := AddFrameEvent(PlayedOneRollRegular, Rolled(number, pins));
        }
      case PlayedTwoRollsRegular =>
        sent, err := [], Some(InvalidFrameState(TooManyRolls));
      case Completed =>
        sent, err := [], Some(InvalidFrameState(FrameCompleted));
      case PlayedOneRollLast =>
        sent, err := LastStateRoll(pins);
      case PlayedTwoRollsLast =>
        sent, err := LastStateRoll(pins);
      case PlayedThreeRollsLast =>
        sent, err := LastStateRoll(pins);
    }

    /** The Roll method of the three last-frame states. */
    method LastStateRoll(pins: int) returns (sent: seq<GameEvent>, err: Option<Error>)
      requires Valid()
      modifies this
      ensures Cascade(Value(), sent, err) == FrameModel.LastStateRoll(old(Value()), pins)
    {
      if pins > RemainingPins(Value()) {
        sent, err := [], Some(InvalidFrameState(ExceedsRemainingPins(None)));
      } else {
        sent, err := AddFrameEvent(state, Rolled(number, pins));
      }
    }

    /** The virtual AddFrameEvent: LastFrame overrides it. */
    method AddFrameEvent(from: FrameStage, e: FrameEvent) returns (sent: seq<GameEvent>, err: Option<Error>)
      requires Valid() && MinRolls(from) <= |rolls|
      modifies this
      ensures Cascade(Value(), sent, err) == FrameModel.AddFrameEvent(old(Value()), from, e)
      decreases EventRank(e), 3
    {
      if last {
        sent, err := LastAddFrameEvent(from, e);
      } else {
        sent, err := RegularAddFrameEvent(from, e);
      }
    }

    /** Frame.AddFrameEvent. */
    method RegularAddFrameEvent(from: FrameStage, e: FrameEvent) returns (sent: seq<GameEvent>, err: Option<Error>)
      requires !last && Valid() && MinRolls(from) <= |rolls|
      modifies this
      ensures Cascade(Value(), sent, err) == FrameModel.RegularAddFrameEvent(old(Value()), from, e)
      decreases EventRank(e), 2
    {
      sent, err := [], None;
      match e
      case StartOfFirstRoll(_) =>
        events := events + [e];
      case StartOfSecondRoll(_, _, _) =>
        events := events + [e];
      case Rolled(_, pins) =>
        if from == StartOfFrame {
          sent, err := RecordRoll(e, pins, PlayedOneRollRegular);
        } else if from == PlayedOneRollRegular {
          sent, err := RecordRoll(e, pins, PlayedTwoRollsRegular);
        } else {
          err := Some(UnknownEvent);
        }
      case Strike(_) =>
        if from == PlayedOneRollRegular {
          events := events + [e];
          sent, err := AddFrameEvent(state, EndOfFrame(number, KnockedOver(Value())));
        } else {
          err := Some(UnknownEvent);
        }
      case Spare(_) =>
        events := events + [e];
        sent, err := AddFrameEvent(state, EndOfFrame(number, KnockedOver(Value())));
      case EndOfFrame(_, _) =>
        events := events + [e];
        sent, err := ChangeState(Completed);
      case StartOfThirdRoll(_, _, _) =>
        err := Some(UnknownEvent);
    }

    /** LastFrame.AddFrameEvent: the start events also store the remaining pins. */
    method LastAddFrameEvent(from: FrameStage, e: FrameEvent) returns (sent: seq<GameEvent>, err: Option<Error>)
      requires last && Valid() && MinRolls(from) <= |rolls|
      modifies this
      ensures Cascade(Value(), sent, err) == FrameModel.LastAddFrameEvent(old(Value()), from, e)
      decreases EventRank(e), 2
    {
      sent, err := [], None;
      match e
      case StartOfFirstRoll(_) =>
        events := events + [e];
      case StartOfSecondRoll(_, _, remaining) =>
        storedRemaining := remaining;
        events := events + [e];
      case StartOfThirdRoll(_, _, remaining) =>
        storedRemaining := remaining;
        events := events + [e];
      case Rolled(_, pins) =>
        if from == StartOfFrame {
          sent, err := RecordRoll(e, pins, PlayedOneRollLast);
        } else if from == PlayedOneRollLast {
          sent, err := RecordRoll(e, pins, PlayedTwoRollsLast);
        } else if from == PlayedTwoRollsLast {
          sent, err := RecordRoll(e, pins, PlayedThreeRollsLast);
        } else {
          err := Some(UnknownEvent);
        }
      case Strike(_) =>
        if from == PlayedOneRollLast {
          events := events + [e];
          sent, err := AddFrameEvent(state, StartOfSecondRoll(number, 10, 10));
        } else if from == PlayedTwoRollsLast {
          events := events + [e];
          sent, err := AddFrameEvent(state, StartOfThirdRoll(number, KnockedOver(Value()), 10));
        } else if from == PlayedThreeRollsLast {
          events := events + [e];
          sent, err := AddFrameEvent(state, EndOfFrame(number, KnockedOver(Value())));
        } else {
          err := Some(UnknownEvent);
        }
      case Spare(_) =>
        if from == PlayedTwoRollsLast {
          events := events + [e];
          sent, err := AddFrameEvent(state, StartOfThirdRoll(number, KnockedOver(Value()), 10));
        } else if from == PlayedThreeRollsLast {
          events := events + [e];
          sent, err := AddFrameEvent(state, EndOfFrame(number, KnockedOver(Value())));
        } else {
          err := Some(UnknownEvent);
        }
      case EndOfFrame(_, _) =>
        events := events + [e];
        sent, err := ChangeState(Completed);
    }

    /**
     * The RollFrameEvent cases: Roll.Create, AddRoll, log the event, then
     * ChangeState(new next-state), whose constructor runs first.
     */
    method RecordRoll(e: FrameEvent, pins: int, next: FrameStage) returns (sent: seq<GameEvent>, err: Option<Error>)
      requires Valid() && MinRolls(next) <= |rolls| + 1 && (RegularStage(next) ==> !last)
      modifies this
      ensures Cascade(Value(), sent, err) == FrameModel.RecordRoll(old(Value()), e, pins, next)
      decreases 5, 1
    {
      var roll := Rolls.Create(true, pins);
      if roll.Failure? {
        return [], Some(roll.error);
      }
      AddRoll(roll.value);
      events := events + [e];
      var sent1, err1 := ConstructState(next);
      if err1.Some? {
        return sent1, err1;
      }
      var sent2, err2 := ChangeState(next);
      sent, err := sent1 + sent2, err2;
    }

    /** Frame.AddRoll. */
    method AddRoll(roll: Rolls.Roll)
      modifies this
      ensures rolls == old(rolls) + [roll.pinsKnockedOver]
      ensures events == old(events) && state == old(state) && storedRemaining == old(storedRemaining)
    {
      rolls := rolls + [roll.pinsKnockedOver];
    }

    /** The constructors of the state classes: what each logs on creation. */
    method ConstructState(s: FrameStage) returns (sent: seq<GameEvent>, err: Option<Error>)
      requires Valid() && MinRolls(s) <= |rolls| && (RegularStage(s) ==> !last)
      modifies this
      ensures Cascade(Value(), sent, err) == FrameModel.ConstructState(old(Value()), s)
      decreases StateRank(s), 1
    {
      sent, err := [], None;
      match s
      case StartOfFrame =>
        sent, err := AddFrameEvent(s, StartOfFirstRoll(number));
      case PlayedOneRollRegular =>
        if IsStrike(Value()) {
          sent, err := AddFrameEvent(s, Strike(number));
        }
      case PlayedTwoRollsRegular =>
        if IsSpare(Value()) {
          sent, err := AddFrameEvent(s, Spare(number));
        } else {
          sent, err := AddFrameEvent(s, EndOfFrame(number, KnockedOver(Value())));
        }
      case Completed =>
      case PlayedOneRollLast =>
        if rolls[0] == 10 {
          sent, err := AddFrameEvent(s, Strike(number));
        }
      case PlayedTwoRollsLast =>
        if rolls[1] == 10 && rolls[0] == 10 {
          sent, err := AddFrameEvent(s, Strike(number));
        } else if rolls[0] != 10 && rolls[0] + rolls[1] == 10 {
          sent, err := AddFrameEvent(s, Spare(number));
        } else if rolls[0] == 10 {
          sent, err := AddFrameEvent(s, StartOfThirdRoll(number, KnockedOver(Value()), RemainingPins(Value())));
        } else {
          sent, err := AddFrameEvent(s, EndOfFrame(number, KnockedOver(Value())));
        }
      case PlayedThreeRollsLast =>
        if rolls[2] == 10 {
          sent, err := AddFrameEvent(s, Strike(number));
        } else {
          sent, err := AddFrameEvent(s, EndOfFrame(number, KnockedOver(Value())));
        }
    }

    /** The virtual ChangeState: LastFrame overrides it. */
    method ChangeState(s: FrameStage) returns (sent: seq<GameEvent>, err: Option<Error>)
      requires Valid() && MinRolls(s) <= |rolls| && (RegularStage(s) ==> !last)
      modifies this
      ensures Cascade(Value(), sent, err) == FrameModel.ChangeState(old(Value()), s)
      decreases StateRank(s), 1
    {
      if last {
        sent, err := LastChangeState(s);
      } else {
        sent, err := RegularChangeState(s);
      }
    }

    /** Frame.ChangeState: store the new state, then react to it. */
    method RegularChangeState(s: FrameStage) returns (sent: seq<GameEvent>, err: Option<Error>)
      requires !last && Valid() && MinRolls(s) <= |rolls|
      modifies this
      ensures Cascade(Value(), sent, err) == FrameModel.RegularChangeState(old(Value()), s)
      decreases StateRank(s), 0
    {
      state := s;
      sent, err := [], None;
      match s
      case PlayedOneRollRegular =>
        if !IsStrike(Value()) {
          sent, err := AddFrameEvent(state, StartOfSecondRoll(number, KnockedOver(Value()), RemainingPins(Value())));
        }
      case PlayedTwoRollsRegular =>
      case Completed =>
        sent := [CompletionSignal(number)];
      case _ =>
        err := Some(UnknownState);
    }

    /** LastFrame.ChangeState: store the new state, then react to it. */
    method LastChangeState(s: FrameStage) returns (sent: seq<GameEvent>, err: Option<Error>)
      requires last && Valid() && MinRolls(s) <= |rolls|
      modifies this
      ensures Cascade(Value(), sent, err) == FrameModel.LastChangeState(old(Value()), s)
      decreases StateRank(s), 0
    {
      state := s;
      sent, err := [], None;
      match s
      case PlayedOneRollLast =>
        if rolls[0] < 10 {
          sent, err := AddFrameEvent(state, StartOfSecondRoll(number, rolls[0], 10 - rolls[0]));
        }
      case PlayedTwoRollsLast =>
      case PlayedThreeRollsLast =>
      case Completed =>
        sent := [CompletionSignal(number)];
      case _ =>
        err := Some(UnknownState);
    }
  }
}
