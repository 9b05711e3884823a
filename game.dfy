/**
 * Game.cs and GameStates.cs as a class whose methods update the game's
 * frame list, state and event log in place. Game.Roll is proved to do
 * exactly what GameModel.GameRoll computes, and to keep the game inside
 * the reachable family of GameTable, on which GameProperties and Scoring
 * prove the game's promises.
 */
module Games {
  import opened Wrappers
  import opened Events
  import opened FrameModel
  import opened GameModel
  import opened GameTable
  import opened GameProperties
  import opened Scoring
  import opened Frames

  /** The values of a list of frame objects. */
  function ValuesOf(fs: seq<Frame>): (vs: seq<FrameValue>)
    reads set f | f in fs
    ensures |vs| == |fs|
  {
    if fs == [] then [] else ValuesOf(fs[..|fs| - 1]) + [fs[|fs| - 1].Value()]
  }

  lemma ValuesOfAppend(fs: seq<Frame>, f: Frame)
    ensures ValuesOf(fs + [f]) == ValuesOf(fs) + [f.Value()]
  {
    assert (fs + [f])[..|fs|] == fs;
  }

  lemma ValuesOfLast(fs: seq<Frame>)
    requires |fs| > 0
    ensures ValuesOf(fs) == ValuesOf(fs[..|fs| - 1]) + [fs[|fs| - 1].Value()]
  {
  }

  /** No frame object appears twice. */
  predicate Distinct(fs: seq<Frame>)
  {
    forall i, j :: 0 <= i < j < |fs| ==> fs[i] != fs[j]
  }

  class Game {
    /** _frames, in the order they were added. */
    var frames: seq<Frame>
    /** _gameState. */
    var stage: GameStage
    var events: seq<GameEvent>

    function Value(): GameValue
      reads this, set f | f in frames
    {
      GameValue(ValuesOf(frames), stage, events)
    }

    /** The frames are distinct objects and the game is one the API can reach. */
    predicate Valid()
      reads this, set f | f in frames
    {
      && |frames| > 0
      && Distinct(frames)
      && Reachable(Value())
    }

    /** CurrentFrame: the frame added last. */
    function CurrentFrame(): Frame
      requires |frames| > 0
      reads this
    {
      frames[|frames| - 1]
    }

    /** PreviousFrame, `_frames[^2]`; None where the C# indexer would throw. */
    function PreviousFrame(): Option<Frame>
      reads this
    {
      if |frames| >= 2 then Some(frames[|frames| - 2]) else None
    }

    predicate IsGameCompleted()
      reads this
    {
      stage == EndGame
    }

    /** Game.GetScore: the sum of the frames' scores, which is the standard score of the pins rolled. */
    function GetScore(): (score: int)
      requires Valid()
      reads this, set f | f in frames
      ensures score == StandardScore(AllRolls(Value()), 10)
    {
      ScoreIsStandard(Value());
      GameScore(ValuesOf(frames))
    }

    /**
     * The constructor: StartOfGameState, the Started event (which moves to
     * GameInProgressState), then frame 1 through Frame.Create.
     */
    constructor ()
      ensures Valid() && Value() == GameModel.Create()
      ensures fresh(CurrentFrame())
    {
      frames := [];
      stage := StartOfGame;
      events := [];
      new;
      var err := AddGameEvent(Started(1));
      assert Value() == GameValue([], GameInProgress, [Started(1)]);
      var first := Frame.Create(1);
      assert first.Success? && first.value.Value() == New(1, false);
      AddFrame(first.value);
      assert Value() == GameModel.Create();
      CreateIsReachable();
    }

    /** Log the event (`_events.Add`). */
    method LogEvent(e: GameEvent)
      modifies this
      ensures frames == old(frames) && Value() == old(Value()).(events := old(events) + [e])
    {
      events := events + [e];
    }

    method ChangeState(s: GameStage)
      modifies this
      ensures frames == old(frames) && Value() == old(Value()).(stage := s)
    {
      stage := s;
    }

    method AddFrame(f: Frame)
      requires Distinct(frames) && f !in frames
      modifies this
      ensures Distinct(frames)
      ensures frames == old(frames) + [f]
      ensures Value() == old(Value()).(frames := old(Value()).frames + [f.Value()])
    {
      ValuesOfAppend(frames, f);
      frames := frames + [f];
    }

    /** Game.AddGameEvent: log the event, then move the state or add the next frame. */
    method AddGameEvent(e: GameEvent) returns (err: Option<Error>)
      requires e.AdvanceFrame? && e.newFrameNumber != 10 ==> |frames| > 0
      requires Distinct(frames)
      modifies this
      ensures Distinct(frames)
      ensures Step(Value(), err) == GameModel.AddGameEvent(old(Value()), e)
      ensures |old(frames)| <= |frames| && frames[..|old(frames)|] == old(frames)
    {
      err := None;
      LogEvent(e);
      match e {
        case Started(_) =>
          ChangeState(GameInProgress);
        case AdvanceFrame(_, newFrameNumber) =>
          err := AddNextFrame(newFrameNumber);
        case EndOfGame(_) =>
          ChangeState(EndGame);
      }
    }

    /** The AdvanceFrame case of AddGameEvent. */
    method AddNextFrame(newFrameNumber: int) returns (err: Option<Error>)
      requires newFrameNumber != 10 ==> |frames| > 0
      requires Distinct(frames)
      modifies this
      ensures Distinct(frames)
      ensures Step(Value(), err) == GameModel.AddNextFrame(old(Value()), newFrameNumber)
      ensures |old(frames)| <= |frames| && frames[..|old(frames)|] == old(frames)
    {
      err := None;
      if newFrameNumber == 10 {
        var f := Frame.CreateLast();
        AddFrame(f);
      } else {
        var r := Frame.Create(CurrentFrame().number + 1);
        if r.Failure? {
          err := Some(r.error);
        } else {
          AddFrame(r.value);
        }
      }
    }

    /** CurrentFrame.Roll(pins): the current frame object changes, no other one. */
    method RollCurrentFrame(pins: int) returns (sent: seq<GameEvent>, err: Option<Error>)
      requires |frames| > 0 && Distinct(frames)
      requires CurrentFrame().Valid()
      modifies CurrentFrame()
      ensures CurrentFrame().Valid()
      ensures Cascade(CurrentFrame().Value(), sent, err) == FrameModel.Roll(old(CurrentFrame().Value()), pins)
      ensures Value() == old(Value()).(frames := old(Value()).frames[..|frames| - 1] + [CurrentFrame().Value()])
    {
      var f := CurrentFrame();
      var init := frames[..|frames| - 1];
      assert frames == init + [f];
      ghost var before := ValuesOf(init);
      ValuesOfAppend(init, f);
      sent, err := f.Roll(pins);
      ValuesOfAppend(init, f);
      assert ValuesOf(init) == before;
    }

    /**
     * Game.Roll: EndGameState throws; the other states forward the pins to
     * the current frame, whose completion signal the game then handles.
     */
    method Roll(pins: int) returns (err: Option<Error>)
      requires Valid()
      modifies this, CurrentFrame()
      ensures Valid()
      ensures Step(Value(), err) == GameRoll(old(Value()), pins)
      ensures |old(frames)| <= |frames| && frames[..|old(frames)|] == old(frames)
      ensures |frames| > |old(frames)| ==> PreviousFrame() == Some(old(CurrentFrame()))
    {
      if stage == EndGame {
        return Some(InvalidGameState);
      }
      ghost var g0 := Value();
      assert |g0.frames| > 0 && Wf(Current(g0)) && Reachable(GameRoll(g0, pins).game) by {
        RollStaysReachable(g0, pins);
      }
      assert |FrameModel.Roll(Current(g0), pins).sent| <= 1 by {
        CurrentFrameSignals(g0, pins);
      }
      assert Current(g0) == CurrentFrame().Value() by {
        ValuesOfLast(frames);
      }
      err := ForwardRoll(pins);
      assert frames[|old(frames)| - 1] == old(frames)[|old(frames)| - 1];
    }

    /** The Roll of StartOfGameState and GameInProgressState. */
    method ForwardRoll(pins: int) returns (err: Option<Error>)
      requires |frames| > 0 && Distinct(frames) && CurrentFrame().Valid()
      requires stage != EndGame && Value().frames[|frames| - 1] == CurrentFrame().Value()
      requires |FrameModel.Roll(CurrentFrame().Value(), pins).sent| <= 1
      modifies this, CurrentFrame()
      ensures Distinct(frames)
      ensures Step(Value(), err) == GameRoll(old(Value()), pins)
      ensures |old(frames)| <= |frames| <= |old(frames)| + 1 && frames[..|old(frames)|] == old(frames)
    {
      var sent, frameErr := RollCurrentFrame(pins);
      ghost var g1 := Value();
      var gameErr: Option<Error> := None;
      if sent != [] {
        gameErr := AddGameEvent(sent[0]);
        assert sent == [sent[0]] && sent[..0] == [];
      }
      assert SendAll(g1, sent) == Step(Value(), gameErr);
      err := if gameErr.Some? then gameErr else frameErr;
    }
  }
}
