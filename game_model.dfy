/**
 * Game.cs and GameStates.cs as functions on game values: the game-event
 * table (AddGameEvent), the Roll of the three game states, and the
 * constructor. A frame's cascade returns the game events it sent; the game
 * handles them, in order, once the frame's cascade has finished.
 */
module GameModel {
  import opened Wrappers
  import opened Events
  import opened FrameModel

  /** The three IGameState classes. */
  datatype GameStage = StartOfGame | GameInProgress | EndGame

  /** The fields of a game: its frames in order, its state and its event log. */
  datatype GameValue = GameValue(frames: seq<FrameValue>, stage: GameStage, events: seq<GameEvent>)

  /** A game after a step, and the exception that step raised, if any. */
  datatype Step = Step(game: GameValue, error: Option<Error>)

  /** Every frame of the game is well formed, and there is at least one. */
  predicate GameWf(g: GameValue)
  {
    |g.frames| > 0 && forall i :: 0 <= i < |g.frames| ==> Wf(g.frames[i])
  }

  /** CurrentFrame: the frame added last (the C# field is set to it after every AddFrame). */
  function Current(g: GameValue): FrameValue
    requires |g.frames| > 0
  {
    g.frames[|g.frames| - 1]
  }

  /** PreviousFrame, `_frames[^2]`; the C# indexer throws when there is only one frame. */
  function Previous(g: GameValue): Option<FrameValue>
  {
    if |g.frames| >= 2 then Some(g.frames[|g.frames| - 2]) else None
  }

  predicate IsGameCompleted(g: GameValue)
  {
    g.stage == EndGame
  }

  /**
   * Game.AddGameEvent: log the event, then move the state or add the next
   * frame.
   */
  function AddGameEvent(g: GameValue, e: GameEvent): (s: Step)
    requires e.AdvanceFrame? && e.newFrameNumber != 10 ==> |g.frames| > 0
    ensures |g.frames| <= |s.game.frames| <= |g.frames| + 1 && s.game.frames[..|g.frames|] == g.frames
    ensures s.game.events == g.events + [e]
    ensures e.Started? ==> s.error == None && s.game.stage == GameInProgress && s.game.frames == g.frames
    ensures e.EndOfGame? ==> s.error == None && s.game.stage == EndGame && s.game.frames == g.frames
    ensures e.AdvanceFrame? ==> s.game.stage == g.stage
    ensures e.AdvanceFrame? ==> s == AddNextFrame(g.(events := g.events + [e]), e.newFrameNumber)
  {
    var logged := g.(events := g.events + [e]);
    match e
    case Started(_) => Step(logged.(stage := GameInProgress), None)
    case AdvanceFrame(_, newFrameNumber) => AddNextFrame(logged, newFrameNumber)
    case EndOfGame(_) => Step(logged.(stage := EndGame), None)
  }

  /**
   * The AdvanceFrame case: an advance to frame 10 adds the LastFrame; any
   * other advance creates frame CurrentFrame.FrameNumber + 1 through
   * Frame.Create, which may throw (after the event was logged).
   */
  function AddNextFrame(g: GameValue, newFrameNumber: int): (s: Step)
    requires newFrameNumber != 10 ==> |g.frames| > 0
    ensures |g.frames| <= |s.game.frames| <= |g.frames| + 1 && s.game.frames[..|g.frames|] == g.frames
    ensures s.game.events == g.events && s.game.stage == g.stage
    ensures newFrameNumber == 10 ==> s.error == None && s.game.frames == g.frames + [CreateLast()]
    ensures newFrameNumber != 10 && FrameModel.Create(Current(g).number + 1).Success? ==>
      s.error == None && s.game.frames == g.frames + [FrameModel.Create(Current(g).number + 1).value]
    ensures newFrameNumber != 10 && FrameModel.Create(Current(g).number + 1).Failure? ==>
      s.game == g && s.error == Some(FrameModel.Create(Current(g).number + 1).error)
  {
    if newFrameNumber == 10 then
      Step(g.(frames := g.frames + [CreateLast()]), None)
    else
      match FrameModel.Create(Current(g).number + 1)
      case Failure(err) => Step(g, Some(err))
      case Success(f) => Step(g.(frames := g.frames + [f]), None)
  }

  /** Handle the sent game events in order; the first exception stops the rest. */
  function SendAll(g: GameValue, es: seq<GameEvent>): (s: Step)
    requires |g.frames| > 0
    ensures |s.game.frames| >= |g.frames| && s.game.frames[..|g.frames|] == g.frames
    ensures s.error == None ==> s.game.events == g.events + es
    ensures s.error.Some? ==> |g.events| < |s.game.events| <= |g.events| + |es|
                              && s.game.events == (g.events + es)[..|s.game.events|]
    ensures s.error.Some? ==> s.error == Some(InvalidFrameState(FrameNumberOutOfRange))
  {
    if es == [] then Step(g, None)
    else
      var s0 := SendAll(g, es[..|es| - 1]);
      assert (g.events + es)[..|g.events| + |es| - 1] == g.events + es[..|es| - 1];
      assert es[..|es| - 1] + [es[|es| - 1]] == es;
      if s0.error.Some? then s0
      else
        var s1 := AddGameEvent(s0.game, es[|es| - 1]);
        assert s1.game.frames[..|g.frames|] == s0.game.frames[..|g.frames|];
        s1
  }

  /**
   * Game.Roll, i.e. the Roll of the game state: EndGameState throws;
   * the other two states forward the pins to the current frame. The frame's
   * signals are then handled; an exception from the game's handler wins,
   * as it would have been thrown first.
   */
  function GameRoll(g: GameValue, pins: int): (s: Step)
    requires |g.frames| > 0 && Wf(Current(g))
  {
    if g.stage == EndGame then Step(g, Some(InvalidGameState))
    else
      var c := FrameModel.Roll(Current(g), pins);
      var g1 := g.(frames := g.frames[..|g.frames| - 1] + [c.frame]);
      var s := SendAll(g1, c.sent);
      Step(s.game, if s.error.Some? then s.error else c.error)
  }

  /**
   * The Game constructor: the StartOfGameState, the Started event (which
   * moves to GameInProgressState), then frame 1.
   */
  function Create(): (g: GameValue)
    ensures g == GameValue([New(1, false)], GameInProgress, [Started(1)])
  {
    var s := AddGameEvent(GameValue([], StartOfGame, []), Started(1));
    var first := FrameModel.Create(1);
    s.game.(frames := s.game.frames + [first.value])
  }
}
