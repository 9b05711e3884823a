/** Failure-compatible wrappers used for the source's exceptions. */
module Wrappers {
  datatype Option<+T> = None | Some(value: T)

  datatype Result<+T, +E> = Success(value: T) | Failure(error: E)
}

/**
 * The notifications and the validation errors of the bowling domain
 * (FrameEvents.cs, GameEvents.cs, ValidationErrors.cs). They carry no
 * behaviour of their own.
 */
module Events {
  import opened Wrappers

  /** Frame-level events; every one carries the number of its frame. */
  datatype FrameEvent =
    | StartOfFirstRoll(frameNumber: int)
    | Rolled(frameNumber: int, pinsKnockedOver: int)
    | StartOfSecondRoll(frameNumber: int, pinsKnockedOver: int, pinsRemaining: int)
    | StartOfThirdRoll(frameNumber: int, pinsKnockedOver: int, pinsRemaining: int)
    | Strike(frameNumber: int)
    | Spare(frameNumber: int)
    | EndOfFrame(frameNumber: int, pinsKnockedOver: int)

  /** Game-level events. */
  datatype GameEvent =
    | Started(frameNumber: int)
    | AdvanceFrame(frameNumber: int, newFrameNumber: int)
    | EndOfGame(frameNumber: int)

  /** Why a roll could not be created. */
  datatype RollError = PinsOutOfRange | DetachedFromFrame

  /** Why a frame refused to be created or to take a roll. */
  datatype FrameError =
    | FrameNumberOutOfRange
      /** the regular frame's message states the remaining pins, the last frame's does not */
    | ExceedsRemainingPins(stated: Option<int>)
    | TooManyRolls
    | FrameCompleted

  /**
   * The exceptions the domain throws: the three validation exceptions and
   * the plain exceptions of the `default` branches of the event and state
   * switches.
   */
  datatype Error =
    | InvalidRollState(rollError: RollError)
    | InvalidFrameState(frameError: FrameError)
    | InvalidGameState
    | UnknownEvent
    | UnknownState
}

/** Roll.cs: one delivery's pin count, validated when it is created. */
module Rolls {
  import opened Wrappers
  import opened Events

  /** A roll is immutable: its pin count is fixed when it is created. */
  datatype Roll = Roll(pinsKnockedOver: int)

  /**
   * Roll.Create. `attached` says whether the owning frame reference is
   * present (the source only checks it against null). The pin range is
   * checked first, so an out-of-range count on a detached roll reports the
   * range error.
   */
  function Create(attached: bool, pinsKnockedOver: int): (r: Result<Roll, Error>)
    ensures r.Success? <==> attached && 0 <= pinsKnockedOver <= 10
    ensures r.Success? ==> r.value.pinsKnockedOver == pinsKnockedOver
    ensures (pinsKnockedOver < 0 || 10 < pinsKnockedOver) ==> r == Failure(InvalidRollState(PinsOutOfRange))
    ensures 0 <= pinsKnockedOver <= 10 && !attached ==> r == Failure(InvalidRollState(DetachedFromFrame))
  {
    if pinsKnockedOver < 0 || pinsKnockedOver > 10 then
      Failure(InvalidRollState(PinsOutOfRange))
    else if !attached then
      Failure(InvalidRollState(DetachedFromFrame))
    else
      Success(Roll(pinsKnockedOver))
  }
}
