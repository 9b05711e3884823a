# BowlingGame domain in Dafny

This project models the domain library of BowlingGame, a ten-pin bowling scorekeeper. The library is built from two nested state machines:

- A **frame** (`Frame`, or `LastFrame` for frame 10) takes rolls. It moves through `StartOfFrameState`, `PlayedOneRoll…`, `PlayedTwoRolls…` (and `PlayedThreeRollsLastFrameState`) and `CompletedFrameState`. It logs frame events as it goes. When it completes, it signals the game with `AdvanceFrame` or `EndOfGame`.
- A **game** (`Game`) forwards each roll to its current frame. On `AdvanceFrame` it appends the next frame. On `EndOfGame` it moves to `EndGameState`, where further rolls are refused. It logs its own game events.

Scores follow `Frame.GetScore`. A strike or a spare in frames 1–9 scores the first three pins rolled from that frame on. Every other frame, and frame 10 always, scores its own pins. `Game.GetScore` sums these.

Layout:

| file | module | what it holds |
|---|---|---|
| `events.dfy` | `Wrappers`, `Events`, `Rolls` | `Option`/`Result`. The frame and game events and the exceptions, as datatypes. `Roll.Create`. |
| `frame_model.dfy` | `FrameModel` | A frame as a value, with one function per C# method of the event cascade (`AddFrameEvent`, `ChangeState`, the state constructors, the states' `Roll`). |
| `frame.dfy` | `Frames` | `class Frame`: the same cascade as methods that update the fields in place, each proved equal to its `FrameModel` function. |
| `frame_table.dfy` | `FrameTable` | A closed-form table of the frame after every legal roll sequence. Proves that the cascade follows it. |
| `frame_props.dfy` | `FrameProperties` | Event logs by case, guard order, frame 10 scenarios, and where frame 10's stored remaining pins come from. |
| `game_model.dfy` | `GameModel` | A game as a value: `Create`, `AddGameEvent`, `Roll`. |
| `game_table.dfy` | `GameTable` | The reachable games, described by their frames' rolls (a *layout*). Proves that `Create` and every `Roll` stay inside that family. |
| `game_props.dfy` | `GameProperties` | What every reachable game satisfies, and what one roll changes. |
| `scoring.dfy` | `Scoring` | `GetScore`, and its proof equal to the usual ten-pin scoring of all pins rolled. |
| `game.dfy` | `Games` | `class Game`: frames, state and log updated in place. Each method is proved to do what `GameModel` computes and to keep the game reachable. |
| `scenarios.dfy` | `Scenarios` | Whole games played through `Create` and `Roll`: the perfect game and twenty-one fives. |

How the C# control flow is rendered:

- **Exceptions become returned errors.** An `Error` value (`InvalidRollState`, `InvalidFrameState`, `InvalidGameState`, `UnknownEvent`, `UnknownState`) stops the cascade.
  - Effects already made before the throw are kept, as in C#.
  - The reason inside an `InvalidRollState`/`InvalidFrameState` stands in for the message text. Only the remaining-pins count of the regular frame's message is data.
- **`Roll.Create` receives whether the roll is attached to a frame.** The frame reference is only null-checked.
- **A frame's game signal (`AdvanceFrame`, `EndOfGame`) is returned** in the cascade's `sent` list. The game handles it once the frame's cascade has unwound.
  - In C# it is handled synchronously inside the cascade. That order cannot be observed, because the game's handling never touches the frame that signalled.
  - The resulting logs, frames and states are the same.
- **The state object a frame keeps is assigned after its constructor has run.** The constructor's own cascade may already have reached `CompletedFrameState`, but that is then overwritten. So a finished regular frame keeps `PlayedOneRollRegular` (after a strike) or `PlayedTwoRollsRegular`. A finished frame 10 keeps `PlayedTwoRollsLast` or `PlayedThreeRollsLast`.

Points where the code's behaviour is easy to misread:

- **Remaining pins for the third roll.** After a strike and then `r2 < 10` in frame 10, `StartOfThirdRoll` reports `10` remaining pins and frame 10 stores `10`, where the usual ten-pin rule would leave `10 - r2`. So the code accepts any third roll from 0 to 10 there (`FrameProperties.LastStrikeThenOpen`).
- **Stored state of a finished frame.** A finished frame keeps the state stored after its constructor (see above), never `Completed`. So a third roll on a finished regular frame reports "Cannot roll more than 2 times" (`FrameProperties.TwoRollsAreFinal`), not "frame has completed".
- **Order of the game's start-up and advance.** The game logs `Started(1)` before creating frame 1. On `AdvanceFrame` it logs the event before appending the new frame.

## Model

| member | source | states |
|---|---|---|
| Rolls.Create | BowlingGame.Domain/Roll.cs:15-22 | A roll is created exactly when it is attached to a frame and has 0 to 10 pins, and it keeps its pins. Out-of-range pins give InvalidRollState(PinsOutOfRange), checked before attachment. A detached roll in range gives DetachedFromFrame. |
| FrameModel.New | BowlingGame.Domain/Frame/Frame.cs:18-24 | A new frame has no rolls, 10 pins standing, the event log [StartOfFirstRoll(n)] and the state StartOfFrame. |
| FrameModel.Create | BowlingGame.Domain/Frame/Frame.cs:38-43 | Frame.Create succeeds exactly for numbers 1 to 9. Otherwise it fails with InvalidFrameState(FrameNumberOutOfRange). The frame it makes is regular, numbered n and empty. |
| FrameModel.CreateLast | BowlingGame.Domain/Frame/LastFrame.cs:26-29 | LastFrame.Create needs no number check. It gives frame 10 as a last frame with no rolls, log [StartOfFirstRoll(10)], state StartOfFrame and 10 remaining pins. |
| FrameModel.Roll | BowlingGame.Domain/Frame/Frame.cs:72-76 | The state's Roll keeps the frame's number and kind and keeps it well formed. The rolls only grow. |
| FrameModel.LastStateRoll | BowlingGame.Domain/Frame/FrameStates.cs:117-126 | The shared Roll of the three last-frame states keeps the frame's number and kind and keeps it well formed. |
| FrameModel.AddFrameEvent | BowlingGame.Domain/Frame/Frame.cs:78-131 | Dispatch to the regular or last frame's AddFrameEvent keeps the frame's number and kind. The rolls only grow. |
| FrameModel.RegularAddFrameEvent | BowlingGame.Domain/Frame/Frame.cs:78-131 | Every case of the regular AddFrameEvent keeps the frame's number and kind and keeps it well formed. The rolls only grow. |
| FrameModel.LastAddFrameEvent | BowlingGame.Domain/Frame/LastFrame.cs:31-123 | Every case of LastFrame.AddFrameEvent keeps the frame's number and kind and keeps it well formed. The rolls only grow. |
| FrameModel.RecordRoll | BowlingGame.Domain/Frame/Frame.cs:92-98 | The Rolled case keeps the frame's number and kind and keeps it well formed. The rolls only grow. |
| FrameModel.ConstructState | BowlingGame.Domain/Frame/FrameStates.cs:35-78 | The events a state constructor raises keep the frame's number and kind and keep it well formed. |
| FrameModel.ChangeState | BowlingGame.Domain/Frame/Frame.cs:133-167 | ChangeState, dispatched by frame kind, keeps the frame's identity and well-formedness. |
| FrameModel.RegularChangeState | BowlingGame.Domain/Frame/Frame.cs:133-167 | The regular ChangeState keeps the frame's number and kind and keeps it well formed. |
| FrameModel.LastChangeState | BowlingGame.Domain/Frame/LastFrame.cs:125-158 | LastFrame.ChangeState keeps the frame's number and kind and keeps it well formed. |
| Frames.Frame.constructor | BowlingGame.Domain/Frame/Frame.cs:18-24 | The object's fields equal FrameModel.New after the StartOfFrameState constructor has logged StartOfFirstRoll. |
| Frames.Frame.Create | BowlingGame.Domain/Frame/Frame.cs:38-43 | Succeeds exactly when FrameModel.Create does, with a fresh object holding its value, or with the same error. |
| Frames.Frame.CreateLast | BowlingGame.Domain/Frame/LastFrame.cs:26-29 | A fresh object holding FrameModel.CreateLast. |
| Frames.Frame.Roll | BowlingGame.Domain/Frame/Frame.cs:72-76 | The new fields, the signals sent and the error are exactly FrameModel.Roll of the old fields. |
| Frames.Frame.LastStateRoll | BowlingGame.Domain/Frame/FrameStates.cs:166-175 | The new fields, signals and error are FrameModel.LastStateRoll of the old fields. |
| Frames.Frame.AddFrameEvent | BowlingGame.Domain/Frame/Frame.cs:78-131 | The new fields, signals and error are FrameModel.AddFrameEvent of the old fields. |
| Frames.Frame.RegularAddFrameEvent | BowlingGame.Domain/Frame/Frame.cs:78-131 | The new fields, signals and error are FrameModel.RegularAddFrameEvent of the old fields. |
| Frames.Frame.LastAddFrameEvent | BowlingGame.Domain/Frame/LastFrame.cs:31-123 | The new fields, signals and error are FrameModel.LastAddFrameEvent of the old fields. |
| Frames.Frame.RecordRoll | BowlingGame.Domain/Frame/Frame.cs:92-98 | The new fields, signals and error are FrameModel.RecordRoll of the old fields. |
| Frames.Frame.AddRoll | BowlingGame.Domain/Frame/Frame.cs:169-172 | Appends the roll's pins. Events, state and stored remaining pins are unchanged. |
| Frames.Frame.ConstructState | BowlingGame.Domain/Frame/FrameStates.cs:35-78 | The new fields, signals and error are FrameModel.ConstructState of the old fields. |
| Frames.Frame.ChangeState | BowlingGame.Domain/Frame/Frame.cs:133-167 | The new fields, signals and error are FrameModel.ChangeState of the old fields. |
| Frames.Frame.RegularChangeState | BowlingGame.Domain/Frame/Frame.cs:133-167 | The new fields, signals and error are FrameModel.RegularChangeState of the old fields. |
| Frames.Frame.LastChangeState | BowlingGame.Domain/Frame/LastFrame.cs:125-158 | The new fields, signals and error are FrameModel.LastChangeState of the old fields. |
| FrameTable.LogStart | BowlingGame.Domain/Frame/LastFrame.cs:40-50 | Logging StartOfFirstRoll/StartOfSecondRoll/StartOfThirdRoll appends the event. In frame 10, StartOfSecondRoll and StartOfThirdRoll also store the payload's remaining pins. |
| FrameTable.LogEnd | BowlingGame.Domain/Frame/Frame.cs:122-126 | Logging EndOfFrame appends it, moves through Completed and sends the completion signal for the frame's number. |
| FrameTable.CompleteRegular | BowlingGame.Domain/Frame/Frame.cs:151-160 | Completing a regular frame sends exactly one signal: AdvanceFrame(n, n+1) below 10. |
| FrameTable.CompleteLast | BowlingGame.Domain/Frame/LastFrame.cs:144-153 | Completing frame 10 sends exactly EndOfGame(10). |
| FrameTable.RegularFirstRoll | BowlingGame.Domain/Frame/FrameStates.cs:22-44 | A first roll p on a new regular frame gives the table's frame for [p]. Only a strike (p = 10) sends AdvanceFrame. |
| FrameTable.RegularSecondRoll | BowlingGame.Domain/Frame/FrameStates.cs:46-78 | A legal second roll gives the table's frame for [a, p] (Spare when a+p = 10, then EndOfFrame) and always sends AdvanceFrame. |
| FrameTable.LastFirstRoll | BowlingGame.Domain/Frame/LastFrame.cs:52-66 | A first roll in frame 10 gives the table's frame for [p] (Strike and StartOfSecondRoll(10,10,10) on a strike) and sends nothing. |
| FrameTable.LastSecondRoll | BowlingGame.Domain/Frame/FrameStates.cs:134-164 | A legal second roll in frame 10 gives the table's frame for [a, p]. It sends EndOfGame exactly when a+p < 10. |
| FrameTable.LastThirdRoll | BowlingGame.Domain/Frame/FrameStates.cs:183-198 | A third roll of 0 to 10 after a strike or spare in frame 10 gives the table's frame for [a, b, p] and sends EndOfGame(10). |
| FrameTable.Rejected | BowlingGame.Domain/Frame/FrameStates.cs:46-50 | An illegal roll on an unfinished frame fails with Rejection and leaves the frame unchanged. The guard comes before Roll.Create. |
| FrameTable.RollFollowsTable | BowlingGame.Domain/Frame/Frame.cs:72-76 | On every reachable, unfinished frame, a legal roll moves to the table's entry for the longer sequence and signals exactly when that sequence is finished. An illegal one raises Rejection and changes nothing. |
| FrameProperties.StrikeFrame | BowlingGame.Domain/Frame/Frame.cs:100-105 | A strike on a new regular frame logs StartOfFirstRoll, Rolled(10), Strike, EndOfFrame(10) and sends AdvanceFrame(n, n+1). The frame is a strike and keeps PlayedOneRollRegular. |
| FrameProperties.TwoRollFrame | BowlingGame.Domain/Frame/FrameStates.cs:46-78 | Two rolls on a regular frame. The first leaves 10-a remaining and sends nothing. The second lowers the remaining pins by its count, logs Spare exactly when a+b = 10, then EndOfFrame(a+b), and sends AdvanceFrame. |
| FrameProperties.TwoRollsAreFinal | BowlingGame.Domain/Frame/FrameStates.cs:80-83 | A regular frame with two rolls refuses any roll with InvalidFrameState(TooManyRolls). |
| FrameProperties.GuardOrder | BowlingGame.Domain/Frame/FrameStates.cs:46-54 | A first roll outside 0..10 gives InvalidRollState. On the second roll, too many pins give InvalidFrameState with the remaining count, even when also above 10, and negative pins give InvalidRollState. |
| FrameProperties.LastAfter | BowlingGame.Domain/Frame/LastFrame.cs:26-29 | Rolling a sequence on a fresh frame 10 keeps it frame 10, last and well formed. |
| FrameProperties.LastAfterTable | BowlingGame.Domain/Frame/LastFrame.cs:31-123 | Legal rolls from a fresh frame 10 give the table's frame and its signals. |
| FrameProperties.LastAllStrikes | BowlingGame.Domain/Frame/LastFrame.cs:60-81 | 10, 10, 10 in frame 10 gives ten events, with StartOfThirdRoll(10, 20, 10) and ending EndOfFrame(10, 30). EndOfGame(10) is sent by the third roll only. |
| FrameProperties.LastStrikeThenOpen | BowlingGame.Domain/Frame/FrameStates.cs:149-156 | After 10 and b < 10, StartOfThirdRoll(10, 10+b, 10) is logged and 10 pins are allowed. Every third roll 0..10 is accepted. 10, 0, 0 gives eight events ending EndOfFrame(10, 10). |
| FrameProperties.LastOpenFrame | BowlingGame.Domain/Frame/FrameStates.cs:158-162 | Two rolls with a+b < 10 end frame 10 after exactly five events, ending EndOfFrame(10, a+b), with EndOfGame(10). |
| FrameProperties.LastFrameSignals | BowlingGame.Domain/Frame/LastFrame.cs:144-153 | Frame 10 only ever sends EndOfGame(10), on the roll that finishes it. |
| FrameProperties.StoredRemainingFromPayload | BowlingGame.Domain/Frame/LastFrame.cs:40-50 | Frame 10's stored remaining pins always equal the payload of its latest StartOfSecondRoll/StartOfThirdRoll event (10 before any), and are what NumOfRemainingPins reports. |
| GameModel.Create | BowlingGame.Domain/Game/Game.cs:21-31 | A new game has one frame, a new frame 1, state GameInProgress and the log [Started(1)]. |
| GameModel.AddGameEvent | BowlingGame.Domain/Game/Game.cs:66-99 | Handling a game event appends it to the log, keeps the existing frames and adds at most one. Started moves the state to GameInProgress and EndOfGame to EndGame, both without error or new frame. AdvanceFrame keeps the state and is handled by AddNextFrame on the logged game. |
| GameModel.AddNextFrame | BowlingGame.Domain/Game/Game.cs:76-88 | AdvanceFrame leaves log and state alone. An advance to 10 appends CreateLast(). Any other advance appends Frame.Create(current number + 1) when that succeeds, and otherwise appends nothing and returns Create's error. |
| GameModel.SendAll | BowlingGame.Domain/Game/Game.cs:66-99 | Handling the frame's signals in order keeps the existing frames as a prefix. Without error, every signal is logged in order. An error stops at the signal that raised it: the log holds the signals up to and including that one, and the error is InvalidFrameState(FrameNumberOutOfRange). |
| GameTable.CreateIsReachable | BowlingGame.Domain/Game/Game.cs:21-31 | Game.Create is the game of layout [[]]: log [Started(1)], frame 1 current, not completed. |
| GameTable.CurrentOfLayout | BowlingGame.Domain/Game/Game.cs:35 | The current frame of an unfinished reachable game is the table's frame for its rolls, unfinished. |
| GameTable.IllegalRoll | BowlingGame.Domain/Game/GameStates.cs:36-39 | A roll the current frame refuses leaves the game as it was and reports the frame's Rejection. |
| GameTable.LegalRoll | BowlingGame.Domain/Game/GameStates.cs:36-39 | A legal roll gives exactly the game of the next layout: the roll joins the current frame, and a finished frame below 10 opens the next. |
| GameTable.AdvanceStep | BowlingGame.Domain/Game/Game.cs:83-88 | A roll finishing frame k < 10 logs AdvanceFrame(k, k+1) and appends frame k+1 (the last frame when k+1 = 10). |
| GameTable.EndStep | BowlingGame.Domain/Game/Game.cs:90-94 | A roll finishing frame 10 logs EndOfGame(10) and moves the game to EndGame. |
| GameTable.GameRollLayout | BowlingGame.Domain/Game/Game.cs:55-59 | Game.Roll on a reachable game is InvalidGameState once ended, else the legal or illegal step above. |
| GameProperties.ReachableShape | BowlingGame.Domain/Game/Game.cs:76-88 | Every reachable game has 1 to 10 frames numbered 1, 2, … in order. Only the tenth is a last frame, and all before the current one are finished. It is completed exactly when frame 10 is finished. Its log is Started(1), one AdvanceFrame per added frame, and EndOfGame(10) once completed. |
| GameProperties.RollStaysReachable | BowlingGame.Domain/Game/Game.cs:55-59 | Game.Roll keeps a reachable game reachable. |
| GameProperties.RollFailsOnlyWhen | BowlingGame.Domain/Game/GameStates.cs:53-56 | Roll fails with InvalidGameState exactly when the game is completed. It fails at all exactly when completed or the current frame refuses the pins. A failed roll changes nothing. |
| GameProperties.RollAppendsPins | BowlingGame.Domain/Game/Game.cs:55-59 | An accepted roll appends its pins to all the rolls of the game, and nothing else. |
| GameProperties.RollMonotone | BowlingGame.Domain/Game/Game.cs:66-99 | The state only moves GameInProgress to EndGame. The log grows by at most one event. The frames before the current one are unchanged, and at most one frame is added. |
| GameProperties.AdvanceMakesPrevious | BowlingGame.Domain/Game/Game.cs:34-35 | When a roll adds a frame, PreviousFrame is the frame that was current, now finished with the new roll. The new frame is numbered one higher and empty. The log gains AdvanceFrame. |
| GameProperties.CompletedIsFinal | BowlingGame.Domain/Game/GameStates.cs:53-56 | A completed game refuses every roll with InvalidGameState and stays as it is. Its current frame is frame 10. |
| GameProperties.CurrentFrameSignals | BowlingGame.Domain/Frame/Frame.cs:151-160 | A roll on the current frame of an unfinished game sends at most one game event. |
| Scoring.Skip | BowlingGame.Domain/Frame/Frame.cs:49-54 | Enumerable.Skip: the result is the suffix of the input whose length is the input length minus the count clamped into 0..length. |
| Scoring.Take | BowlingGame.Domain/Frame/Frame.cs:49-54 | Enumerable.Take: the result is the prefix of the input whose length is the count clamped into 0..length. |
| Scoring.TakeSkip | BowlingGame.Domain/Frame/Frame.cs:49-54 | For every count, Take followed by Skip with that count gives back the whole sequence, and their lengths add up to its length. |
| Scoring.BonusFrame | BowlingGame.Domain/Frame/Frame.cs:29-30 | A regular frame is a strike or a spare exactly when its rolls are [10], or two rolls summing to 10. |
| Scoring.FrameScoreOf | BowlingGame.Domain/Frame/Frame.cs:45-70 | Frame j's GetScore in a game is the first three pins from frame j on for a regular strike or spare. Otherwise, and always for frame 10, it is its own pins. |
| Scoring.FrameContribution | BowlingGame.Domain/Frame/Frame.cs:45-70 | One frame's GetScore equals its part of the usual ten-pin score of the rolls from that frame on. |
| Scoring.SuffixScore | BowlingGame.Domain/Game/Game.cs:61-64 | The frames from j on score what the usual ten-pin scoring gives their rolls with 10 - j frames left. |
| Scoring.ScoreIsStandard | BowlingGame.Domain/Game/Game.cs:61-64 | Game.GetScore of every reachable game is the usual ten-pin score of all pins rolled so far, with bonuses counted as far as they have been rolled. |
| Games.Game.constructor | BowlingGame.Domain/Game/Game.cs:21-31 | The new game object holds GameModel.Create and is reachable. Its current frame is a fresh object. |
| Games.Game.GetScore | BowlingGame.Domain/Game/Game.cs:61-64 | The sum of the frame objects' scores is the usual ten-pin score of all rolled pins. |
| Games.Game.LogEvent | BowlingGame.Domain/Game/Game.cs:71 | Appends the event to the log. Frames and state are unchanged. |
| Games.Game.ChangeState | BowlingGame.Domain/Game/Game.cs:45-48 | Sets the state. Frames and log are unchanged. |
| Games.Game.AddFrame | BowlingGame.Domain/Game/Game.cs:50-53 | Appends the frame object, which keeps the frame objects distinct. |
| Games.Game.AddGameEvent | BowlingGame.Domain/Game/Game.cs:66-99 | The new frames, state, log and error are GameModel.AddGameEvent of the old ones. Existing frame objects stay in place. |
| Games.Game.AddNextFrame | BowlingGame.Domain/Game/Game.cs:76-88 | The new frames and error are GameModel.AddNextFrame of the old ones. Existing frame objects stay in place. |
| Games.Game.RollCurrentFrame | BowlingGame.Domain/Game/GameStates.cs:36-39 | Only the current frame object changes, to what FrameModel.Roll gives. The other frames are untouched. |
| Games.Game.ForwardRoll | BowlingGame.Domain/Game/GameStates.cs:19-22 | Forwarding to the current frame and handling its signal gives exactly GameModel.Roll, adding at most one frame. |
| Games.Game.Roll | BowlingGame.Domain/Game/Game.cs:55-59 | The new game is GameModel.Roll of the old one and stays reachable. Existing frame objects stay in place. After an advance, PreviousFrame is the old current frame object. |
| Scenarios.Play | BowlingGame.Domain/Game/Game.cs:55-59 | Create followed by any sequence of Rolls, stopping at the first exception, always gives a reachable game. |
| Scenarios.PlayAfterEnd | BowlingGame.Domain/Game/GameStates.cs:53-56 | Once play has completed the game, one more roll is refused with InvalidGameState and changes nothing. |
| Scenarios.PerfectGame | BowlingGame.Tests/GameTests.cs:62-100 | Twelve strikes: no exception, completed with ten frames, log Started(1), AdvanceFrame(1,2)…AdvanceFrame(9,10), EndOfGame(10), score 300. A thirteenth roll gives InvalidGameState. |
| Scenarios.PerfectRunning | BowlingGame.Tests/GameTests.cs:62-100 | The running score after k ≤ 9 strikes is 10, then 30, 60, 90, 120, … (30k - 30). |
| Scenarios.FivesRunning | BowlingGame.Tests/GameTests.cs:197-240 | The running score after k pairs of fives is 10, 25, 40, 55, 70, … (15k - 5), 145 after ten pairs. |
| Scenarios.AllFives | BowlingGame.Tests/GameTests.cs:300-324 | Twenty-one fives complete the game with ten frames, the full log and score 150. |

## Left out

- The console program, `GameBuilder`, and the observer callbacks (`RespondToFrameEvents`, `RespondToGameEvents`). The callbacks call code outside the library. The events they would receive are exactly the logged ones.
- The game's `Guid`, and the defensive copies that `Frames` and `Rolls` return.
- Exception message texts. A reason value replaces each one. The regular frame's remaining-pins count is kept.
- The synchronous nesting of the game's signal handling inside the frame's cascade. The game handles the signal after the frame's cascade ends (see above). For rolls made through `Game.Roll` no observable field differs. A roll sent directly to a frame the game has already passed is the exception: when that frame sends `AdvanceFrame` while the current frame is 9 or 10, `Frame.Create` throws, and in C# that exception unwinds the frame's cascade before its state is stored. The model finishes the frame's cascade first, so that frame's stored state is overwritten.
- `Game.PreviousFrame` is `Option`. The C# indexer throws with a single frame.
- `Game.CurrentFrame` is the frame added last. The C# property is assigned to exactly that frame on every addition.
- `LastFrame.IsStrike` and `LastFrame.IsSpare` throw in C#. The model's `IsStrike`/`IsSpare` require a regular frame, and `GetScore` of frame 10 never consults them.
- Rolls sent directly to a frame the game has already moved past. Such a frame still accepts a roll in its stored state (a strike frame takes a second roll of 0). The public game API never does this. The frame functions model it, but no property is stated about it.
- The `default` branches that throw `Exception("Unknown Event")` and `Exception("Unknown State")` become the errors `UnknownEvent` and `UnknownState`. No property is stated about them. No frame reached through the game takes them.
- FrameModel.Roll: its own contract states only what every roll keeps (identity, well-formedness, rolls only grow). What each roll does is stated by `FrameTable.RollFollowsTable` and the lemmas of `FrameProperties`.
- FrameModel.LastStateRoll: same as `FrameModel.Roll`. Its effect on reachable frames is stated by `FrameTable.LastSecondRoll`, `FrameTable.LastThirdRoll` and `FrameTable.Rejected`.
- FrameModel.AddFrameEvent: its contract states only what every step of the cascade keeps. The events each case logs are stated by `FrameTable.LogStart`, `FrameTable.LogEnd` and the roll lemmas of `FrameTable`.
- FrameModel.RegularAddFrameEvent: as for `FrameModel.AddFrameEvent`.
- FrameModel.LastAddFrameEvent: as for `FrameModel.AddFrameEvent`.
- FrameModel.RecordRoll: as for `FrameModel.AddFrameEvent`. The range check before any change is stated by `FrameTable.Rejected`.
- FrameModel.ConstructState: as for `FrameModel.AddFrameEvent`. The events each state constructor logs are stated by the roll lemmas of `FrameTable`.
- FrameModel.ChangeState: as for `FrameModel.AddFrameEvent`. The completion signal is stated by `FrameTable.CompleteRegular` and `FrameTable.CompleteLast`.
- FrameModel.RegularChangeState: as for `FrameModel.ChangeState`.
- FrameModel.LastChangeState: as for `FrameModel.ChangeState`.
