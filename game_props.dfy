/**
 * What Game.cs promises about every game its public API can reach: the
 * shape of the frame list, the event log, the state moves, and what one
 * Roll changes. Each lemma is stated on GameModel's values and proved from
 * GameTable.
 */
module GameProperties {
  import opened Wrappers
  import opened Events
  import opened FrameModel
  import opened FrameTable
  import opened GameModel
  import opened GameTable

  /** All pins rolled in the game, frame by frame (SelectMany over the frames' rolls). */
  function Flatten(L: Layout): seq<int>
  {
    if L == [] then [] else L[0] + Flatten(L[1..])
  }

  lemma {:induction false} FlattenAppend(L: Layout, r: seq<int>)
    ensures Flatten(L + [r]) == Flatten(L) + r
  {
    if L == [] {
      assert [r][1..] == [];
    } else {
      assert (L + [r])[1..] == L[1..] + [r];
      FlattenAppend(L[1..], r);
    }
  }

  function AllRolls(g: GameValue): seq<int>
  {
    Flatten(LayoutOf(g))
  }

  /**
   * A reachable game has one to ten frames numbered 1, 2, ... in order, of
   * which only the tenth is the LastFrame; it is never in StartOfGameState;
   * it is completed exactly when frame 10 is finished, and its log is
   * Started(1), one AdvanceFrame per frame added, and EndOfGame(10) once
   * completed.
   */
  lemma ReachableShape(g: GameValue)
    requires Reachable(g)
    ensures 1 <= |g.frames| <= 10
    ensures forall i :: 0 <= i < |g.frames| ==> g.frames[i].number == i + 1 && (g.frames[i].last <==> i == 9)
    ensures forall i :: 0 <= i < |g.frames| - 1 ==> Finished(false, g.frames[i].rolls)
    ensures Wf(Current(g))
    ensures g.stage != StartOfGame
    ensures IsGameCompleted(g) <==> |g.frames| == 10 && Finished(true, Current(g).rolls)
    ensures g.events == GameLog(|g.frames|, IsGameCompleted(g))
  {
    var L := LayoutOf(g);
    forall i | 0 <= i < |g.frames|
      ensures g.frames[i].number == i + 1 && (g.frames[i].last <==> i == 9)
    {
      assert g.frames[i] == Expected(i + 1, i == 9, L[i]);
    }
  }

  /** One Game.Roll on a reachable game leaves a reachable game. */
  lemma RollStaysReachable(g: GameValue, p: int)
    requires Reachable(g)
    ensures |g.frames| > 0 && Wf(Current(g))
    ensures Reachable(GameRoll(g, p).game)
  {
    var L := LayoutOf(g);
    LayoutRoundTrip(L);
    GameRollLayout(L, p);
    if !Ended(L) && LegalNext(L, p) {
      LayoutRoundTrip(NextLayout(L, p));
    }
  }

  /**
   * Game.Roll fails exactly when the game is completed (InvalidGameState)
   * or the current frame refuses the pins, and a failed roll changes
   * nothing.
   */
  lemma RollFailsOnlyWhen(g: GameValue, p: int)
    requires Reachable(g)
    ensures |g.frames| > 0 && Wf(Current(g))
    ensures GameRoll(g, p).error == Some(InvalidGameState) <==> IsGameCompleted(g)
    ensures GameRoll(g, p).error.Some? ==> GameRoll(g, p).game == g
    ensures GameRoll(g, p).error.None? <==>
      !IsGameCompleted(g) && Legal(|g.frames| == 10, Current(g).rolls, p)
  {
    var L := LayoutOf(g);
    LayoutRoundTrip(L);
    GameRollLayout(L, p);
    if !Ended(L) {
      CurrentOfLayout(L);
      if !LegalNext(L, p) {
        assert Rejection(|L| == 10, L[|L| - 1], p) != InvalidGameState;
      }
    }
  }

  /** An accepted roll appends its pins to the game's rolls, and nothing else. */
  lemma RollAppendsPins(g: GameValue, p: int)
    requires Reachable(g)
    ensures |g.frames| > 0 && Wf(Current(g))
    ensures GameRoll(g, p).error.None? ==> AllRolls(GameRoll(g, p).game) == AllRolls(g) + [p]
  {
    var L := LayoutOf(g);
    LayoutRoundTrip(L);
    GameRollLayout(L, p);
    if !Ended(L) && LegalNext(L, p) {
      LayoutRoundTrip(NextLayout(L, p));
      NextLayoutRolls(L, p);
    }
  }

  /** The next layout holds the rolls of the old one followed by the new pins. */
  lemma NextLayoutRolls(L: Layout, p: int)
    requires ValidLayout(L) && !Ended(L) && LegalNext(L, p)
    ensures Flatten(NextLayout(L, p)) == Flatten(L) + [p]
  {
    var k := |L|;
    var L1 := L[..k - 1] + [L[k - 1] + [p]];
    var L2 := NextLayout(L, p);
    assert L == L[..k - 1] + [L[k - 1]];
    FlattenAppend(L[..k - 1], L[k - 1]);
    FlattenAppend(L[..k - 1], L[k - 1] + [p]);
    if L2 != L1 {
      FlattenAppend(L1, []);
      assert L1 + [[]] == L2;
    }
  }

  /**
   * The game's state only moves from GameInProgressState to EndGameState,
   * its log only grows (by at most one event), the frames before the
   * current one are untouched, and at most one frame is added.
   */
  lemma RollMonotone(g: GameValue, p: int)
    requires Reachable(g)
    ensures |g.frames| > 0 && Wf(Current(g))
    ensures var h := GameRoll(g, p).game;
      h.stage == g.stage || (g.stage == GameInProgress && h.stage == EndGame)
    ensures var h := GameRoll(g, p).game;
      |g.events| <= |h.events| <= |g.events| + 1 && h.events[..|g.events|] == g.events
    ensures var h := GameRoll(g, p).game;
      |g.frames| <= |h.frames| <= |g.frames| + 1 && h.frames[..|g.frames| - 1] == g.frames[..|g.frames| - 1]
  {
    var L := LayoutOf(g);
    LayoutRoundTrip(L);
    GameRollLayout(L, p);
    if !Ended(L) && LegalNext(L, p) {
      LayoutMonotone(L, p);
    }
  }

  /** RollMonotone on the games of a layout and of the next one. */
  lemma LayoutMonotone(L: Layout, p: int)
    requires ValidLayout(L) && !Ended(L) && LegalNext(L, p)
    ensures ValidLayout(NextLayout(L, p))
    ensures var g, h := GameFromLayout(L), GameFromLayout(NextLayout(L, p));
      && (h.stage == g.stage || (g.stage == GameInProgress && h.stage == EndGame))
      && |g.events| <= |h.events| <= |g.events| + 1 && h.events[..|g.events|] == g.events
      && |g.frames| <= |h.frames| <= |g.frames| + 1 && h.frames[..|g.frames| - 1] == g.frames[..|g.frames| - 1]
  {
    var k := |L|;
    var L2 := NextLayout(L, p);
    LegalRoll(L, p);
    var g := GameFromLayout(L);
    var h := GameFromLayout(L2);
    assert h.frames[..k - 1] == g.frames[..k - 1] by {
      forall i | 0 <= i < k - 1
        ensures h.frames[i] == g.frames[i]
      {
        assert L2[i] == L[i];
      }
    }
    if |L2| == k + 1 {
      GameLogAdvance(k);
    } else if Ended(L2) {
      assert GameLog(10, false) + [EndOfGame(10)] == GameLog(10, true);
    }
  }

  /**
   * When a roll adds a frame, the new frame is current, PreviousFrame is
   * the frame that was current (now holding the new roll and finished),
   * and the new frame is numbered one higher, starting empty.
   */
  lemma AdvanceMakesPrevious(g: GameValue, p: int)
    requires Reachable(g)
    ensures |g.frames| > 0 && Wf(Current(g))
    ensures var h := GameRoll(g, p).game;
      |h.frames| == |g.frames| + 1 ==>
        && Previous(h) == Some(h.frames[|g.frames| - 1])
        && h.frames[|g.frames| - 1].number == Current(g).number
        && h.frames[|g.frames| - 1].rolls == Current(g).rolls + [p]
        && Finished(false, Current(g).rolls + [p])
        && Current(h).number == Current(g).number + 1 && Current(h).rolls == []
        && h.events == g.events + [AdvanceFrame(Current(g).number, Current(g).number + 1)]
  {
    var L := LayoutOf(g);
    LayoutRoundTrip(L);
    GameRollLayout(L, p);
    var h := GameRoll(g, p).game;
    if |h.frames| == |g.frames| + 1 {
      var k := |L|;
      assert !Ended(L) && LegalNext(L, p);
      var L2 := NextLayout(L, p);
      assert h == GameFromLayout(L2);
      assert |L2| == k + 1;
      GameLogAdvance(k);
    }
  }

  /** Once completed, a game stays exactly as it is, whatever is rolled. */
  lemma CompletedIsFinal(g: GameValue, p: int)
    requires Reachable(g) && IsGameCompleted(g)
    ensures |g.frames| > 0 && Wf(Current(g))
    ensures GameRoll(g, p) == Step(g, Some(InvalidGameState))
    ensures |g.frames| == 10 && Current(g).number == 10
  {
    var L := LayoutOf(g);
    LayoutRoundTrip(L);
    GameRollLayout(L, p);
  }

  /** A roll on the current frame of an unfinished game sends at most one game event. */
  lemma CurrentFrameSignals(g: GameValue, p: int)
    requires Reachable(g) && !IsGameCompleted(g)
    ensures |g.frames| > 0 && Wf(Current(g))
    ensures |FrameModel.Roll(Current(g), p).sent| <= 1
  {
    var L := LayoutOf(g);
    LayoutRoundTrip(L);
    CurrentOfLayout(L);
    RollFollowsTable(|L|, |L| == 10, L[|L| - 1], p);
  }
}
