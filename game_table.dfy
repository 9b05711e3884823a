/**
 * The closed form of every game the public API can reach. A game is
 * determined by its layout: the pins of each frame's rolls, in frame order.
 * GameFromLayout builds the frames (with FrameTable.Expected), the state and
 * the event log a layout stands for; the lemmas prove that Create and every
 * Roll stay inside this family, and state what a roll does to it.
 */
module GameTable {
  import opened Wrappers
  import opened Events
  import opened FrameModel
  import opened FrameTable
  import opened GameModel

  type Layout = seq<seq<int>>

  /** Frames 1 to 9 are finished before the next one exists; only frame 10 may end the game. */
  predicate ValidLayout(L: Layout)
  {
    && 1 <= |L| <= 10
    && (forall i :: 0 <= i < |L| ==> Playable(i == 9, L[i]))
    && (forall i :: 0 <= i < |L| - 1 ==> Finished(false, L[i]))
    && (|L| < 10 ==> !Finished(false, L[|L| - 1]))
  }

  /** The game is over once frame 10 is finished. */
  predicate Ended(L: Layout)
  {
    |L| == 10 && Finished(true, L[9])
  }

  function FramesOf(L: Layout): (fs: seq<FrameValue>)
    requires forall i :: 0 <= i < |L| ==> Playable(i == 9, L[i])
    ensures |fs| == |L|
    ensures forall i :: 0 <= i < |L| ==> fs[i] == Expected(i + 1, i == 9, L[i])
  {
    seq(|L|, i requires 0 <= i < |L| => Expected(i + 1, i == 9, L[i]))
  }

  /** AdvanceFrame(1, 2), ..., AdvanceFrame(k, k + 1). */
  function Advances(k: nat): (es: seq<GameEvent>)
    ensures |es| == k && forall i :: 0 <= i < k ==> es[i] == AdvanceFrame(i + 1, i + 2)
  {
    seq(k, i => AdvanceFrame(i + 1, i + 2))
  }

  /** The game log of a game with `count` frames. */
  function GameLog(count: nat, ended: bool): seq<GameEvent>
    requires count >= 1
  {
    [Started(1)] + Advances(count - 1) + (if ended then [EndOfGame(10)] else [])
  }

  function GameFromLayout(L: Layout): GameValue
    requires ValidLayout(L)
  {
    GameValue(FramesOf(L), if Ended(L) then EndGame else GameInProgress, GameLog(|L|, Ended(L)))
  }

  /** The layout of a game: each frame's rolls. */
  function LayoutOf(g: GameValue): (L: Layout)
    ensures |L| == |g.frames| && forall i :: 0 <= i < |L| ==> L[i] == g.frames[i].rolls
  {
    seq(|g.frames|, i requires 0 <= i < |g.frames| => g.frames[i].rolls)
  }

  /** The games Create and Roll reach. */
  predicate Reachable(g: GameValue)
  {
    ValidLayout(LayoutOf(g)) && g == GameFromLayout(LayoutOf(g))
  }

  /** The next roll is one the current frame accepts. */
  predicate LegalNext(L: Layout, p: int)
    requires ValidLayout(L) && !Ended(L)
  {
    Legal(|L| == 10, L[|L| - 1], p)
  }

  /** The layout after a legal roll: the roll joins the current frame, and a finished frame below 10 opens the next. */
  function NextLayout(L: Layout, p: int): Layout
    requires ValidLayout(L) && !Ended(L) && LegalNext(L, p)
  {
    var k := |L|;
    var L1 := L[..k - 1] + [L[k - 1] + [p]];
    if k < 10 && Finished(false, L[k - 1] + [p]) then L1 + [[]] else L1
  }

  /** A layout is recovered from the game it stands for. */
  lemma LayoutRoundTrip(L: Layout)
    requires ValidLayout(L)
    ensures LayoutOf(GameFromLayout(L)) == L
    ensures Reachable(GameFromLayout(L))
  {
    assert LayoutOf(GameFromLayout(L)) == L;
  }

  /** The constructor builds the one-frame layout [[]]: log [Started(1)], frame 1 current, not completed. */
  lemma CreateIsReachable()
    ensures ValidLayout([[]]) && GameModel.Create() == GameFromLayout([[]])
    ensures Reachable(GameModel.Create())
    ensures GameModel.Create().events == [Started(1)] && !IsGameCompleted(GameModel.Create())
    ensures |GameModel.Create().frames| == 1 && Current(GameModel.Create()).number == 1
  {
    var L: Layout := [[]];
    assert FramesOf(L) == [New(1, false)];
    assert GameLog(1, false) == [Started(1)];
    LayoutRoundTrip(L);
  }

  /** Replacing the current frame's entry. */
  lemma FramesOfUpdate(L: Layout, r: seq<int>)
    requires |L| >= 1 && forall i :: 0 <= i < |L| ==> Playable(i == 9, L[i])
    requires Playable(|L| == 10, r)
    ensures FramesOf(L)[..|L| - 1] + [Expected(|L|, |L| == 10, r)] == FramesOf(L[..|L| - 1] + [r])
  {
  }

  /** Appending a frame entry. */
  lemma FramesOfAppend(L: Layout, r: seq<int>)
    requires forall i :: 0 <= i < |L| ==> Playable(i == 9, L[i])
    requires Playable(|L| == 9, r)
    ensures FramesOf(L) + [Expected(|L| + 1, |L| == 9, r)] == FramesOf(L + [r])
  {
  }

  lemma GameLogAdvance(k: nat)
    requires k >= 1
    ensures GameLog(k, false) + [AdvanceFrame(k, k + 1)] == GameLog(k + 1, false)
  {
    assert Advances(k - 1) + [AdvanceFrame(k, k + 1)] == Advances(k);
  }

  /** The current frame of the game a layout stands for. */
  lemma CurrentOfLayout(L: Layout)
    requires ValidLayout(L) && !Ended(L)
    ensures NumberFits(|L|, |L| == 10) && !Finished(|L| == 10, L[|L| - 1])
    ensures Current(GameFromLayout(L)) == Expected(|L|, |L| == 10, L[|L| - 1])
  {
  }

  /** An illegal roll on an unfinished game. */
  lemma IllegalRoll(L: Layout, p: int)
    requires ValidLayout(L) && !Ended(L) && !LegalNext(L, p)
    ensures GameRoll(GameFromLayout(L), p) == Step(GameFromLayout(L), Some(Rejection(|L| == 10, L[|L| - 1], p)))
  {
    var g := GameFromLayout(L);
    var k := |L|;
    CurrentOfLayout(L);
    RollFollowsTable(k, k == 10, L[k - 1], p);
    var c := FrameModel.Roll(Current(g), p);
    assert c == Fail(Current(g), Rejection(k == 10, L[k - 1], p));
    assert g.frames[..k - 1] + [Current(g)] == g.frames;
    assert SendAll(g, []) == Step(g, None);
  }

  /**
   * A legal roll: the frame moves to its next table entry, then its signal
   * (if any) is handled by the game.
   */
  lemma LegalRoll(L: Layout, p: int)
    requires ValidLayout(L) && !Ended(L) && LegalNext(L, p)
    ensures ValidLayout(NextLayout(L, p))
    ensures GameRoll(GameFromLayout(L), p) == Step(GameFromLayout(NextLayout(L, p)), None)
  {
    var g := GameFromLayout(L);
    var k := |L|;
    var last := k == 10;
    var r1 := L[k - 1] + [p];
    var L1 := L[..k - 1] + [r1];
    CurrentOfLayout(L);
    RollFollowsTable(k, last, L[k - 1], p);
    var c := FrameModel.Roll(Current(g), p);
    var g1 := g.(frames := g.frames[..k - 1] + [c.frame]);
    assert c == Cascade(Expected(k, last, r1), Signals(k, last, r1), None);
    FramesOfUpdate(L, r1);
    assert g1.frames == FramesOf(L1);
    if !Finished(last, r1) {
      OpenStep(L, p, g1);
    } else if k < 10 {
      AdvanceStep(L, p, g1);
    } else {
      EndStep(L, p, g1);
    }
  }

  /** The roll leaves the frame unfinished: no signal, the game only records the new frame. */
  lemma OpenStep(L: Layout, p: int, g1: GameValue)
    requires ValidLayout(L) && !Ended(L) && LegalNext(L, p)
    requires Playable(|L| == 10, L[|L| - 1] + [p]) && !Finished(|L| == 10, L[|L| - 1] + [p])
    requires g1 == GameFromLayout(L).(frames := FramesOf(L[..|L| - 1] + [L[|L| - 1] + [p]]))
    ensures ValidLayout(NextLayout(L, p))
    ensures SendAll(g1, Signals(|L|, |L| == 10, L[|L| - 1] + [p])) == Step(GameFromLayout(NextLayout(L, p)), None)
  {
    var L1 := L[..|L| - 1] + [L[|L| - 1] + [p]];
    assert NextLayout(L, p) == L1;
    assert ValidLayout(L1);
  }

  /** The roll finishes frame k < 10: AdvanceFrame(k, k + 1) adds frame k + 1. */
  lemma AdvanceStep(L: Layout, p: int, g1: GameValue)
    requires ValidLayout(L) && !Ended(L) && LegalNext(L, p) && |L| < 10
    requires Playable(false, L[|L| - 1] + [p]) && Finished(false, L[|L| - 1] + [p])
    requires g1 == GameFromLayout(L).(frames := FramesOf(L[..|L| - 1] + [L[|L| - 1] + [p]]))
    ensures ValidLayout(NextLayout(L, p))
    ensures SendAll(g1, Signals(|L|, false, L[|L| - 1] + [p])) == Step(GameFromLayout(NextLayout(L, p)), None)
  {
    var k := |L|;
    var L1 := L[..k - 1] + [L[k - 1] + [p]];
    AdvanceLayout(L, p);
    var adv := AdvanceFrame(k, k + 1);
    assert Signals(k, false, L[k - 1] + [p]) == [adv];
    assert SendAll(g1, [adv]) == AddGameEvent(g1, adv) by {
      assert [adv][..0] == [];
    }
    assert g1 == GameValue(FramesOf(L1), GameInProgress, GameLog(k, false));
    AdvanceGame(L1);
  }

  /** The layout after a roll that finishes frame k < 10 opens an empty frame k + 1. */
  lemma AdvanceLayout(L: Layout, p: int)
    requires ValidLayout(L) && !Ended(L) && LegalNext(L, p) && |L| < 10
    requires Playable(false, L[|L| - 1] + [p]) && Finished(false, L[|L| - 1] + [p])
    ensures NextLayout(L, p) == L[..|L| - 1] + [L[|L| - 1] + [p]] + [[]]
    ensures ValidLayout(NextLayout(L, p))
  {
    var k := |L|;
    var L2 := L[..k - 1] + [L[k - 1] + [p]] + [[]];
    assert forall i :: 0 <= i < k - 1 ==> L2[i] == L[i];
  }

  /** AddGameEvent(AdvanceFrame(k, k + 1)) on the game of L1, whose k frames are all finished. */
  lemma AdvanceGame(L1: Layout)
    requires 1 <= |L1| < 10 && ValidLayout(L1 + [[]])
    ensures forall i :: 0 <= i < |L1| ==> Playable(i == 9, L1[i])
    ensures AddGameEvent(GameValue(FramesOf(L1), GameInProgress, GameLog(|L1|, false)), AdvanceFrame(|L1|, |L1| + 1))
      == Step(GameFromLayout(L1 + [[]]), None)
  {
    var k := |L1|;
    var L2 := L1 + [[]];
    assert forall i :: 0 <= i < k ==> L2[i] == L1[i];
    FramesOfAppend(L1, []);
    GameLogAdvance(k);
    var next := Expected(k + 1, k == 9, []);
    if k == 9 {
      assert CreateLast() == next;
    } else {
      assert FrameModel.Create(k + 1) == Success(next);
    }
  }

  /** The roll finishes frame 10: EndOfGame(10) ends the game. */
  lemma EndStep(L: Layout, p: int, g1: GameValue)
    requires ValidLayout(L) && !Ended(L) && LegalNext(L, p) && |L| == 10
    requires Playable(true, L[9] + [p]) && Finished(true, L[9] + [p])
    requires g1 == GameFromLayout(L).(frames := FramesOf(L[..9] + [L[9] + [p]]))
    ensures ValidLayout(NextLayout(L, p))
    ensures SendAll(g1, Signals(10, true, L[9] + [p])) == Step(GameFromLayout(NextLayout(L, p)), None)
  {
    var L1 := L[..9] + [L[9] + [p]];
    assert NextLayout(L, p) == L1;
    assert Ended(L1) && ValidLayout(L1);
    assert Signals(10, true, L[9] + [p]) == [EndOfGame(10)];
    assert SendAll(g1, [EndOfGame(10)]) == AddGameEvent(g1, EndOfGame(10)) by {
      assert [EndOfGame(10)][..0] == [];
    }
    assert GameLog(10, false) + [EndOfGame(10)] == GameLog(10, true);
    assert AddGameEvent(g1, EndOfGame(10)) == Step(GameFromLayout(L1), None);
  }

  /**
   * What Game.Roll does to a reachable game. After the end it raises
   * InvalidGameState and changes nothing; an illegal roll raises the
   * frame's Rejection and changes nothing; a legal roll moves to the game
   * of the next layout, with no exception.
   */
  lemma GameRollLayout(L: Layout, p: int)
    requires ValidLayout(L)
    ensures Ended(L) ==> GameRoll(GameFromLayout(L), p) == Step(GameFromLayout(L), Some(InvalidGameState))
    ensures !Ended(L) && LegalNext(L, p) ==> ValidLayout(NextLayout(L, p))
    ensures !Ended(L) && LegalNext(L, p) ==>
      GameRoll(GameFromLayout(L), p) == Step(GameFromLayout(NextLayout(L, p)), None)
    ensures !Ended(L) && !LegalNext(L, p) ==>
      GameRoll(GameFromLayout(L), p) == Step(GameFromLayout(L), Some(Rejection(|L| == 10, L[|L| - 1], p)))
  {
    if Ended(L) {
    } else if LegalNext(L, p) {
      LegalRoll(L, p);
    } else {
      IllegalRoll(L, p);
    }
  }
}
