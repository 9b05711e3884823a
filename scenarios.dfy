/**
 * Whole games played through the public API: Game.Create followed by a
 * sequence of Game.Roll calls, stopping at the first exception. The perfect
 * game (twelve strikes) and the game of twenty-one fives are followed roll by
 * roll through the layouts of GameTable, with their event logs and their
 * running and final scores.
 */
module Scenarios {
  import opened Wrappers
  import opened Events
  import opened FrameModel
  import opened FrameTable
  import opened GameModel
  import opened GameTable
  import opened GameProperties
  import opened Scoring

  /** Game.Create, then Game.Roll for each of ps in turn; the first exception ends the game's play. */
  function Play(ps: seq<int>): (s: Step)
    ensures Reachable(s.game)
    decreases |ps|
  {
    if ps == [] then
      CreateIsReachable();
      Step(GameModel.Create(), None)
    else
      var s0 := Play(ps[..|ps| - 1]);
      if s0.error.Some? then s0
      else
        RollStaysReachable(s0.game, ps[|ps| - 1]);
        GameRoll(s0.game, ps[|ps| - 1])
  }

  /** n rolls of v pins. */
  function Repeat(n: nat, v: int): (s: seq<int>)
    ensures |s| == n && forall i :: 0 <= i < n ==> s[i] == v
  {
    seq(n, _ => v)
  }

  /** q frames holding the rolls x each. */
  function Block(x: seq<int>, q: nat): (L: Layout)
    ensures |L| == q && forall i :: 0 <= i < q ==> L[i] == x
  {
    seq(q, _ => x)
  }

  lemma BlockGrow(x: seq<int>, q: nat)
    ensures Block(x, q) + [x] == Block(x, q + 1)
  {
  }

  /** Finished frames x, then a current frame r: a layout the game can be in. */
  lemma BlockValid(x: seq<int>, q: nat, r: seq<int>)
    requires q <= 9 && Playable(false, x) && Finished(false, x)
    requires Playable(q == 9, r) && (q < 9 ==> !Finished(false, r))
    ensures ValidLayout(Block(x, q) + [r])
  {
    var L := Block(x, q) + [r];
    forall i | 0 <= i < |L|
      ensures Playable(i == 9, L[i])
    {
      if i < q {
        assert L[i] == x;
      }
    }
  }

  /** A legal roll after the block joins the current frame, and opens a new one if that finishes a regular frame. */
  lemma BlockNext(x: seq<int>, q: nat, r: seq<int>, p: int)
    requires ValidLayout(Block(x, q) + [r]) && !Ended(Block(x, q) + [r]) && LegalNext(Block(x, q) + [r], p)
    ensures NextLayout(Block(x, q) + [r], p) ==
      Block(x, q) + [r + [p]] + (if q < 9 && Finished(false, r + [p]) then [[]] else [])
  {
    var L := Block(x, q) + [r];
    assert L[..q] == Block(x, q);
    assert L[q] == r;
  }

  /** The rolls of q frames of w rolls of v each. */
  lemma {:induction false} FlattenBlock(v: int, w: nat, q: nat)
    ensures Flatten(Block(Repeat(w, v), q)) == Repeat(q * w, v)
  {
    var B := Block(Repeat(w, v), q);
    if q > 0 {
      assert B[1..] == Block(Repeat(w, v), q - 1);
      FlattenBlock(v, w, q - 1);
      assert q * w == w + (q - 1) * w;
      assert Flatten(B) == Repeat(w, v) + Repeat((q - 1) * w, v);
    }
  }

  /** One legal roll of Play, on a game that a layout stands for. */
  lemma PlayStep(ps: seq<int>, L: Layout, p: int)
    requires ValidLayout(L) && !Ended(L) && LegalNext(L, p)
    requires Play(ps) == Step(GameFromLayout(L), None)
    ensures ValidLayout(NextLayout(L, p))
    ensures Play(ps + [p]) == Step(GameFromLayout(NextLayout(L, p)), None)
  {
    assert (ps + [p])[..|ps|] == ps;
    LegalRoll(L, p);
  }

  /** The game score of a layout's game is the reference score of its rolls. */
  lemma ScoreOfLayout(L: Layout)
    requires ValidLayout(L)
    ensures GameScore(GameFromLayout(L).frames) == StandardScore(Flatten(L), 10)
  {
    LayoutRoundTrip(L);
    ScoreIsStandard(GameFromLayout(L));
  }

  /** A game whose layout has ended: ten frames, completed, and the full log. */
  lemma EndedGame(L: Layout)
    requires ValidLayout(L) && Ended(L)
    ensures var g := GameFromLayout(L);
      && IsGameCompleted(g) && |g.frames| == 10
      && g.events == [Started(1)] + Advances(9) + [EndOfGame(10)]
  {
  }

  /** Once play has completed the game, one more roll is refused with InvalidGameState and changes nothing. */
  lemma PlayAfterEnd(ps: seq<int>, p: int)
    requires Play(ps).error == None && IsGameCompleted(Play(ps).game)
    ensures Play(ps + [p]) == Step(Play(ps).game, Some(InvalidGameState))
  {
    assert (ps + [p])[..|ps|] == ps;
    CompletedIsFinal(Play(ps).game, p);
  }

  lemma CreateLayout()
    ensures ValidLayout([[]]) && Play([]) == Step(GameFromLayout([[]]), None)
  {
    CreateIsReachable();
  }

  // ---------------------------------------------------------------- the perfect game

  /** After k strikes: one frame [10] per strike up to frame 9, then frame 10 holds the rest. */
  function PerfectLayout(k: nat): Layout
    requires k <= 12
  {
    var q := if k < 9 then k else 9;
    Block([10], q) + [Repeat(k - q, 10)]
  }

  lemma PerfectStep(k: nat)
    requires k < 12
    ensures ValidLayout(PerfectLayout(k)) && !Ended(PerfectLayout(k)) && LegalNext(PerfectLayout(k), 10)
    ensures NextLayout(PerfectLayout(k), 10) == PerfectLayout(k + 1)
  {
    var q := if k < 9 then k else 9;
    var r := Repeat(k - q, 10);
    assert r == [] || r == [10] || r == [10, 10];
    BlockValid([10], q, r);
    BlockNext([10], q, r, 10);
    if k < 9 {
      BlockGrow([10], q);
      assert r + [10] == [10] && Repeat(0, 10) == [];
    } else {
      assert r + [10] == Repeat(k + 1 - q, 10);
    }
  }

  lemma {:induction false} PerfectPlay(k: nat)
    requires k <= 12
    ensures ValidLayout(PerfectLayout(k))
    ensures Play(Repeat(k, 10)) == Step(GameFromLayout(PerfectLayout(k)), None)
  {
    if k == 0 {
      assert PerfectLayout(0) == [[]];
      CreateLayout();
    } else {
      PerfectPlay(k - 1);
      PerfectStep(k - 1);
      assert Repeat(k, 10) == Repeat(k - 1, 10) + [10];
      PlayStep(Repeat(k - 1, 10), PerfectLayout(k - 1), 10);
    }
  }

  /** A strike with frames still to come scores its first three rolls, and the walk goes on after it. */
  lemma StrikeHead(rs: seq<int>, m: nat)
    requires |rs| >= 1 && rs[0] == 10 && m >= 2
    ensures StandardScore(rs, m) == Sum(Take(rs, 3)) + StandardScore(rs[1..], m - 1)
  {
  }

  /** A spare with frames still to come, likewise, going on after its two rolls. */
  lemma SpareHead(rs: seq<int>, m: nat)
    requires |rs| >= 2 && rs[0] != 10 && rs[0] + rs[1] == 10 && m >= 2
    ensures StandardScore(rs, m) == Sum(Take(rs, 3)) + StandardScore(rs[2..], m - 1)
  {
  }

  lemma OneStrike(m: nat)
    requires m >= 1
    ensures StandardScore([10], m) == 10
  {
    SumSmall([10]);
    if m >= 2 {
      StrikeHead([10], m);
      assert Take([10], 3) == [10] && [10][1..] == [];
    }
  }

  /** The reference score of k strikes with m frames left, as long as they stay within those frames. */
  lemma {:induction false} StrikesScore(k: nat, m: nat)
    requires 2 <= k <= m
    ensures StandardScore(Repeat(k, 10), m) == 30 * k - 30
  {
    var rs := Repeat(k, 10);
    StrikeHead(rs, m);
    assert rs[1..] == Repeat(k - 1, 10);
    if k == 2 {
      assert Take(rs, 3) == [10, 10];
      SumSmall([10, 10]);
      assert Repeat(1, 10) == [10];
      OneStrike(m - 1);
    } else {
      assert Take(rs, 3) == [10, 10, 10];
      SumSmall([10, 10, 10]);
      StrikesScore(k - 1, m - 1);
    }
  }

  /** Two bonus strikes beyond the last of m frames give 30 per frame. */
  lemma {:induction false} StrikesFull(m: nat)
    requires m >= 1
    ensures StandardScore(Repeat(m + 2, 10), m) == 30 * m
  {
    var rs := Repeat(m + 2, 10);
    if m == 1 {
      assert rs == [10, 10, 10];
      SumSmall(rs);
    } else {
      StrikeHead(rs, m);
      assert Take(rs, 3) == [10, 10, 10];
      SumSmall([10, 10, 10]);
      assert rs[1..] == Repeat((m - 1) + 2, 10);
      StrikesFull(m - 1);
    }
  }

  /** The perfect game's frames and rolls once twelve strikes are in. */
  lemma PerfectEnd()
    ensures ValidLayout(PerfectLayout(12)) && Ended(PerfectLayout(12))
    ensures Flatten(PerfectLayout(12)) == Repeat(12, 10)
  {
    var L := PerfectLayout(12);
    assert L == Block([10], 9) + [Repeat(3, 10)];
    PerfectStep(11);
    FlattenAppend(Block([10], 9), Repeat(3, 10));
    assert Repeat(1, 10) == [10];
    FlattenBlock(10, 1, 9);
    assert Repeat(9, 10) + Repeat(3, 10) == Repeat(12, 10);
  }

  /**
   * Twelve strikes: no exception, the game is completed with ten frames, its
   * log is Started(1), AdvanceFrame(1, 2) ... AdvanceFrame(9, 10),
   * EndOfGame(10), its score is 300, and a thirteenth roll is refused with
   * InvalidGameState.
   */
  lemma PerfectGame()
    ensures var s := Play(Repeat(12, 10));
      && s.error == None && IsGameCompleted(s.game) && |s.game.frames| == 10
      && s.game.events == [Started(1)] + Advances(9) + [EndOfGame(10)]
      && GameScore(s.game.frames) == 300
    ensures Play(Repeat(13, 10)) == Step(Play(Repeat(12, 10)).game, Some(InvalidGameState))
  {
    var L := PerfectLayout(12);
    PerfectPlay(12);
    PerfectEnd();
    EndedGame(L);
    assert GameScore(GameFromLayout(L).frames) == 300 by {
      ScoreOfLayout(L);
      StrikesFull(10);
    }
    assert Repeat(13, 10) == Repeat(12, 10) + [10];
    PlayAfterEnd(Repeat(12, 10), 10);
  }

  /** The running score after k strikes, k <= 9: 10 after the first, then 30 more per strike. */
  lemma PerfectRunning(k: nat)
    requires 1 <= k <= 9
    ensures Play(Repeat(k, 10)).error == None
    ensures GameScore(Play(Repeat(k, 10)).game.frames) == if k == 1 then 10 else 30 * k - 30
  {
    PerfectPlay(k);
    var L := PerfectLayout(k);
    assert Flatten(L) == Repeat(k, 10) by {
      assert L == Block([10], k) + [[]];
      FlattenAppend(Block([10], k), []);
      assert Repeat(1, 10) == [10];
      FlattenBlock(10, 1, k);
    }
    assert GameScore(GameFromLayout(L).frames) == if k == 1 then 10 else 30 * k - 30 by {
      ScoreOfLayout(L);
      if k == 1 {
        assert Repeat(1, 10) == [10];
        OneStrike(10);
      } else {
        StrikesScore(k, 10);
      }
    }
  }

  // ---------------------------------------------------------------- all fives

  /** After n fives: a spare [5, 5] per finished frame up to frame 9, then the current frame's fives. */
  function FivesLayout(n: nat): Layout
    requires n <= 21
  {
    var q := if n / 2 < 9 then n / 2 else 9;
    Block([5, 5], q) + [Repeat(n - 2 * q, 5)]
  }

  lemma FivesStep(n: nat)
    requires n < 21
    ensures ValidLayout(FivesLayout(n)) && !Ended(FivesLayout(n)) && LegalNext(FivesLayout(n), 5)
    ensures NextLayout(FivesLayout(n), 5) == FivesLayout(n + 1)
  {
    var q := if n / 2 < 9 then n / 2 else 9;
    var r := Repeat(n - 2 * q, 5);
    assert r == [] || r == [5] || r == [5, 5];
    SumSmall([5, 5]);
    BlockValid([5, 5], q, r);
    BlockNext([5, 5], q, r, 5);
    if q == 9 {
      assert r + [5] == Repeat(n + 1 - 2 * q, 5);
    } else if n % 2 == 0 {
      assert r == [] && r + [5] == [5] == Repeat(1, 5);
    } else {
      assert r == [5] && r + [5] == [5, 5];
      BlockGrow([5, 5], q);
      assert Repeat(0, 5) == [];
    }
  }

  lemma {:induction false} FivesPlay(n: nat)
    requires n <= 21
    ensures ValidLayout(FivesLayout(n))
    ensures Play(Repeat(n, 5)) == Step(GameFromLayout(FivesLayout(n)), None)
  {
    if n == 0 {
      assert FivesLayout(0) == [[]];
      CreateLayout();
    } else {
      FivesPlay(n - 1);
      FivesStep(n - 1);
      assert Repeat(n, 5) == Repeat(n - 1, 5) + [5];
      PlayStep(Repeat(n - 1, 5), FivesLayout(n - 1), 5);
    }
  }

  /** k spares of fives within m frames: 15 for each but the last, whose bonus is not rolled yet. */
  lemma {:induction false} SparesScore(k: nat, m: nat)
    requires 1 <= k <= m
    ensures StandardScore(Repeat(2 * k, 5), m) == 15 * k - 5
  {
    var rs := Repeat(2 * k, 5);
    if k == 1 {
      assert rs == [5, 5];
      SumSmall(rs);
      assert Take(rs, 3) == rs && rs[2..] == [];
    } else {
      SpareHead(rs, m);
      assert rs[2..] == Repeat(2 * (k - 1), 5);
      assert Take(rs, 3) == [5, 5, 5];
      SumSmall([5, 5, 5]);
      SparesScore(k - 1, m - 1);
    }
  }

  /** m spares of fives and one bonus five within m frames: 15 per frame. */
  lemma {:induction false} SparesFull(m: nat)
    requires m >= 1
    ensures StandardScore(Repeat(2 * m + 1, 5), m) == 15 * m
  {
    var rs := Repeat(2 * m + 1, 5);
    if m == 1 {
      assert rs == [5, 5, 5];
      SumSmall(rs);
    } else {
      SpareHead(rs, m);
      assert rs[2..] == Repeat(2 * (m - 1) + 1, 5);
      assert Take(rs, 3) == [5, 5, 5];
      SumSmall([5, 5, 5]);
      SparesFull(m - 1);
    }
  }

  /** The rolls of the fives layout are the fives rolled. */
  lemma FivesRolls(n: nat)
    requires n <= 21
    ensures Flatten(FivesLayout(n)) == Repeat(n, 5)
  {
    var q := if n / 2 < 9 then n / 2 else 9;
    FlattenAppend(Block([5, 5], q), Repeat(n - 2 * q, 5));
    assert Repeat(2, 5) == [5, 5];
    FlattenBlock(5, 2, q);
    assert Repeat(q * 2, 5) + Repeat(n - 2 * q, 5) == Repeat(n, 5);
  }

  /** The running score after k pairs of fives: 10, 25, 40, ..., 145 after ten pairs. */
  lemma FivesRunning(k: nat)
    requires 1 <= k <= 10
    ensures Play(Repeat(2 * k, 5)).error == None
    ensures GameScore(Play(Repeat(2 * k, 5)).game.frames) == 15 * k - 5
  {
    FivesPlay(2 * k);
    assert GameScore(GameFromLayout(FivesLayout(2 * k)).frames) == 15 * k - 5 by {
      FivesRolls(2 * k);
      ScoreOfLayout(FivesLayout(2 * k));
      SparesScore(k, 10);
    }
  }

  /** The twenty-first five completes the game at 150. */
  lemma AllFives()
    ensures var s := Play(Repeat(21, 5));
      && s.error == None && IsGameCompleted(s.game) && |s.game.frames| == 10
      && s.game.events == [Started(1)] + Advances(9) + [EndOfGame(10)]
      && GameScore(s.game.frames) == 150
  {
    var L := FivesLayout(21);
    FivesPlay(21);
    assert Ended(L) by {
      assert L == Block([5, 5], 9) + [Repeat(3, 5)];
      assert L[9] == [5, 5, 5];
    }
    EndedGame(L);
    assert GameScore(GameFromLayout(L).frames) == 150 by {
      FivesRolls(21);
      ScoreOfLayout(L);
      SparesFull(10);
    }
  }
}
