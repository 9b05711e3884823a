/**
 * Frame.GetScore, LastFrame.GetScore and Game.GetScore, with the LINQ
 * operators they use (Skip, SelectMany, Take, Sum), and the usual ten-pin
 * scoring rule over the flat list of rolls as an independent reference.
 * The main theorem: on every reachable game, the sum of the frames' scores
 * is the reference score of all pins rolled so far.
 */
module Scoring {
  import opened FrameModel
  import opened FrameTable
  import opened GameModel
  import opened GameTable
  import opened GameProperties

  /** Enumerable.Skip: the suffix left after dropping the first n elements (none for n <= 0). */
  function Skip<T>(s: seq<T>, n: int): (r: seq<T>)
    ensures |r| == |s| - Clamp(n, |s|)
    ensures r == s[Clamp(n, |s|)..]
  {
    if n <= 0 then s else if n >= |s| then [] else s[n..]
  }

  /** Enumerable.Take: the prefix of at most n elements (none for n <= 0). */
  function Take<T>(s: seq<T>, n: int): (r: seq<T>)
    ensures |r| == Clamp(n, |s|)
    ensures r == s[..|r|]
  {
    if n <= 0 then [] else if n >= |s| then s else s[..n]
  }

  /** A count as LINQ reads it against a sequence of length len: into 0..len. */
  function Clamp(n: int, len: nat): (k: nat)
    ensures k <= len
    ensures 0 < n <= len ==> k == n
  {
    if n <= 0 then 0 else if n >= len then len else n
  }

  /** Take and Skip with the same count split a sequence in two, whatever the count. */
  lemma TakeSkip<T>(s: seq<T>, n: int)
    ensures Take(s, n) + Skip(s, n) == s
    ensures |Take(s, n)| + |Skip(s, n)| == |s|
  {
    assert s[..Clamp(n, |s|)] + s[Clamp(n, |s|)..] == s;
  }

  /** SelectMany(x => x.Rolls): the frames' rolls, concatenated in order. */
  function RollsOf(fs: seq<FrameValue>): seq<int>
  {
    if fs == [] then [] else fs[0].rolls + RollsOf(fs[1..])
  }

  /**
   * GetScore of frame f of the game whose frames are `frames`. A regular
   * strike or spare scores the first three pins of its own and all later
   * frames' rolls (found by skipping FrameNumber - 1 frames); every other
   * frame, and the last frame always, scores its own pins.
   */
  function FrameScore(frames: seq<FrameValue>, f: FrameValue): int
  {
    if f.last then KnockedOver(f)
    else if IsStrike(f) || IsSpare(f) then Sum(Take(RollsOf(Skip(frames, f.number - 1)), 3))
    else KnockedOver(f)
  }

  /** The scores of the frames fs, each scored within the game `frames`. */
  function ScoresOf(frames: seq<FrameValue>, fs: seq<FrameValue>): int
  {
    if fs == [] then 0 else FrameScore(frames, fs[0]) + ScoresOf(frames, fs[1..])
  }

  /** Game.GetScore: Frames.Sum(x => x.GetScore()). */
  function GameScore(frames: seq<FrameValue>): int
  {
    ScoresOf(frames, frames)
  }

  /**
   * The reference: the usual scoring rule walking the flat roll list with
   * `framesLeft` frames to score. A strike takes the next two rolls as
   * bonus, a spare the next one (as far as they have been rolled); the last
   * frame counts whatever is left.
   */
  function StandardScore(rs: seq<int>, framesLeft: nat): int
    decreases |rs|
  {
    if rs == [] || framesLeft == 0 then 0
    else if framesLeft == 1 then Sum(rs)
    else if rs[0] == 10 then Sum(Take(rs, 3)) + StandardScore(rs[1..], framesLeft - 1)
    else if |rs| >= 2 && rs[0] + rs[1] == 10 then Sum(Take(rs, 3)) + StandardScore(rs[2..], framesLeft - 1)
    else Sum(Take(rs, 2)) + StandardScore(Skip(rs, 2), framesLeft - 1)
  }

  /** The frames fs carry the numbers, kinds and rolls of the layout L. */
  predicate Shaped(fs: seq<FrameValue>, L: Layout)
  {
    && |fs| == |L|
    && forall i :: 0 <= i < |fs| ==> fs[i].number == i + 1 && fs[i].last == (i == 9) && fs[i].rolls == L[i]
  }

  /** The rolls of the frames from index j on are the layout's rolls from j on. */
  lemma {:induction false} RollsOfSuffix(fs: seq<FrameValue>, L: Layout, j: nat)
    requires Shaped(fs, L) && j <= |L|
    ensures RollsOf(fs[j..]) == Flatten(L[j..])
    decreases |L| - j
  {
    if j < |L| {
      RollsOfSuffix(fs, L, j + 1);
      assert fs[j..][1..] == fs[j + 1..];
      assert L[j..][1..] == L[j + 1..];
    }
  }

  /** A frame's score given its rolls r and the rolls `rest` of the frames after it. */
  function OwnScore(last: bool, r: seq<int>, rest: seq<int>): int
  {
    if last || !(r == [10] || (|r| == 2 && r[0] + r[1] == 10)) then Sum(r) else Sum(Take(r + rest, 3))
  }

  /** FrameScore of frame j of a layout's game, in terms of its rolls and the later ones. */
  lemma FrameScoreOf(fs: seq<FrameValue>, L: Layout, j: nat)
    requires ValidLayout(L) && Shaped(fs, L) && j < |L|
    ensures FrameScore(fs, fs[j]) == OwnScore(j == 9, L[j], Flatten(L[j + 1..]))
  {
    var r := L[j];
    var rest := Flatten(L[j + 1..]);
    BonusFrame(fs[j]);
    RollsOfSuffix(fs, L, j);
    FlattenStep(L, j);
    assert RollsOf(Skip(fs, fs[j].number - 1)) == r + rest by {
      assert Skip(fs, fs[j].number - 1) == fs[j..];
    }
  }

  /** A regular frame is a strike or a spare exactly when its rolls are [10] or sum to ten in two. */
  lemma BonusFrame(f: FrameValue)
    requires Playable(f.last, f.rolls)
    ensures !f.last ==> (IsStrike(f) || IsSpare(f) <==>
      f.rolls == [10] || (|f.rolls| == 2 && f.rolls[0] + f.rolls[1] == 10))
  {
    SumSmall(f.rolls);
  }

  /**
   * One frame's part of the reference walk: a frame with rolls r followed
   * by the later rolls `rest` scores what FrameScore gives it, and the walk
   * continues at `rest` with one frame fewer.
   */
  lemma FrameContribution(last: bool, r: seq<int>, rest: seq<int>, framesLeft: nat)
    requires Playable(last, r)
    requires last ==> framesLeft == 1 && rest == []
    requires !last ==> framesLeft >= 2 && (Finished(false, r) || rest == [])
    ensures OwnScore(last, r, rest) + StandardScore(rest, framesLeft - 1) == StandardScore(r + rest, framesLeft)
  {
    var rs := r + rest;
    SumSmall(r);
    if last {
      assert rs == r;
    } else if r == [] {
      assert rs == [];
    } else if r == [10] {
      assert rs[1..] == rest;
    } else if |r| == 1 {
      assert rest == [] && rs == r;
      assert Take(rs, 2) == r;
    } else {
      assert rs[..2] == r && rs[2..] == rest;
      if r[0] + r[1] != 10 {
        assert Take(rs, 2) == r && Skip(rs, 2) == rest;
      }
    }
  }

  /** The frames from index j on score what the reference gives their rolls. */
  lemma {:induction false} SuffixScore(fs: seq<FrameValue>, L: Layout, j: nat)
    requires ValidLayout(L) && Shaped(fs, L) && j <= |L|
    ensures ScoresOf(fs, fs[j..]) == StandardScore(Flatten(L[j..]), 10 - j)
    decreases |L| - j
  {
    if j < |L| {
      SuffixScore(fs, L, j + 1);
      SuffixStep(fs, L, j);
    } else {
      assert L[j..] == [] && fs[j..] == [];
    }
  }

  /** Frame j adds its own score on both sides. */
  lemma SuffixStep(fs: seq<FrameValue>, L: Layout, j: nat)
    requires ValidLayout(L) && Shaped(fs, L) && j < |L|
    requires ScoresOf(fs, fs[j + 1..]) == StandardScore(Flatten(L[j + 1..]), 10 - (j + 1))
    ensures ScoresOf(fs, fs[j..]) == StandardScore(Flatten(L[j..]), 10 - j)
  {
    var r := L[j];
    var rest := Flatten(L[j + 1..]);
    var left: nat := 10 - j;
    var own := OwnScore(j == 9, r, rest);
    assert ScoresOf(fs, fs[j..]) == own + ScoresOf(fs, fs[j + 1..]) by {
      ScoresOfStep(fs, fs, j);
      FrameScoreOf(fs, L, j);
    }
    assert own + StandardScore(rest, left - 1) == StandardScore(r + rest, left) by {
      ContributionApplies(L, j);
      FrameContribution(j == 9, r, rest, left);
    }
    assert Flatten(L[j..]) == r + rest by {
      FlattenStep(L, j);
    }
  }

  lemma ScoresOfStep(frames: seq<FrameValue>, fs: seq<FrameValue>, j: nat)
    requires j < |fs|
    ensures ScoresOf(frames, fs[j..]) == FrameScore(frames, fs[j]) + ScoresOf(frames, fs[j + 1..])
  {
    assert fs[j..][1..] == fs[j + 1..];
  }

  lemma FlattenStep(L: Layout, j: nat)
    requires j < |L|
    ensures Flatten(L[j..]) == L[j] + Flatten(L[j + 1..])
  {
    assert L[j..][1..] == L[j + 1..];
  }

  /** The conditions FrameContribution needs hold at every frame of a valid layout. */
  lemma ContributionApplies(L: Layout, j: nat)
    requires ValidLayout(L) && j < |L|
    ensures Playable(j == 9, L[j])
    ensures j == 9 ==> Flatten(L[j + 1..]) == []
    ensures j != 9 ==> 10 - j >= 2 && (Finished(false, L[j]) || Flatten(L[j + 1..]) == [])
  {
    if j == |L| - 1 {
      assert L[j + 1..] == [];
    }
  }

  /**
   * Game.GetScore of every reachable game is the usual ten-pin score of all
   * pins rolled so far, with bonuses counted as far as they have been
   * rolled.
   */
  lemma ScoreIsStandard(g: GameValue)
    requires Reachable(g)
    ensures GameScore(g.frames) == StandardScore(AllRolls(g), 10)
  {
    var L := LayoutOf(g);
    ReachableShape(g);
    assert Shaped(g.frames, L);
    SuffixScore(g.frames, L, 0);
    assert L[0..] == L;
    assert g.frames[0..] == g.frames;
  }
}
