/**
 * The closed form of every frame the game can reach: which roll sequences a
 * frame accepts, when it is finished, and the exact event log, stored state
 * and stored remaining pins after each legal sequence. The lemmas prove
 * that the cascade of FrameModel follows this table roll by roll.
 */
module FrameTable {
  import opened Wrappers
  import opened Events
  import opened FrameModel
  import Rolls

  /** Regular frames are numbered 1 to 9, the last frame is 10. */
  predicate NumberFits(n: int, last: bool)
  {
    if last then n == 10 else 1 <= n <= 9
  }

  /**
   * A regular frame ends after a strike or two rolls; the last frame ends
   * after two rolls that leave pins standing, or after three rolls.
   */
  predicate Finished(last: bool, r: seq<int>)
  {
    if last then |r| == 3 || (|r| == 2 && r[0] + r[1] < 10)
    else |r| == 2 || (|r| == 1 && r[0] == 10)
  }

  /**
   * The most pins the next roll of an unfinished frame may knock down. After
   * a strike in frame 10 it is 10 again; before the third roll of frame 10
   * it is always 10, even after (10, r2) with r2 < 10.
   */
  function Allowed(last: bool, r: seq<int>): int
    requires |r| <= 2
  {
    if r == [] then 10
    else if !last then 10 - r[0]
    else if |r| == 1 then (if r[0] == 10 then 10 else 10 - r[0])
    else 10
  }

  predicate Legal(last: bool, r: seq<int>, pins: int)
    requires |r| <= 2
  {
    0 <= pins <= Allowed(last, r)
  }

  /** The roll sequences a frame reaches through legal rolls. */
  predicate Playable(last: bool, r: seq<int>)
  {
    if last then
      && |r| <= 3
      && (|r| >= 1 ==> 0 <= r[0] <= 10)
      && (|r| >= 2 ==> 0 <= r[1] <= (if r[0] == 10 then 10 else 10 - r[0]))
      && (|r| == 3 ==> (r[0] == 10 || r[0] + r[1] == 10) && 0 <= r[2] <= 10)
    else
      && |r| <= 2
      && (|r| >= 1 ==> 0 <= r[0] <= 10)
      && (|r| == 2 ==> r[0] < 10 && 0 <= r[1] <= 10 - r[0])
  }

  /** The exception an illegal roll raises: the state's guard first, then Roll.Create's range check. */
  function Rejection(last: bool, r: seq<int>, pins: int): Error
    requires |r| <= 2
  {
    if r == [] then InvalidRollState(PinsOutOfRange)
    else if pins > Allowed(last, r) then
      InvalidFrameState(ExceedsRemainingPins(if last then None else Some(Allowed(last, r))))
    else InvalidRollState(PinsOutOfRange)
  }

  /** Sums of the short sequences a frame holds. */
  lemma SumSmall(r: seq<int>)
    requires |r| <= 3
    ensures |r| == 0 ==> Sum(r) == 0
    ensures |r| == 1 ==> Sum(r) == r[0]
    ensures |r| == 2 ==> Sum(r) == r[0] + r[1]
    ensures |r| == 3 ==> Sum(r) == r[0] + r[1] + r[2]
  {
    if |r| > 0 {
      assert Sum(r) == r[0] + Sum(r[1..]);
      if |r| > 1 {
        assert Sum(r[1..]) == r[1] + Sum(r[2..]);
        if |r| > 2 {
          assert Sum(r[2..]) == r[2] + Sum(r[3..]);
        }
      }
    }
  }

  /** The regular frame after the legal rolls r. */
  function ExpectedRegular(n: int, r: seq<int>): (v: FrameValue)
    requires Playable(false, r)
    ensures v.number == n && !v.last && v.rolls == r && Wf(v)
  {
    var start := [StartOfFirstRoll(n)];
    if |r| == 0 then
      FrameValue(n, false, r, start, StartOfFrame, 10)
    else if r[0] == 10 then
      FrameValue(n, false, r, start + [Rolled(n, 10), Strike(n), EndOfFrame(n, 10)], PlayedOneRollRegular, 10)
    else
      var first := start + [Rolled(n, r[0]), StartOfSecondRoll(n, r[0], 10 - r[0])];
      if |r| == 1 then
        FrameValue(n, false, r, first, PlayedOneRollRegular, 10)
      else
        var bonus := if r[0] + r[1] == 10 then [Spare(n)] else [];
        FrameValue(n, false, r, first + [Rolled(n, r[1])] + bonus + [EndOfFrame(n, r[0] + r[1])],
                   PlayedTwoRollsRegular, 10)
  }

  /** The last frame after the legal rolls r. */
  function ExpectedLast(r: seq<int>): (v: FrameValue)
    requires Playable(true, r)
    ensures v.number == 10 && v.last && v.rolls == r && Wf(v)
  {
    var start := [StartOfFirstRoll(10)];
    if |r| == 0 then
      FrameValue(10, true, r, start, StartOfFrame, 10)
    else
      var a := r[0];
      var first := start + [Rolled(10, a)] +
        (if a == 10 then [Strike(10), StartOfSecondRoll(10, 10, 10)]
         else [StartOfSecondRoll(10, a, 10 - a)]);
      if |r| == 1 then
        FrameValue(10, true, r, first, PlayedOneRollLast, if a == 10 then 10 else 10 - a)
      else
        var b := r[1];
        var second := first + [Rolled(10, b)] +
          (if a == 10 && b == 10 then [Strike(10), StartOfThirdRoll(10, 20, 10)]
           else if a != 10 && a + b == 10 then [Spare(10), StartOfThirdRoll(10, 10, 10)]
           else if a == 10 then [StartOfThirdRoll(10, a + b, 10)]
           else [EndOfFrame(10, a + b)]);
        if |r| == 2 then
          FrameValue(10, true, r, second, PlayedTwoRollsLast, if a + b < 10 then 10 - a else 10)
        else
          var c := r[2];
          FrameValue(10, true, r, second + [Rolled(10, c)] + (if c == 10 then [Strike(10)] else [])
                                  + [EndOfFrame(10, a + b + c)], PlayedThreeRollsLast, 10)
  }

  function Expected(n: int, last: bool, r: seq<int>): (v: FrameValue)
    requires Playable(last, r)
    ensures v.number == (if last then 10 else n) && v.last == last && v.rolls == r && Wf(v)
  {
    if last then ExpectedLast(r) else ExpectedRegular(n, r)
  }

  /** A legal roll keeps the sequence playable, and only a legal roll does. */
  lemma PlayableStep(last: bool, r: seq<int>, pins: int)
    requires Playable(last, r) && !Finished(last, r)
    ensures |r| <= 2
    ensures Playable(last, r + [pins]) <==> Legal(last, r, pins)
  {
    var s := r + [pins];
    assert s[..|r|] == r;
  }

  /** Logging a start-of-roll event: the last frame also stores its remaining pins. */
  lemma LogStart(v: FrameValue, from: FrameStage, e: FrameEvent)
    requires Wf(v) && MinRolls(from) <= |v.rolls|
    requires e.StartOfFirstRoll? || e.StartOfSecondRoll? || (v.last && e.StartOfThirdRoll?)
    ensures AddFrameEvent(v, from, e) ==
      Done(Log(if v.last && !e.StartOfFirstRoll? then v.(storedRemaining := e.pinsRemaining) else v, e))
  {
    if v.last {
      assert AddFrameEvent(v, from, e) == LastAddFrameEvent(v, from, e);
    } else {
      assert AddFrameEvent(v, from, e) == RegularAddFrameEvent(v, from, e);
    }
  }

  /** Logging EndOfFrame completes the frame, which signals the game. */
  lemma LogEnd(v: FrameValue, from: FrameStage, k: int)
    requires Wf(v) && MinRolls(from) <= |v.rolls|
    ensures AddFrameEvent(v, from, EndOfFrame(v.number, k)) ==
      Cascade(Log(v, EndOfFrame(v.number, k)).(state := Completed), [CompletionSignal(v.number)], None)
  {
    var e := EndOfFrame(v.number, k);
    var c := Cascade(Log(v, e).(state := Completed), [CompletionSignal(v.number)], None);
    if v.last {
      assert LastAddFrameEvent(v, from, e) == c by {
        CompleteLast(Log(v, e));
      }
    } else {
      assert RegularAddFrameEvent(v, from, e) == c by {
        CompleteRegular(Log(v, e));
      }
    }
  }

  lemma CompleteLast(v: FrameValue)
    requires Wf(v) && v.last
    ensures ChangeState(v, Completed) == Cascade(v.(state := Completed), [CompletionSignal(v.number)], None)
  {
    assert LastChangeState(v, Completed) == Cascade(v.(state := Completed), [CompletionSignal(v.number)], None);
  }

  lemma CompleteRegular(v: FrameValue)
    requires Wf(v) && !v.last
    ensures ChangeState(v, Completed) == Cascade(v.(state := Completed), [CompletionSignal(v.number)], None)
  {
    assert RegularChangeState(v, Completed) == Cascade(v.(state := Completed), [CompletionSignal(v.number)], None);
  }

  /** The first roll of a regular frame: a strike completes it at once. */
  lemma RegularFirstRoll(n: int, p: int)
    requires 1 <= n <= 9 && 0 <= p <= 10
    ensures Playable(false, [p])
    ensures Roll(ExpectedRegular(n, []), p) ==
      Cascade(ExpectedRegular(n, [p]), if p == 10 then [AdvanceFrame(n, n + 1)] else [], None)
  {
    var v := ExpectedRegular(n, []);
    var e := Rolled(n, p);
    var v1 := Log(v.(rolls := [p]), e);
    var goal := Cascade(ExpectedRegular(n, [p]), if p == 10 then [AdvanceFrame(n, n + 1)] else [], None);
    SumSmall([p]);
    assert Rolls.Create(true, p) == Success(Rolls.Roll(p));
    if p == 10 {
      assert IsStrike(v1);
      var v2 := Log(v1, Strike(n));
      LogEnd(v2, StartOfFrame, 10);
      var c := Cascade(Log(v2, EndOfFrame(n, 10)).(state := Completed), [AdvanceFrame(n, n + 1)], None);
      assert RegularAddFrameEvent(v1, PlayedOneRollRegular, Strike(n)) == c;
      assert ConstructState(v1, PlayedOneRollRegular) == c;
      assert ChangeState(c.frame, PlayedOneRollRegular) == Done(c.frame.(state := PlayedOneRollRegular));
      assert c.frame.(state := PlayedOneRollRegular) == goal.frame;
      assert v.rolls + [p] == [p];
      assert c.sent + [] == goal.sent;
      assert RecordRoll(v, e, p, PlayedOneRollRegular) == goal;
    } else {
      assert !IsStrike(v1);
      assert ConstructState(v1, PlayedOneRollRegular) == Done(v1);
      var v2 := v1.(state := PlayedOneRollRegular);
      LogStart(v2, PlayedOneRollRegular, StartOfSecondRoll(n, p, 10 - p));
      assert ChangeState(v1, PlayedOneRollRegular) == Done(Log(v2, StartOfSecondRoll(n, p, 10 - p)));
      assert Log(v2, StartOfSecondRoll(n, p, 10 - p)) == goal.frame;
      assert v.rolls + [p] == [p];
      assert [] + [] == goal.sent;
      assert RecordRoll(v, e, p, PlayedOneRollRegular) == goal;
    }
    assert RegularAddFrameEvent(v, StartOfFrame, e) == RecordRoll(v, e, p, PlayedOneRollRegular);
    assert Roll(v, p) == AddFrameEvent(v, StartOfFrame, e);
  }

  /** The second roll of a regular frame always completes it. */
  lemma RegularSecondRoll(n: int, a: int, p: int)
    requires 1 <= n <= 9 && 0 <= a < 10 && 0 <= p <= 10 - a
    ensures Playable(false, [a, p])
    ensures Roll(ExpectedRegular(n, [a]), p) ==
      Cascade(ExpectedRegular(n, [a, p]), [AdvanceFrame(n, n + 1)], None)
  {
    var v := ExpectedRegular(n, [a]);
    var e := Rolled(n, p);
    var v1 := Log(v.(rolls := [a, p]), e);
    var goal := Cascade(ExpectedRegular(n, [a, p]), [AdvanceFrame(n, n + 1)], None);
    SumSmall([a]);
    SumSmall([a, p]);
    assert Rolls.Create(true, p) == Success(Rolls.Roll(p));
    var c: Cascade;
    if a + p == 10 {
      assert IsSpare(v1);
      var v2 := Log(v1, Spare(n));
      LogEnd(v2, PlayedOneRollRegular, 10);
      c := Cascade(Log(v2, EndOfFrame(n, 10)).(state := Completed), [AdvanceFrame(n, n + 1)], None);
      assert RegularAddFrameEvent(v1, PlayedTwoRollsRegular, Spare(n)) == c;
    } else {
      assert !IsSpare(v1);
      LogEnd(v1, PlayedTwoRollsRegular, a + p);
      c := Cascade(Log(v1, EndOfFrame(n, a + p)).(state := Completed), [AdvanceFrame(n, n + 1)], None);
    }
    assert ConstructState(v1, PlayedTwoRollsRegular) == c;
    assert ChangeState(c.frame, PlayedTwoRollsRegular) == Done(c.frame.(state := PlayedTwoRollsRegular));
    assert c.frame.(state := PlayedTwoRollsRegular) == goal.frame;
    assert v.rolls + [p] == [a, p];
    assert c.sent + [] == goal.sent;
    assert RecordRoll(v, e, p, PlayedTwoRollsRegular) == goal;
    assert RegularAddFrameEvent(v, PlayedOneRollRegular, e) == RecordRoll(v, e, p, PlayedTwoRollsRegular);
    assert Roll(v, p) == AddFrameEvent(v, PlayedOneRollRegular, e);
  }

  /** The first roll of the last frame never completes it. */
  lemma LastFirstRoll(p: int)
    requires 0 <= p <= 10
    ensures Playable(true, [p])
    ensures Roll(ExpectedLast([]), p) == Done(ExpectedLast([p]))
  {
    var v := ExpectedLast([]);
    var e := Rolled(10, p);
    var v1 := Log(v.(rolls := [p]), e);
    var goal := Done(ExpectedLast([p]));
    assert Rolls.Create(true, p) == Success(Rolls.Roll(p));
    var c1: Cascade;
    if p == 10 {
      var v2 := Log(v1, Strike(10));
      LogStart(v2, StartOfFrame, StartOfSecondRoll(10, 10, 10));
      c1 := Done(Log(v2.(storedRemaining := 10), StartOfSecondRoll(10, 10, 10)));
      assert LastAddFrameEvent(v1, PlayedOneRollLast, Strike(10)) == c1;
      assert ConstructState(v1, PlayedOneRollLast) == c1;
      assert ChangeState(c1.frame, PlayedOneRollLast) == Done(c1.frame.(state := PlayedOneRollLast));
      assert c1.frame.(state := PlayedOneRollLast) == goal.frame;
    } else {
      c1 := Done(v1);
      assert ConstructState(v1, PlayedOneRollLast) == c1;
      var v2 := v1.(state := PlayedOneRollLast);
      LogStart(v2, PlayedOneRollLast, StartOfSecondRoll(10, p, 10 - p));
      assert ChangeState(v1, PlayedOneRollLast) == Done(Log(v2.(storedRemaining := 10 - p), StartOfSecondRoll(10, p, 10 - p)));
      assert Log(v2.(storedRemaining := 10 - p), StartOfSecondRoll(10, p, 10 - p)) == goal.frame;
    }
    assert v.rolls + [p] == [p];
    assert RecordRoll(v, e, p, PlayedOneRollLast) == goal;
    assert LastAddFrameEvent(v, StartOfFrame, e) == RecordRoll(v, e, p, PlayedOneRollLast);
    assert Roll(v, p) == AddFrameEvent(v, StartOfFrame, e);
  }

  /**
   * The second roll of the last frame: a strike, a spare, or a strike
   * followed by a count opens a third roll with 10 pins; an open pair ends
   * the frame and the game.
   */
  lemma LastSecondRoll(a: int, p: int)
    requires 0 <= a <= 10 && 0 <= p <= (if a == 10 then 10 else 10 - a)
    ensures Playable(true, [a, p])
    ensures Roll(ExpectedLast([a]), p) ==
      Cascade(ExpectedLast([a, p]), if a + p < 10 then [EndOfGame(10)] else [], None)
  {
    var v := ExpectedLast([a]);
    var e := Rolled(10, p);
    var goal := Cascade(ExpectedLast([a, p]), if a + p < 10 then [EndOfGame(10)] else [], None);
    SumSmall([a, p]);
    assert Rolls.Create(true, p) == Success(Rolls.Roll(p));
    var c1 := LastSecondState(a, p);
    assert ChangeState(c1.frame, PlayedTwoRollsLast) == Done(c1.frame.(state := PlayedTwoRollsLast));
    assert v.rolls + [p] == [a, p];
    assert c1.sent + [] == goal.sent;
    assert RecordRoll(v, e, p, PlayedTwoRollsLast) == goal;
    assert LastAddFrameEvent(v, PlayedOneRollLast, e) == RecordRoll(v, e, p, PlayedTwoRollsLast);
    assert Roll(v, p) == AddFrameEvent(v, PlayedOneRollLast, e);
  }

  /** The events PlayedTwoRollsLastState's constructor raises after the second roll of the last frame. */
  lemma LastSecondState(a: int, p: int) returns (c1: Cascade)
    requires 0 <= a <= 10 && 0 <= p <= (if a == 10 then 10 else 10 - a)
    ensures Wf(Log(ExpectedLast([a]).(rolls := [a, p]), Rolled(10, p)))
    ensures ConstructState(Log(ExpectedLast([a]).(rolls := [a, p]), Rolled(10, p)), PlayedTwoRollsLast) == c1
    ensures c1.error == None && c1.frame.(state := PlayedTwoRollsLast) == ExpectedLast([a, p])
    ensures c1.sent == if a + p < 10 then [EndOfGame(10)] else []
  {
    var v1 := Log(ExpectedLast([a]).(rolls := [a, p]), Rolled(10, p));
    SumSmall([a, p]);
    if a == 10 && p == 10 {
      var v2 := Log(v1, Strike(10));
      LogStart(v2, PlayedOneRollLast, StartOfThirdRoll(10, 20, 10));
      c1 := Done(Log(v2.(storedRemaining := 10), StartOfThirdRoll(10, 20, 10)));
      assert LastAddFrameEvent(v1, PlayedTwoRollsLast, Strike(10)) == c1;
    } else if a != 10 && a + p == 10 {
      var v2 := Log(v1, Spare(10));
      LogStart(v2, PlayedOneRollLast, StartOfThirdRoll(10, 10, 10));
      c1 := Done(Log(v2.(storedRemaining := 10), StartOfThirdRoll(10, 10, 10)));
      assert LastAddFrameEvent(v1, PlayedTwoRollsLast, Spare(10)) == c1;
    } else if a == 10 {
      LogStart(v1, PlayedTwoRollsLast, StartOfThirdRoll(10, 10 + p, 10));
      c1 := Done(Log(v1.(storedRemaining := 10), StartOfThirdRoll(10, 10 + p, 10)));
    } else {
      LogEnd(v1, PlayedTwoRollsLast, a + p);
      c1 := Cascade(Log(v1, EndOfFrame(10, a + p)).(state := Completed), [EndOfGame(10)], None);
    }
    assert ConstructState(v1, PlayedTwoRollsLast) == c1;
  }

  /** The third roll of the last frame always ends the frame and the game. */
  lemma LastThirdRoll(a: int, b: int, p: int)
    requires Playable(true, [a, b]) && a + b >= 10 && 0 <= p <= 10
    ensures Playable(true, [a, b, p])
    ensures Roll(ExpectedLast([a, b]), p) == Cascade(ExpectedLast([a, b, p]), [EndOfGame(10)], None)
  {
    var v := ExpectedLast([a, b]);
    var e := Rolled(10, p);
    var goal := Cascade(ExpectedLast([a, b, p]), [EndOfGame(10)], None);
    SumSmall([a, b, p]);
    assert Rolls.Create(true, p) == Success(Rolls.Roll(p));
    var c1 := LastThirdState(a, b, p);
    assert ChangeState(c1.frame, PlayedThreeRollsLast) == Done(c1.frame.(state := PlayedThreeRollsLast));
    assert v.rolls + [p] == [a, b, p];
    assert c1.sent + [] == goal.sent;
    assert RecordRoll(v, e, p, PlayedThreeRollsLast) == goal;
    assert LastAddFrameEvent(v, PlayedTwoRollsLast, e) == RecordRoll(v, e, p, PlayedThreeRollsLast);
    assert Roll(v, p) == AddFrameEvent(v, PlayedTwoRollsLast, e);
  }

  /** The events PlayedThreeRollsLastState's constructor raises after the third roll. */
  lemma LastThirdState(a: int, b: int, p: int) returns (c1: Cascade)
    requires Playable(true, [a, b]) && a + b >= 10 && 0 <= p <= 10
    ensures Wf(Log(ExpectedLast([a, b]).(rolls := [a, b, p]), Rolled(10, p)))
    ensures ConstructState(Log(ExpectedLast([a, b]).(rolls := [a, b, p]), Rolled(10, p)), PlayedThreeRollsLast) == c1
    ensures c1.error == None && c1.frame.(state := PlayedThreeRollsLast) == ExpectedLast([a, b, p])
    ensures c1.sent == [EndOfGame(10)]
  {
    var v1 := Log(ExpectedLast([a, b]).(rolls := [a, b, p]), Rolled(10, p));
    SumSmall([a, b, p]);
    if p == 10 {
      var v2 := Log(v1, Strike(10));
      LogEnd(v2, PlayedTwoRollsLast, a + b + p);
      c1 := Cascade(Log(v2, EndOfFrame(10, a + b + p)).(state := Completed), [EndOfGame(10)], None);
      assert LastAddFrameEvent(v1, PlayedThreeRollsLast, Strike(10)) == c1;
    } else {
      LogEnd(v1, PlayedThreeRollsLast, a + b + p);
      c1 := Cascade(Log(v1, EndOfFrame(10, a + b + p)).(state := Completed), [EndOfGame(10)], None);
    }
    assert ConstructState(v1, PlayedThreeRollsLast) == c1;
  }

  /**
   * An illegal roll changes nothing: the state's guard rejects too many
   * pins, and Roll.Create rejects a negative count (or any count out of
   * range on the first roll, which has no guard).
   */
  lemma Rejected(n: int, last: bool, r: seq<int>, p: int)
    requires NumberFits(n, last) && Playable(last, r) && !Finished(last, r)
    requires |r| <= 2 && !Legal(last, r, p)
    ensures Roll(Expected(n, last, r), p) == Fail(Expected(n, last, r), Rejection(last, r, p))
  {
    var v := Expected(n, last, r);
    var e := Rolled(v.number, p);
    assert p <= Allowed(last, r) ==> Rolls.Create(true, p) == Failure(InvalidRollState(PinsOutOfRange));
    if r == [] {
      assert Rolls.Create(true, p) == Failure(InvalidRollState(PinsOutOfRange));
      assert RecordRoll(v, e, p, if last then PlayedOneRollLast else PlayedOneRollRegular) == Fail(v, InvalidRollState(PinsOutOfRange));
      assert AddFrameEvent(v, StartOfFrame, e) == RecordRoll(v, e, p, if last then PlayedOneRollLast else PlayedOneRollRegular);
    } else if !last {
      SumSmall(r);
      assert RemainingPins(v) == Allowed(last, r);
      if p <= Allowed(last, r) {
        assert RecordRoll(v, e, p, PlayedTwoRollsRegular) == Fail(v, InvalidRollState(PinsOutOfRange));
        assert AddFrameEvent(v, PlayedOneRollRegular, e) == RecordRoll(v, e, p, PlayedTwoRollsRegular);
      }
    } else {
      var next := if |r| == 1 then PlayedTwoRollsLast else PlayedThreeRollsLast;
      assert RemainingPins(v) == Allowed(last, r);
      if p <= Allowed(last, r) {
        assert RecordRoll(v, e, p, next) == Fail(v, InvalidRollState(PinsOutOfRange));
        assert AddFrameEvent(v, v.state, e) == RecordRoll(v, e, p, next);
      }
      assert Roll(v, p) == LastStateRoll(v, p);
    }
  }

  /** The game events a frame sends on the roll that finishes it. */
  function Signals(n: int, last: bool, r: seq<int>): seq<GameEvent>
  {
    if Finished(last, r) then [CompletionSignal(if last then 10 else n)] else []
  }

  /**
   * Every roll on a reachable, unfinished frame follows the table: a legal
   * roll moves the frame to the entry for the longer roll sequence and
   * sends the completion signal exactly when that sequence is finished; an
   * illegal roll raises Rejection and leaves the frame unchanged.
   */
  lemma RollFollowsTable(n: int, last: bool, r: seq<int>, p: int)
    requires NumberFits(n, last) && Playable(last, r) && !Finished(last, r)
    ensures |r| <= 2
    ensures Legal(last, r, p) ==> Playable(last, r + [p])
    ensures Legal(last, r, p) ==>
      Roll(Expected(n, last, r), p) == Cascade(Expected(n, last, r + [p]), Signals(n, last, r + [p]), None)
    ensures !Legal(last, r, p) ==>
      Roll(Expected(n, last, r), p) == Fail(Expected(n, last, r), Rejection(last, r, p))
  {
    PlayableStep(last, r, p);
    if !Legal(last, r, p) {
      Rejected(n, last, r, p);
    } else if !last {
      if r == [] {
        RegularFirstRoll(n, p);
        assert r + [p] == [p];
      } else {
        RegularSecondRoll(n, r[0], p);
        assert r == [r[0]] && r + [p] == [r[0], p];
      }
    } else if r == [] {
      LastFirstRoll(p);
      assert r + [p] == [p];
    } else if |r| == 1 {
      LastSecondRoll(r[0], p);
      assert r == [r[0]] && r + [p] == [r[0], p];
    } else {
      LastThirdRoll(r[0], r[1], p);
      assert r == [r[0], r[1]] && r + [p] == [r[0], r[1], p];
    }
  }
}
