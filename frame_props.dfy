/**
 * What Frame.cs, FrameStates.cs and LastFrame.cs promise about a single
 * frame, stated on FrameModel's values from the moment the frame is
 * created: the event log of each kind of frame, the state the frame keeps
 * once it is finished, the order of the guards, and where the last frame's
 * stored remaining pins come from.
 */
module FrameProperties {
  import opened Wrappers
  import opened Events
  import opened FrameModel
  import opened FrameTable

  /**
   * A strike in a regular frame: four events, the AdvanceFrame signal, and
   * the frame keeps PlayedOneRollRegular (the constructor's cascade reached
   * Completed before the outer ChangeState stored its own state).
   */
  lemma StrikeFrame(n: int)
    requires 1 <= n <= 9
    ensures var c := Roll(New(n, false), 10);
      && c.error == None && c.sent == [AdvanceFrame(n, n + 1)]
      && c.frame.rolls == [10] && IsStrike(c.frame) && !IsSpare(c.frame)
      && c.frame.events == [StartOfFirstRoll(n), Rolled(n, 10), Strike(n), EndOfFrame(n, 10)]
      && c.frame.state == PlayedOneRollRegular
  {
    assert New(n, false) == ExpectedRegular(n, []);
    RollFollowsTable(n, false, [], 10);
    SumSmall([10]);
  }

  /**
   * Two rolls a, b in a regular frame: the events of an open frame or of a
   * spare, the remaining pins after each roll, the AdvanceFrame signal after
   * the second roll only, and the stored PlayedTwoRollsRegular.
   */
  lemma TwoRollFrame(n: int, a: int, b: int)
    requires 1 <= n <= 9 && 0 <= a < 10 && 0 <= b <= 10 - a
    ensures var c1 := Roll(New(n, false), a);
      && c1.error == None && c1.sent == [] && RemainingPins(c1.frame) == 10 - a
      && c1.frame.events == [StartOfFirstRoll(n), Rolled(n, a), StartOfSecondRoll(n, a, 10 - a)]
    ensures var c2 := Roll(Roll(New(n, false), a).frame, b);
      && c2.error == None && c2.sent == [AdvanceFrame(n, n + 1)]
      && RemainingPins(c2.frame) == RemainingPins(Roll(New(n, false), a).frame) - b
      && (IsSpare(c2.frame) <==> a + b == 10) && !IsStrike(c2.frame)
      && c2.frame.events == [StartOfFirstRoll(n), Rolled(n, a), StartOfSecondRoll(n, a, 10 - a), Rolled(n, b)]
                            + (if a + b == 10 then [Spare(n)] else []) + [EndOfFrame(n, a + b)]
      && c2.frame.state == PlayedTwoRollsRegular
  {
    assert New(n, false) == ExpectedRegular(n, []);
    RegularFirstRoll(n, a);
    RegularSecondRoll(n, a, b);
    SumSmall([a]);
    SumSmall([a, b]);
  }

  /** A regular frame that has had two rolls refuses every further roll with TooManyRolls. */
  lemma TwoRollsAreFinal(n: int, r: seq<int>, p: int)
    requires 1 <= n <= 9 && Playable(false, r) && |r| == 2
    ensures Roll(ExpectedRegular(n, r), p) == Fail(ExpectedRegular(n, r), InvalidFrameState(TooManyRolls))
  {
  }

  /**
   * The second roll's guard runs before Roll.Create: too many pins report
   * InvalidFrameState with the remaining count, a negative count reports
   * InvalidRollState; neither adds a roll or an event. The first roll has
   * no guard, so only the range check applies.
   */
  lemma GuardOrder(n: int, a: int, p: int)
    requires 1 <= n <= 9 && 0 <= a < 10
    ensures (p < 0 || p > 10) ==> Roll(New(n, false), p) == Fail(New(n, false), InvalidRollState(PinsOutOfRange))
    ensures var f := Roll(New(n, false), a).frame;
      p > 10 - a ==> Roll(f, p) == Fail(f, InvalidFrameState(ExceedsRemainingPins(Some(10 - a))))
    ensures var f := Roll(New(n, false), a).frame;
      p < 0 ==> Roll(f, p) == Fail(f, InvalidRollState(PinsOutOfRange))
  {
    assert New(n, false) == ExpectedRegular(n, []);
    RollFollowsTable(n, false, [], p);
    RollFollowsTable(n, false, [], a);
    assert [] + [a] == [a];
    RollFollowsTable(n, false, [a], p);
  }

  /** The frame after rolling ps, one after the other, on a fresh last frame, errors included. */
  function LastAfter(ps: seq<int>): (c: Cascade)
    ensures Kept(CreateLast(), c.frame)
    decreases |ps|
  {
    if ps == [] then Done(CreateLast())
    else Roll(LastAfter(ps[..|ps| - 1]).frame, ps[|ps| - 1])
  }

  /** Legal rolls from CreateLast follow the table for frame 10. */
  lemma {:induction false} LastAfterTable(ps: seq<int>)
    requires Playable(true, ps)
    ensures LastAfter(ps) == Cascade(ExpectedLast(ps), Signals(10, true, ps), None)
    decreases |ps|
  {
    if ps == [] {
      assert CreateLast() == ExpectedLast([]);
    } else {
      var r := ps[..|ps| - 1];
      var p := ps[|ps| - 1];
      assert ps == r + [p];
      assert Playable(true, r) && !Finished(true, r);
      LastAfterTable(r);
      RollFollowsTable(10, true, r, p);
    }
  }

  /**
   * Three strikes in frame 10: ten events, StartOfThirdRoll with 10
   * remaining, End(30), and EndOfGame(10) sent only by the third roll.
   */
  lemma LastAllStrikes()
    ensures LastAfter([10]).sent == [] && LastAfter([10, 10]).sent == []
    ensures var c := LastAfter([10, 10, 10]);
      && c.error == None && c.sent == [EndOfGame(10)]
      && |c.frame.events| == 10 && c.frame.events[9] == EndOfFrame(10, 30)
      && c.frame.events[6] == StartOfThirdRoll(10, 20, 10)
  {
    LastAfterTable([10]);
    LastAfterTable([10, 10]);
    LastAfterTable([10, 10, 10]);
    assert [10, 10, 10][..2] == [10, 10];
  }

  /**
   * A strike and then b < 10 in frame 10: StartOfThirdRoll reports the
   * stored 10 as remaining, not 10 - b, so any third roll of 0..10 is
   * accepted; 10, 0, 0 gives eight events ending End(10).
   */
  lemma LastStrikeThenOpen(b: int, p: int)
    requires 0 <= b < 10
    ensures var f := LastAfter([10, b]).frame;
      && |f.events| == 6 && f.events[5] == StartOfThirdRoll(10, 10 + b, 10) && RemainingPins(f) == 10
    ensures 0 <= p <= 10 ==> LastAfter([10, b, p]).error == None
    ensures var c := LastAfter([10, 0, 0]);
      && c.error == None && c.sent == [EndOfGame(10)]
      && |c.frame.events| == 8 && c.frame.events[7] == EndOfFrame(10, 10)
  {
    LastAfterTable([10, b]);
    if 0 <= p <= 10 {
      LastAfterTable([10, b, p]);
    }
    LastAfterTable([10, 0, 0]);
    assert [10, 0, 0][..2] == [10, 0];
  }

  /** Two rolls leaving pins standing end frame 10 after five events, with EndOfGame(10). */
  lemma LastOpenFrame(a: int, b: int)
    requires 0 <= a && 0 <= b && a + b < 10
    ensures var c := LastAfter([a, b]);
      && c.error == None && c.sent == [EndOfGame(10)]
      && c.frame.events == [StartOfFirstRoll(10), Rolled(10, a), StartOfSecondRoll(10, a, 10 - a),
                            Rolled(10, b), EndOfFrame(10, a + b)]
  {
    LastAfterTable([a, b]);
  }

  /**
   * Frame 10 never sends AdvanceFrame: every signal it sends on a legal roll
   * is EndOfGame(10), sent by the roll that finishes it.
   */
  lemma LastFrameSignals(ps: seq<int>)
    requires Playable(true, ps)
    ensures LastAfter(ps).sent == if Finished(true, ps) then [EndOfGame(10)] else []
  {
    LastAfterTable(ps);
  }

  /** The remaining pins stated by the last StartOfSecondRoll or StartOfThirdRoll in a log; 10 if none. */
  function LastPayload(es: seq<FrameEvent>): int
  {
    if es == [] then PinsAtStartOfFrame
    else match es[|es| - 1]
      case StartOfSecondRoll(_, _, remaining) => remaining
      case StartOfThirdRoll(_, _, remaining) => remaining
      case _ => LastPayload(es[..|es| - 1])
  }

  predicate NoPayload(e: FrameEvent)
  {
    !e.StartOfSecondRoll? && !e.StartOfThirdRoll?
  }

  /** Events that carry no remaining-pins payload leave LastPayload as it was. */
  lemma {:induction false} LastPayloadSkip(es: seq<FrameEvent>, tail: seq<FrameEvent>)
    requires forall i :: 0 <= i < |tail| ==> NoPayload(tail[i])
    ensures LastPayload(es + tail) == LastPayload(es)
    decreases |tail|
  {
    if tail != [] {
      var init := tail[..|tail| - 1];
      assert (es + tail)[..|es + tail| - 1] == es + init;
      assert (es + tail)[|es + tail| - 1] == tail[|tail| - 1];
      assert NoPayload(tail[|tail| - 1]);
      assert forall i :: 0 <= i < |init| ==> init[i] == tail[i];
      LastPayloadSkip(es, init);
      assert LastPayload(es + tail) == LastPayload(es + init);
    } else {
      assert es + tail == es;
    }
  }

  /**
   * The last frame's stored remaining pins is always the payload of the
   * latest StartOfSecondRoll or StartOfThirdRoll it logged (10 before any):
   * rolls never change it themselves.
   */
  lemma StoredRemainingFromPayload(ps: seq<int>)
    requires Playable(true, ps)
    ensures ExpectedLast(ps).storedRemaining == LastPayload(ExpectedLast(ps).events)
    ensures RemainingPins(ExpectedLast(ps)) == ExpectedLast(ps).storedRemaining
  {
    if |ps| == 1 {
      assert ps == [ps[0]];
    } else if |ps| == 2 {
      assert ps == [ps[0], ps[1]];
      PayloadOfTwo(ps[0], ps[1]);
    } else if |ps| == 3 {
      assert ps == [ps[0], ps[1], ps[2]];
      PayloadOfThree(ps[0], ps[1], ps[2]);
    }
  }

  lemma PayloadOfTwo(a: int, b: int)
    requires Playable(true, [a, b])
    ensures ExpectedLast([a, b]).storedRemaining == LastPayload(ExpectedLast([a, b]).events)
  {
    if a + b < 10 {
      var tail := [Rolled(10, b), EndOfFrame(10, a + b)];
      assert ExpectedLast([a, b]).events == ExpectedLast([a]).events + tail;
      LastPayloadSkip(ExpectedLast([a]).events, tail);
    }
  }

  lemma PayloadOfThree(a: int, b: int, c: int)
    requires Playable(true, [a, b, c])
    ensures ExpectedLast([a, b, c]).storedRemaining == LastPayload(ExpectedLast([a, b, c]).events)
  {
    var tail := [Rolled(10, c)] + (if c == 10 then [Strike(10)] else []) + [EndOfFrame(10, a + b + c)];
    assert ExpectedLast([a, b, c]).events == ExpectedLast([a, b]).events + tail;
    LastPayloadSkip(ExpectedLast([a, b]).events, tail);
    assert ExpectedLast([a, b]).events[|ExpectedLast([a, b]).events| - 1].StartOfThirdRoll?;
  }
}
