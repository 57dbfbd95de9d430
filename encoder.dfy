/** The rotary-encoder decoder: a poll fires on a LOW-to-HIGH transition of
    pin A, and pin B gives the direction. */
module Encoder {
  import opened Signals

  /** Pin A was LOW at the previous poll and is HIGH now. */
  predicate RisingEdge(last: Level, n: Level) {
    last == Low && n == High
  }

  /** Counts added per detent: 1 in fine mode, 10 in coarse mode. */
  function StepSize(fine: bool): (r: nat)
    ensures r == 1 || r == 10
    ensures r == 1 <==> fine
  {
    if fine then 1 else 10
  }

  /** The change one poll makes to the encoder value, given the previous
      and the current level of pin A, the level of pin B and the mode. */
  function EncoderDelta(last: Level, n: Level, pinB: Level, fine: bool): (d: int)
    ensures d != 0 <==> RisingEdge(last, n)
    ensures RisingEdge(last, n) ==> Abs(d) == StepSize(fine)
    ensures d < 0 <==> RisingEdge(last, n) && pinB == Low
  {
    if !RisingEdge(last, n) then 0
    else if pinB == Low then -(StepSize(fine) as int)
    else StepSize(fine)
  }

  /** How many of the polls that sample pin A as pins fire, when the level
      remembered before the first of them is last. */
  function RisingEdges(last: Level, pins: seq<Level>): (r: nat)
    ensures r <= |pins|
    decreases |pins|
  {
    if pins == [] then 0
    else (if RisingEdge(last, pins[0]) then 1 else 0) + RisingEdges(pins[0], pins[1..])
  }

  /** The encoder value after polls (pin A, pin B) in a fixed mode, with no
      clamping in between. */
  function Turn(v: int, last: Level, fine: bool, polls: seq<(Level, Level)>): int
    decreases |polls|
  {
    if polls == [] then v
    else Turn(v + EncoderDelta(last, polls[0].0, polls[0].1, fine), polls[0].0, fine, polls[1..])
  }

  /** How many of the polls fire while pin B reads b. */
  function EdgesWith(last: Level, polls: seq<(Level, Level)>, b: Level): (r: nat)
    ensures r <= |polls|
    decreases |polls|
  {
    if polls == [] then 0
    else
      var fired := if RisingEdge(last, polls[0].0) && polls[0].1 == b then 1 else 0;
      fired + EdgesWith(polls[0].0, polls[1..], b)
  }

  function PinA(polls: seq<(Level, Level)>): (pins: seq<Level>)
    ensures |pins| == |polls|
    ensures forall j :: 0 <= j < |polls| ==> pins[j] == polls[j].0
  {
    seq(|polls|, j requires 0 <= j < |polls| => polls[j].0)
  }

  /** Because the remembered level is updated on every poll, two firing polls
      are always separated by one that sees pin A LOW: at most one poll in
      two fires. */
  lemma {:induction false} EdgesNeverDoubleFire(last: Level, pins: seq<Level>)
    ensures 2 * RisingEdges(last, pins) <= |pins| + (if last == Low then 1 else 0)
    decreases |pins|
  {
    if pins != [] {
      EdgesNeverDoubleFire(pins[0], pins[1..]);
    }
  }

  /** Pin A held HIGH over any number of polls fires exactly once, and only
      when it was LOW before. */
  lemma {:induction false} HeldHighFiresOnce(last: Level, k: nat)
    ensures RisingEdges(last, seq(k, _ => High)) == (if last == Low && k > 0 then 1 else 0)
    decreases k
  {
    if k > 0 {
      var pins := seq(k, _ => High);
      assert pins[1..] == seq(k - 1, _ => High);
      HeldHighFiresOnce(High, k - 1);
    }
  }

  /** Turning one way only moves the value one way. */
  lemma {:induction false} TurnMonotone(v: int, last: Level, fine: bool, polls: seq<(Level, Level)>)
    ensures (forall j | 0 <= j < |polls| :: polls[j].1 == High) ==> Turn(v, last, fine, polls) >= v
    ensures (forall j | 0 <= j < |polls| :: polls[j].1 == Low) ==> Turn(v, last, fine, polls) <= v
    decreases |polls|
  {
    if polls != [] {
      TurnMonotone(v + EncoderDelta(last, polls[0].0, polls[0].1, fine), polls[0].0, fine, polls[1..]);
    }
  }

  /** The pin A level remembered when poll j of polls runs. */
  function Prev(last: Level, polls: seq<(Level, Level)>, j: nat): Level
    requires j < |polls|
  {
    if j == 0 then last else polls[j - 1].0
  }

  /** Turning clockwise (pin B HIGH at every poll that fires; pin B is not
      read on the others) adds one step per fired edge and never subtracts. */
  lemma {:induction false} ClockwiseTurn(v: int, last: Level, fine: bool, polls: seq<(Level, Level)>)
    requires forall j | 0 <= j < |polls| :: RisingEdge(Prev(last, polls, j), polls[j].0) ==> polls[j].1 == High
    ensures Turn(v, last, fine, polls) == v + StepSize(fine) * RisingEdges(last, PinA(polls))
    decreases |polls|
  {
    if polls != [] {
      var tail := polls[1..];
      forall j | 0 <= j < |tail| && RisingEdge(Prev(polls[0].0, tail, j), tail[j].0)
        ensures tail[j].1 == High
      {
        assert Prev(polls[0].0, tail, j) == Prev(last, polls, j + 1);
        assert tail[j] == polls[j + 1];
      }
      assert RisingEdge(Prev(last, polls, 0), polls[0].0) ==> polls[0].1 == High;
      ClockwiseTurn(v + EncoderDelta(last, polls[0].0, polls[0].1, fine), polls[0].0, fine, tail);
      assert PinA(polls)[1..] == PinA(tail);
    }
  }

  /** One more poll adds its delta, computed from the level the polls before
      it left behind. */
  lemma {:induction false} TurnAppend(v: int, last: Level, fine: bool, polls: seq<(Level, Level)>, x: (Level, Level))
    ensures Turn(v, last, fine, polls + [x]) ==
      Turn(v, last, fine, polls) + EncoderDelta(if polls == [] then last else polls[|polls| - 1].0, x.0, x.1, fine)
    decreases |polls|
  {
    if polls == [] {
      assert [x][1..] == [];
    } else {
      assert (polls + [x])[0] == polls[0];
      assert (polls + [x])[1..] == polls[1..] + [x];
      TurnAppend(v + EncoderDelta(last, polls[0].0, polls[0].1, fine), polls[0].0, fine, polls[1..], x);
    }
  }

  /** Every rising edge of pin A is read with pin B either HIGH or LOW. */
  lemma {:induction false} EdgesSplit(last: Level, polls: seq<(Level, Level)>)
    ensures EdgesWith(last, polls, High) + EdgesWith(last, polls, Low) == RisingEdges(last, PinA(polls))
    decreases |polls|
  {
    if polls != [] {
      EdgesSplit(polls[0].0, polls[1..]);
      assert PinA(polls)[1..] == PinA(polls[1..]);
    }
  }

  /** In both directions: a run of polls adds one step per rising edge read
      with pin B HIGH and subtracts one per rising edge read with pin B LOW. */
  lemma {:induction false} TurnCountsEdges(v: int, last: Level, fine: bool, polls: seq<(Level, Level)>)
    ensures Turn(v, last, fine, polls) ==
      v + StepSize(fine) * (EdgesWith(last, polls, High) - EdgesWith(last, polls, Low))
    decreases |polls|
  {
    if polls != [] {
      var d := EncoderDelta(last, polls[0].0, polls[0].1, fine);
      var up: int, down: int := EdgesWith(polls[0].0, polls[1..], High), EdgesWith(polls[0].0, polls[1..], Low);
      TurnCountsEdges(v + d, polls[0].0, fine, polls[1..]);
      var up1: int := if RisingEdge(last, polls[0].0) && polls[0].1 == High then 1 else 0;
      var down1: int := if RisingEdge(last, polls[0].0) && polls[0].1 == Low then 1 else 0;
      var k: int := StepSize(fine);
      assert d == k * (up1 - down1);
      assert k * (up1 + up - (down1 + down)) == k * (up1 - down1) + k * (up - down);
    }
  }
}
