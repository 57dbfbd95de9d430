/** What the motor ramp controller does to the two servo outputs while the
    dead-man switch is held, stated as the sequence of calls it makes. */
module Ramp {
  import opened Signals

  /** What one pass of the dead-man loop reads from the switch. ramp[i] is
      the level read at ramp step i (reads after the ramp stops are never
      made); held is the number of LOW reads in the hold loop before the
      HIGH read that ends it. */
  datatype Session = Session(ramp: seq<Level>, held: nat)

  /** The session gives a level for every step of a ramp towards v. */
  predicate Fits(v: int, s: Session) {
    Abs(v) < |s.ramp|
  }

  /** Every pass in ss fits a ramp towards v. */
  predicate AllFit(v: int, ss: seq<Session>) {
    forall i | 0 <= i < |ss| :: Fits(v, ss[i])
  }

  /** The first ramp step among 0..last at which the switch reads HIGH, or
      last + 1 when it reads LOW at all of them. */
  function FirstRelease(deadMan: seq<Level>, last: nat): (r: nat)
    requires last < |deadMan|
    ensures r <= last + 1
    ensures forall i :: 0 <= i < r ==> deadMan[i] == Low
    ensures r <= last ==> deadMan[r] == High
    decreases last
  {
    match deadMan[0]
    case High => 0
    case Low => if last == 0 then 1 else 1 + FirstRelease(deadMan[1..], last - 1)
  }

  /** The first release is the one step that reads HIGH after only LOW reads. */
  lemma FirstReleaseAt(deadMan: seq<Level>, last: nat, s: nat)
    requires s <= last < |deadMan|
    requires deadMan[s] == High
    requires forall i :: 0 <= i < s ==> deadMan[i] == Low
    ensures FirstRelease(deadMan, last) == s
  {
  }

  /** Speed, in percent, that ramp step i towards target v drives and shows. */
  function RampSpeed(v: int, i: int): int {
    if v < 0 then -i else i
  }

  /** The writes of ramp steps 0..n-1 towards v. */
  function RampWrites(v: int, n: nat): (t: seq<ServoEvent>)
    ensures |t| == n
  {
    seq(n, i => Write(Pulse(RampSpeed(v, i)), Mirror(RampSpeed(v, i))))
  }

  lemma RampWritesStep(v: int, i: nat)
    ensures RampWrites(v, i + 1) ==
      RampWrites(v, i) + [Write(Pulse(RampSpeed(v, i)), Mirror(RampSpeed(v, i)))]
  {
  }

  /** The ramp towards v runs every step 0..|v|: the target is not zero and
      the switch reads LOW at every step. Only then are the outputs left
      attached. */
  predicate Completes(v: int, deadMan: seq<Level>)
    requires Abs(v) < |deadMan|
  {
    v != 0 && forall i | 0 <= i <= Abs(v) :: deadMan[i] == Low
  }

  /** The calls of ramp steps i..|v|, step by step: a HIGH read of the
      switch, or a zero target, detaches and ends the ramp; otherwise the
      step writes the pair for its speed and the next step follows. */
  function RampFrom(v: int, deadMan: seq<Level>, i: nat): (r: seq<ServoEvent>)
    requires Abs(v) < |deadMan| && i <= Abs(v) + 1
    ensures i <= Abs(v) ==> r != []
    ensures |r| + i <= Abs(v) + 1
    decreases Abs(v) + 1 - i
  {
    if i > Abs(v) then []
    else match deadMan[i]
      case High => [Detach]
      case Low =>
        if v == 0 then [Detach]
        else [Write(Pulse(RampSpeed(v, i)), Mirror(RampSpeed(v, i)))] + RampFrom(v, deadMan, i + 1)
  }

  /** A step that finds the switch held towards a non-zero target writes
      its pair and hands over to the next step. */
  lemma RampFromStep(v: int, deadMan: seq<Level>, i: nat)
    requires i <= Abs(v) < |deadMan| && deadMan[i] == Low && v != 0
    ensures RampFrom(v, deadMan, i) ==
      [Write(Pulse(RampSpeed(v, i)), Mirror(RampSpeed(v, i)))] + RampFrom(v, deadMan, i + 1)
  {
  }

  /** A step that finds the switch released, or a zero target, ends the
      ramp with a detach. */
  lemma RampFromStop(v: int, deadMan: seq<Level>, i: nat)
    requires i <= Abs(v) < |deadMan| && (deadMan[i] == High || v == 0)
    ensures RampFrom(v, deadMan, i) == [Detach]
  {
  }

  /** The calls of the whole ramp towards v: at least one, and at most one
      per step. */
  function RampTrace(v: int, deadMan: seq<Level>): (r: seq<ServoEvent>)
    requires Abs(v) < |deadMan|
    ensures 0 < |r| <= Abs(v) + 1
  {
    RampFrom(v, deadMan, 0)
  }

  /** The same calls in closed form: one write per step before the first
      release, then a detach if there was one; a zero target detaches at
      once. */
  function RampClosedForm(v: int, deadMan: seq<Level>): (r: seq<ServoEvent>)
    requires Abs(v) < |deadMan|
    ensures 0 < |r| <= Abs(v) + 1
    ensures forall k | 0 <= k < |r| - 1 :: r[k].Write?
    ensures forall k | 0 <= k < |r| :: r[k] != Attach
  {
    if v == 0 then [Detach]
    else
      var s := FirstRelease(deadMan, Abs(v));
      if s <= Abs(v) then RampWrites(v, s) + [Detach] else RampWrites(v, s)
  }

  /** The steps before the first release each write their pair. */
  lemma {:induction false} RampFromSplit(v: int, deadMan: seq<Level>, i: nat)
    requires Abs(v) < |deadMan|
    requires i <= FirstRelease(deadMan, Abs(v))
    requires v == 0 ==> i == 0
    ensures RampFrom(v, deadMan, 0) == RampWrites(v, i) + RampFrom(v, deadMan, i)
    decreases i
  {
    if i > 0 {
      RampFromSplit(v, deadMan, i - 1);
      assert deadMan[i - 1] == Low;
      RampWritesStep(v, i - 1);
    }
  }

  /** The step-by-step ramp makes exactly the calls of the closed form. */
  lemma RampTraceClosedForm(v: int, deadMan: seq<Level>)
    requires Abs(v) < |deadMan|
    ensures RampTrace(v, deadMan) == RampClosedForm(v, deadMan)
    ensures Completes(v, deadMan) <==> v != 0 && FirstRelease(deadMan, Abs(v)) == Abs(v) + 1
  {
    var s := FirstRelease(deadMan, Abs(v));
    if v != 0 {
      RampFromSplit(v, deadMan, s);
    }
  }

  /** The writes of k turns of the hold loop at target v. */
  function HoldWrites(v: int, k: nat): (t: seq<ServoEvent>)
    ensures |t| == k
    ensures forall j | 0 <= j < k :: t[j].Write? && t[j].a + t[j].b == 2 * Neutral
  {
    seq(k, _ => Write(Pulse(v), Mirror(v)))
  }

  lemma HoldWritesStep(v: int, k: nat)
    ensures HoldWrites(v, k + 1) == HoldWrites(v, k) + [Write(Pulse(v), Mirror(v))]
  {
  }

  /** The calls of one pass of the dead-man loop: attach, ramp, hold, detach. */
  function SessionTrace(v: int, s: Session): (r: seq<ServoEvent>)
    requires Fits(v, s)
    ensures 3 <= |r| <= Abs(v) + s.held + 3
    ensures r[0] == Attach && r[|r| - 1] == Detach
  {
    [Attach] + RampTrace(v, s.ramp) + HoldWrites(v, s.held) + [Detach]
  }

  /** The calls of the dead-man loop when it makes the passes ss. */
  function LoopTrace(v: int, ss: seq<Session>): (r: seq<ServoEvent>)
    requires AllFit(v, ss)
    ensures 3 * |ss| <= |r|
    decreases |ss|
  {
    if ss == [] then [] else SessionTrace(v, ss[0]) + LoopTrace(v, ss[1..])
  }

  /** One more pass appends its calls to those of the passes before it. */
  lemma {:induction false} LoopTraceAppend(v: int, ss: seq<Session>, s: Session)
    requires AllFit(v, ss)
    requires Fits(v, s)
    ensures AllFit(v, ss + [s])
    ensures LoopTrace(v, ss + [s]) == LoopTrace(v, ss) + SessionTrace(v, s)
    decreases |ss|
  {
    if ss == [] {
      assert [s][1..] == [];
    } else {
      var first, rest := ss[0], ss[1..];
      assert (ss + [s])[0] == first && (ss + [s])[1..] == rest + [s];
      LoopTraceAppend(v, rest, s);
      var a, b, c := SessionTrace(v, first), LoopTrace(v, rest), SessionTrace(v, s);
      calc {
        LoopTrace(v, ss + [s]);
        a + LoopTrace(v, rest + [s]);
        a + (b + c);
        { assert a + (b + c) == (a + b) + c; }
        (a + b) + c;
      }
    }
  }

  /** A write that mirrors the two outputs about neutral and drives the
      first output no further from neutral than the target v does, on the
      same side. */
  predicate TowardTarget(v: int, e: ServoEvent) {
    e.Write? ==>
      e.a + e.b == 2 * Neutral &&
      (if v >= 0 then Neutral <= e.a <= Pulse(v) else Pulse(v) <= e.a <= Neutral)
  }

  /** A ramp that is not interrupted starts at neutral, makes one write per
      step 0..|v|, and its last write is exactly the pair the hold loop
      then keeps writing. */
  lemma RampLandsOnTarget(v: int, deadMan: seq<Level>)
    requires Abs(v) < |deadMan| && Completes(v, deadMan)
    ensures var t := RampTrace(v, deadMan);
      |t| == Abs(v) + 1 && Detach !in t && Attach !in t &&
      t[0] == Write(Neutral, Neutral) &&
      t[Abs(v)] == Write(Pulse(v), Mirror(v))
  {
    RampTraceClosedForm(v, deadMan);
  }

  /** When the switch is found released at step s, or the target is zero,
      the ramp has made exactly one write per earlier step, then detaches,
      and writes nothing after the detach. */
  lemma RampReleaseStops(v: int, deadMan: seq<Level>)
    requires Abs(v) < |deadMan| && !Completes(v, deadMan)
    ensures var t := RampTrace(v, deadMan);
      |t| == (if v == 0 then 1 else FirstRelease(deadMan, Abs(v)) + 1) &&
      t[|t| - 1] == Detach &&
      forall j :: 0 <= j < |t| - 1 ==> t[j].Write?
  {
    RampTraceClosedForm(v, deadMan);
  }

  /** Consecutive ramp writes move each output 5 microseconds further from
      neutral, in opposite directions. */
  lemma RampGradual(v: int, deadMan: seq<Level>, j: nat)
    requires Abs(v) < |deadMan|
    requires j + 1 < |RampTrace(v, deadMan)|
    requires RampTrace(v, deadMan)[j + 1].Write?
    ensures var t := RampTrace(v, deadMan);
      t[j].Write? &&
      t[j + 1].a - t[j].a == (if v < 0 then -5 else 5) &&
      t[j + 1].b - t[j].b == (if v < 0 then 5 else -5)
  {
    RampTraceClosedForm(v, deadMan);
  }

  /** Every write of the ramp is mirrored and lies between neutral and the
      target's pulse. */
  lemma RampTowardTarget(v: int, deadMan: seq<Level>)
    requires Abs(v) < |deadMan|
    ensures forall e | e in RampTrace(v, deadMan) :: TowardTarget(v, e)
  {
    RampTraceClosedForm(v, deadMan);
    var t := RampTrace(v, deadMan);
    forall e | e in t ensures TowardTarget(v, e) {
      if v != 0 {
        var s := FirstRelease(deadMan, Abs(v));
        if e in RampWrites(v, s) {
          var i :| 0 <= i < s && RampWrites(v, s)[i] == e;
          assert e == Write(Pulse(RampSpeed(v, i)), Mirror(RampSpeed(v, i)));
        }
      }
    }
  }

  /** Every write the dead-man loop makes is mirrored and lies between
      neutral and the target's pulse: the ramp never overshoots the target. */
  lemma {:induction false} LoopTowardTarget(v: int, ss: seq<Session>)
    requires AllFit(v, ss)
    ensures forall e | e in LoopTrace(v, ss) :: TowardTarget(v, e)
    decreases |ss|
  {
    if ss != [] {
      RampTowardTarget(v, ss[0].ramp);
      LoopTowardTarget(v, ss[1..]);
    }
  }

  /** With the target within the clamp, every write the dead-man loop makes
      is a mirrored pair within the 1000..2000 microsecond servo range. */
  lemma LoopSafe(v: int, ss: seq<Session>)
    requires -MaxSpeed <= v <= MaxSpeed
    requires AllFit(v, ss)
    ensures SafeWrites(LoopTrace(v, ss))
  {
    LoopTowardTarget(v, ss);
    var t := LoopTrace(v, ss);
    forall k | 0 <= k < |t| ensures SafeWrite(t[k]) {
      assert t[k] in t;
    }
  }

  /** A pass of the dead-man loop attaches only with its first call. */
  lemma SessionAttachesOnce(v: int, s: Session)
    requires Fits(v, s)
    ensures forall j | 0 < j < |SessionTrace(v, s)| :: SessionTrace(v, s)[j] != Attach
  {
    RampTraceClosedForm(v, s.ramp);
  }

  /** Each pass of the dead-man loop starts by attaching and ends by
      detaching, so the loop never leaves the outputs attached, and the
      only attach of a pass is its first call. */
  lemma {:induction false} LoopDetaches(v: int, ss: seq<Session>)
    requires AllFit(v, ss)
    ensures ss == [] <==> LoopTrace(v, ss) == []
    ensures ss != [] ==> LoopTrace(v, ss)[0] == Attach
    ensures ss != [] ==> LoopTrace(v, ss)[|LoopTrace(v, ss)| - 1] == Detach
    ensures forall j :: 0 < j < |LoopTrace(v, ss)| && LoopTrace(v, ss)[j] == Attach ==>
      LoopTrace(v, ss)[j - 1] == Detach
    decreases |ss|
  {
    if ss != [] {
      LoopDetaches(v, ss[1..]);
      var head := SessionTrace(v, ss[0]);
      var tail := LoopTrace(v, ss[1..]);
      SessionAttachesOnce(v, ss[0]);
      var t := head + tail;
      forall j | 0 < j < |t| && t[j] == Attach
        ensures t[j - 1] == Detach
      {
        if j > |head| {
          assert t[j] == tail[j - |head|];
          assert t[j - 1] == tail[j - 1 - |head|];
        }
      }
    }
  }

  /** Target 50 with the switch held: 51 writes rising to (1750, 1250). */
  lemma TargetFiftyHeld()
    ensures var t := RampTrace(50, seq(51, _ => Low));
      |t| == 51 && t[50] == Write(1750, 1250)
  {
    RampLandsOnTarget(50, seq(51, _ => Low));
  }

  /** Target -30 with the switch found released at step 10: ten writes,
      the last (1455, 1545), then a detach. */
  lemma TargetMinusThirtyReleasedAtTen()
    ensures var t := RampTrace(-30, seq(31, i => if i < 10 then Low else High));
      |t| == 11 && t[9] == Write(1455, 1545) && t[10] == Detach
  {
    var dm := seq(31, i => if i < 10 then Low else High);
    FirstReleaseAt(dm, 30, 10);
    RampTraceClosedForm(-30, dm);
  }

  /** A zero target detaches at the first step, but the hold loop that
      follows still writes neutral pulses to the detached outputs for as
      long as the switch stays pressed, and detaches them again at the end. */
  lemma ZeroTargetSession(ramp: seq<Level>, k: nat)
    requires ramp != []
    ensures SessionTrace(0, Session(ramp, k)) ==
      [Attach, Detach] + seq(k, _ => Write(Neutral, Neutral)) + [Detach]
  {
  }

  /** A ramp stopped by a release is followed, like a zero target, by the
      hold loop: if the switch reads LOW again at the hold loop's guard, the
      full target pair is written to the detached outputs, with no ramp. */
  lemma ReleasedRampThenHold(v: int, s: Session)
    requires v != 0 && Fits(v, s)
    requires FirstRelease(s.ramp, Abs(v)) <= Abs(v)
    ensures SessionTrace(v, s) ==
      [Attach] + RampWrites(v, FirstRelease(s.ramp, Abs(v))) + [Detach] +
      HoldWrites(v, s.held) + [Detach]
  {
    RampTraceClosedForm(v, s.ramp);
  }

  /** Target 30, switch released at step 0 and pressed again for two reads
      of the hold loop: two writes of (1650, 1350) between two detaches. */
  lemma ReleasedThenPressedAgain()
    ensures SessionTrace(30, Session(seq(31, _ => High), 2)) ==
      [Attach, Detach, Write(1650, 1350), Write(1650, 1350), Detach]
  {
  }
}
