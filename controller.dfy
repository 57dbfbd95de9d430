/** The controller's globals and the routines that update them: the encoder
    poll, the adjustment toggle, the speed clamp, the main menu and the
    control screen with its dead-man gated ramp. Pin reads are parameters;
    the Servo calls are recorded in `events`. */
module SpeedController {
  import opened Signals
  import opened Encoder
  import opened Speed
  import opened Ramp

  /** The reads of one pass of the main menu loop: pin A, pin B (used only
      when pin A rose) and the select button. */
  datatype MenuInput = MenuInput(pinA: Level, pinB: Level, button: Level)

  datatype MenuChoice = Undecided | Master | Slave

  /** The reads of one pass of the control screen loop: the select button,
      pin A, pin B (used only when pin A rose), and then the passes of the
      dead-man loop. The switch reads LOW at the loop guard before each
      session and HIGH at the guard after the last one. */
  datatype Poll = Poll(button: Level, pinA: Level, pinB: Level, sessions: seq<Session>)

  /** Every session of the poll gives a level for each of the at most
      MaxSpeed + 1 ramp steps. */
  predicate PollFits(p: Poll) {
    forall i | 0 <= i < |p.sessions| :: MaxSpeed < |p.sessions[i].ramp|
  }

  /** The index of the first menu pass whose button read is LOW, or the
      number of passes when there is none. */
  function FirstPress(inputs: seq<MenuInput>): (r: nat)
    ensures r <= |inputs|
    ensures forall j | 0 <= j < r :: inputs[j].button == High
    ensures r < |inputs| ==> inputs[r].button == Low
    decreases |inputs|
  {
    if inputs == [] then 0
    else match inputs[0].button
      case Low => 0
      case High => 1 + FirstPress(inputs[1..])
  }

  /** The pin A level the encoder remembers after the menu passes inputs,
      starting from last. */
  function LastPinA(last: Level, inputs: seq<MenuInput>): Level {
    if inputs == [] then last else inputs[|inputs| - 1].pinA
  }

  /** The menu cursor after the passes inputs, starting from cursor v with
      pin A last remembered as last: each pass adds the encoder delta and
      clamps to the two rows. */
  function MenuCursor(v: int, last: Level, fine: bool, inputs: seq<MenuInput>): (r: int)
    ensures inputs != [] ==> r == 0 || r == 1
    decreases |inputs|
  {
    if inputs == [] then v
    else
      var before := inputs[..|inputs| - 1];
      var x := inputs[|inputs| - 1];
      MenuClamp(MenuCursor(v, last, fine, before) + EncoderDelta(LastPinA(last, before), x.pinA, x.pinB, fine))
  }

  /** What the main menu selects: the row under the cursor at the first
      press, or nothing when the button is never pressed. */
  function MenuOutcome(v: int, last: Level, fine: bool, inputs: seq<MenuInput>): (c: MenuChoice)
    ensures c == Undecided <==> forall j | 0 <= j < |inputs| :: inputs[j].button == High
  {
    var p := FirstPress(inputs);
    if p == |inputs| then Undecided
    else if MenuCursor(v, last, fine, inputs[..p + 1]) == 0 then Master
    else Slave
  }

  /** Without a rising edge of pin A the cursor never moves off its row. */
  lemma {:induction false} MenuCursorStill(v: int, last: Level, fine: bool, inputs: seq<MenuInput>)
    requires v == 0 || v == 1
    requires forall j | 0 <= j < |inputs| :: !RisingEdge(LastPinA(last, inputs[..j]), inputs[j].pinA)
    ensures MenuCursor(v, last, fine, inputs) == v
    decreases |inputs|
  {
    if inputs != [] {
      var before := inputs[..|inputs| - 1];
      forall j | 0 <= j < |before| ensures !RisingEdge(LastPinA(last, before[..j]), before[j].pinA) {
        assert before[..j] == inputs[..j];
      }
      MenuCursorStill(v, last, fine, before);
    }
  }

  /** From power-on (value -1, pin A LOW), a press without turning selects
      Master, because the -1 start is clamped to row 0. An idle poll with both
      pins LOW, then a press on the poll where pin A rises while pin B reads
      HIGH (one clockwise click), selects Slave. */
  lemma PowerOnSelections()
    ensures MenuOutcome(-1, Low, true, [MenuInput(Low, Low, Low)]) == Master
    ensures MenuOutcome(-1, Low, true, [MenuInput(Low, Low, High), MenuInput(High, High, Low)]) == Slave
  {
  }

  /** The state of the control screen that the passes determine: the target,
      the remembered pin A level, the mode, and the calls made on the outputs. */
  datatype Screen = Screen(value: int, last: Level, fine: bool, calls: seq<ServoEvent>)

  /** One pass of the control screen loop: toggle check, encoder poll in the
      new mode, clamp, then the dead-man loop unless in slave mode. */
  function PollStep(slave: bool, st: Screen, p: Poll): (r: Screen)
    requires PollFits(p)
    ensures -MaxSpeed <= r.value <= MaxSpeed
    ensures r.last == p.pinA
    ensures r.fine == (if p.button == Low then !st.fine else st.fine)
    ensures st.calls <= r.calls
    ensures slave ==> r.calls == st.calls
  {
    var fine := if p.button == Low then !st.fine else st.fine;
    var v := SpeedClamp(st.value + EncoderDelta(st.last, p.pinA, p.pinB, fine));
    assert AllFit(v, p.sessions);
    Screen(v, p.pinA, fine, st.calls + (if slave then [] else LoopTrace(v, p.sessions)))
  }

  /** A pass is determined by its parts: the toggled mode, the clamped
      target, the new pin A level and the calls of the dead-man loop. */
  lemma PollStepOf(slave: bool, st: Screen, p: Poll, r: Screen)
    requires PollFits(p)
    requires r.fine == (if p.button == Low then !st.fine else st.fine)
    requires r.value == SpeedClamp(st.value + EncoderDelta(st.last, p.pinA, p.pinB, r.fine))
    requires r.last == p.pinA
    requires AllFit(r.value, p.sessions)
    requires r.calls == st.calls + (if slave then [] else LoopTrace(r.value, p.sessions))
    ensures r == PollStep(slave, st, p)
  {
    var q := PollStep(slave, st, p);
    assert q.fine == r.fine && q.value == r.value && q.last == r.last && q.calls == r.calls;
  }

  /** Every write one pass makes is a mirrored pair within the 1000..2000
      microsecond servo range. */
  lemma PollStepSafe(slave: bool, st: Screen, p: Poll)
    requires PollFits(p)
    ensures SafeWrites(PollStep(slave, st, p).calls[|st.calls|..])
  {
    var r := PollStep(slave, st, p);
    if !slave {
      LoopSafe(r.value, p.sessions);
      assert r.calls[|st.calls|..] == LoopTrace(r.value, p.sessions);
    } else {
      assert r.calls[|st.calls|..] == [];
    }
  }

  /** The control screen after the passes polls, from the state st. */
  function ControlRun(slave: bool, st: Screen, polls: seq<Poll>): (r: Screen)
    requires forall j | 0 <= j < |polls| :: PollFits(polls[j])
    ensures polls != [] ==> -MaxSpeed <= r.value <= MaxSpeed
    ensures st.calls <= r.calls
    ensures slave ==> r.calls == st.calls
    decreases |polls|
  {
    if polls == [] then st
    else PollStep(slave, ControlRun(slave, st, polls[..|polls| - 1]), polls[|polls| - 1])
  }

  /** Every write the control screen makes is a mirrored pair within the
      1000..2000 microsecond servo range. */
  lemma {:induction false} ControlRunSafe(slave: bool, st: Screen, polls: seq<Poll>)
    requires forall j | 0 <= j < |polls| :: PollFits(polls[j])
    ensures SafeWrites(ControlRun(slave, st, polls).calls[|st.calls|..])
    decreases |polls|
  {
    if polls != [] {
      var before := polls[..|polls| - 1];
      var p := polls[|polls| - 1];
      ControlRunSafe(slave, st, before);
      var mid := ControlRun(slave, st, before);
      var r := PollStep(slave, mid, p);
      PollStepSafe(slave, mid, p);
      var added := r.calls[|mid.calls|..];
      assert SafeWrites(added);
      forall k | |st.calls| <= k < |r.calls| ensures SafeWrite(r.calls[k]) {
        if k < |mid.calls| {
          assert r.calls[k] == mid.calls[k] == mid.calls[|st.calls|..][k - |st.calls|];
        } else {
          assert r.calls[k] == added[k - |mid.calls|];
        }
      }
    }
  }

  /** The encoder reads (pin A, pin B) of the passes. */
  function EncoderReads(polls: seq<Poll>): (r: seq<(Level, Level)>)
    ensures |r| == |polls|
    ensures forall j | 0 <= j < |polls| :: r[j] == (polls[j].pinA, polls[j].pinB)
  {
    seq(|polls|, j requires 0 <= j < |polls| => (polls[j].pinA, polls[j].pinB))
  }

  /** A pass without a press whose encoder step stays within -100..100 is
      not clamped. */
  lemma PollStepUnclamped(slave: bool, st: Screen, p: Poll)
    requires PollFits(p) && p.button == High
    requires -MaxSpeed <= st.value + EncoderDelta(st.last, p.pinA, p.pinB, st.fine) <= MaxSpeed
    ensures PollStep(slave, st, p).value == st.value + EncoderDelta(st.last, p.pinA, p.pinB, st.fine)
    ensures PollStep(slave, st, p).fine == st.fine && PollStep(slave, st, p).last == p.pinA
  {
  }

  /** Without a button press, and as long as the unclamped count stays
      within -100..100, the clamp after each poll never acts: the control
      screen's target is the plain encoder count, the mode is unchanged and
      pin A's last sample is remembered. */
  lemma {:induction false} ControlRunTurns(slave: bool, st: Screen, polls: seq<Poll>)
    requires forall j | 0 <= j < |polls| :: PollFits(polls[j]) && polls[j].button == High
    requires forall k | 0 <= k <= |polls| ::
      -MaxSpeed <= Turn(st.value, st.last, st.fine, EncoderReads(polls[..k])) <= MaxSpeed
    ensures ControlRun(slave, st, polls).value == Turn(st.value, st.last, st.fine, EncoderReads(polls))
    ensures ControlRun(slave, st, polls).fine == st.fine
    ensures ControlRun(slave, st, polls).last == (if polls == [] then st.last else polls[|polls| - 1].pinA)
    decreases |polls|
  {
    if polls == [] {
      assert EncoderReads(polls) == [];
    } else {
      var before := polls[..|polls| - 1];
      var p := polls[|polls| - 1];
      forall k | 0 <= k <= |before|
        ensures -MaxSpeed <= Turn(st.value, st.last, st.fine, EncoderReads(before[..k])) <= MaxSpeed
      {
        assert before[..k] == polls[..k];
      }
      ControlRunTurns(slave, st, before);
      var mid := ControlRun(slave, st, before);
      var earlier := EncoderReads(before);
      assert EncoderReads(polls) == earlier + [(p.pinA, p.pinB)];
      TurnAppend(st.value, st.last, st.fine, earlier, (p.pinA, p.pinB));
      assert mid.last == (if earlier == [] then st.last else earlier[|earlier| - 1].0);
      assert polls[..|polls|] == polls;
      PollStepUnclamped(slave, mid, p);
    }
  }

  class Controller {
    /** The speed target in the control screen, the cursor in the menu. */
    var encoderValue: int
    /** Pin A level seen by the previous encoder poll. */
    var encoderPinALast: Level
    /** Set when a poll changed encoderValue, cleared once redrawn. */
    var newValue: bool
    var fineAdjust: bool
    var adjustment: string
    var slave: bool
    /** Whether the two servo outputs are attached. */
    var attached: bool
    /** The calls made on the servo outputs so far, oldest first. */
    var events: seq<ServoEvent>

    /** The adjustment label always names the current mode. */
    ghost predicate Valid()
      reads this
    {
      adjustment == AdjustmentLabel(fineAdjust)
    }

    /** The globals' initial values. */
    constructor ()
      ensures Valid()
      ensures encoderValue == -1 && encoderPinALast == Low && !newValue
      ensures fineAdjust && adjustment == "Fine" && slave
      ensures !attached && events == []
    {
      encoderValue := -1;
      encoderPinALast := Low;
      newValue := false;
      fineAdjust := true;
      adjustment := "Fine";
      slave := true;
      attached := false;
      events := [];
    }

    /** One encoder poll: on a rising edge of pin A, step the value down
        when pin B is LOW and up otherwise; always remember pin A. */
    method GetEncoder(pinA: Level, pinB: Level)
      modifies this`encoderValue, this`encoderPinALast, this`newValue
      ensures encoderPinALast == pinA
      ensures encoderValue == old(encoderValue) + EncoderDelta(old(encoderPinALast), pinA, pinB, fineAdjust)
      ensures newValue == (old(newValue) || RisingEdge(old(encoderPinALast), pinA))
    {
      var n := pinA;
      if encoderPinALast == Low && n == High {
        if pinB == Low {
          if fineAdjust {
            encoderValue := encoderValue - 1;
          } else {
            encoderValue := encoderValue - 10;
          }
        } else {
          if fineAdjust {
            encoderValue := encoderValue + 1;
          } else {
            encoderValue := encoderValue + 10;
          }
        }
        newValue := true;
      }
      encoderPinALast := n;
    }

    /** A LOW read of the select button flips between fine and coarse mode
        and relabels it; a HIGH read changes nothing. */
    method FineAdjustment(button: Level)
      modifies this`fineAdjust, this`adjustment
      ensures Adjustment(fineAdjust, adjustment) ==
        ToggleAdjustment(Adjustment(old(fineAdjust), old(adjustment)), button)
      ensures old(Valid()) ==> Valid()
    {
      if button == Low {
        if fineAdjust == false {
          fineAdjust := true;
          adjustment := "Fine";
        } else {
          fineAdjust := false;
          adjustment := "Course";
        }
      }
    }

    /** Saturates the speed target to -100..100. */
    method SpeedCheck()
      modifies this`encoderValue
      ensures encoderValue == SpeedClamp(old(encoderValue))
    {
      if encoderValue > 100 {
        encoderValue := 100;
      }
      if encoderValue < -100 {
        encoderValue := -100;
      }
    }

    method AttachOutputs()
      modifies this`attached, this`events
      ensures attached && events == old(events) + [Attach]
    {
      attached := true;
      events := events + [Attach];
    }

    method DetachOutputs()
      modifies this`attached, this`events
      ensures !attached && events == old(events) + [Detach]
    {
      attached := false;
      events := events + [Detach];
    }

    method WriteOutputs(a: int, b: int)
      modifies this`events
      ensures events == old(events) + [Write(a, b)]
    {
      events := events + [Write(a, b)];
    }

    /** The ramp: for i = 0..|encoderValue|, check the switch (deadMan[i])
        and detach on release, otherwise write the pair for speed +-i; a
        zero target detaches at the first step. */
    method RampUp(deadMan: seq<Level>)
      requires Abs(encoderValue) < |deadMan|
      modifies this`attached, this`events
      ensures events == old(events) + RampTrace(encoderValue, deadMan)
      ensures attached == (old(attached) && Completes(encoderValue, deadMan))
    {
      var i := 0;
      while i <= Abs(encoderValue)
        invariant 0 <= i <= Abs(encoderValue) + 1
        invariant encoderValue == 0 ==> i == 0
        invariant forall k | 0 <= k < i :: deadMan[k] == Low
        invariant events + RampFrom(encoderValue, deadMan, i) ==
          old(events) + RampTrace(encoderValue, deadMan)
        invariant attached == old(attached)
      {
        if deadMan[i] != Low {
          RampFromStop(encoderValue, deadMan, i);
          DetachOutputs();
          return;
        }
        if encoderValue < 0 {
          WriteOutputs(Pulse(-i), Mirror(-i));
        } else if encoderValue > 0 {
          WriteOutputs(Pulse(i), Mirror(i));
        } else {
          RampFromStop(encoderValue, deadMan, i);
          DetachOutputs();
          return;
        }
        RampFromStep(encoderValue, deadMan, i);
        i := i + 1;
      }
    }

    /** The hold loop: while the switch stays LOW (held reads), keep writing
        the target's pair. */
    method Hold(held: nat)
      modifies this`events
      ensures events == old(events) + (if slave then [] else HoldWrites(encoderValue, held))
    {
      var k := 0;
      while !slave && k < held
        invariant 0 <= k <= held
        invariant slave ==> k == 0
        invariant events == old(events) + HoldWrites(encoderValue, k)
      {
        WriteOutputs(Pulse(encoderValue), Mirror(encoderValue));
        HoldWritesStep(encoderValue, k);
        k := k + 1;
      }
    }

    /** One pass of the dead-man loop: attach, ramp, hold, detach. */
    method DeadManSession(s: Session)
      requires !slave && Fits(encoderValue, s)
      modifies this`attached, this`events
      ensures events == old(events) + SessionTrace(encoderValue, s)
      ensures !attached
    {
      AttachOutputs();
      RampUp(s.ramp);
      Hold(s.held);
      DetachOutputs();
    }

    /** The dead-man loop: passes run only while slave is false and the
        switch reads LOW at the guard. */
    method DeadManLoop(sessions: seq<Session>)
      requires AllFit(encoderValue, sessions)
      modifies this`attached, this`events
      ensures events == old(events) + (if slave then [] else LoopTrace(encoderValue, sessions))
      ensures attached == (if slave || sessions == [] then old(attached) else false)
    {
      var j := 0;
      while !slave && j < |sessions|
        invariant 0 <= j <= |sessions|
        invariant slave ==> j == 0
        invariant j == 0 ==> events == old(events) && attached == old(attached)
        invariant j > 0 ==> !attached
        invariant AllFit(encoderValue, sessions[..j])
        invariant events == old(events) + LoopTrace(encoderValue, sessions[..j])
      {
        LoopTraceAppend(encoderValue, sessions[..j], sessions[j]);
        assert sessions[..j + 1] == sessions[..j] + [sessions[j]];
        DeadManSession(sessions[j]);
        j := j + 1;
      }
      assert !slave ==> sessions[..j] == sessions;
    }

    /** The input half of a control screen pass: toggle check, encoder poll
        in the new mode, clamp, redraw flag. */
    method ControlInputs(button: Level, pinA: Level, pinB: Level)
      modifies this`encoderValue, this`encoderPinALast, this`newValue, this`fineAdjust, this`adjustment
      ensures Adjustment(fineAdjust, adjustment) ==
        ToggleAdjustment(Adjustment(old(fineAdjust), old(adjustment)), button)
      ensures encoderPinALast == pinA
      ensures encoderValue ==
        SpeedClamp(old(encoderValue) + EncoderDelta(old(encoderPinALast), pinA, pinB, fineAdjust))
      ensures !newValue
      ensures old(Valid()) ==> Valid()
    {
      FineAdjustment(button);
      GetEncoder(pinA, pinB);
      SpeedCheck();
      if newValue {
        newValue := false;
      }
    }

    /** One pass of the control screen loop: the inputs, then the dead-man
        loop. The new state is the pass function applied to the old one. */
    method ControlPoll(p: Poll)
      requires PollFits(p)
      modifies this`encoderValue, this`encoderPinALast, this`newValue, this`fineAdjust,
        this`adjustment, this`attached, this`events
      ensures Screen(encoderValue, encoderPinALast, fineAdjust, events) ==
        PollStep(slave, Screen(old(encoderValue), old(encoderPinALast), old(fineAdjust), old(events)), p)
      ensures Adjustment(fineAdjust, adjustment) ==
        ToggleAdjustment(Adjustment(old(fineAdjust), old(adjustment)), p.button)
      ensures !newValue
      ensures attached == (if slave || p.sessions == [] then old(attached) else false)
      ensures old(Valid()) ==> Valid()
    {
      ghost var before := Screen(encoderValue, encoderPinALast, fineAdjust, events);
      ControlInputs(p.button, p.pinA, p.pinB);
      DeadManLoop(p.sessions);
      PollStepOf(slave, before, p, Screen(encoderValue, encoderPinALast, fineAdjust, events));
    }

    /** Entry to the control screen: target 0 in coarse mode. */
    method EnterControlScreen()
      modifies this`encoderValue, this`fineAdjust, this`adjustment
      ensures Valid()
      ensures encoderValue == 0 && !fineAdjust && adjustment == "Course"
    {
      encoderValue := 0;
      fineAdjust := false;
      adjustment := "Course";
    }

    /** The loop of the control screen: one poll after another, from
        whatever state the screen is in. */
    method ControlLoop(polls: seq<Poll>)
      requires forall j | 0 <= j < |polls| :: PollFits(polls[j])
      requires Valid()
      modifies this`encoderValue, this`encoderPinALast, this`newValue, this`fineAdjust,
        this`adjustment, this`attached, this`events
      ensures Screen(encoderValue, encoderPinALast, fineAdjust, events) ==
        ControlRun(slave, Screen(old(encoderValue), old(encoderPinALast), old(fineAdjust), old(events)), polls)
      ensures Valid()
      ensures polls != [] ==> !newValue
      ensures attached ==> old(attached)
    {
      ghost var start := Screen(encoderValue, encoderPinALast, fineAdjust, events);
      var j := 0;
      while j < |polls|
        invariant 0 <= j <= |polls|
        invariant Valid()
        invariant Screen(encoderValue, encoderPinALast, fineAdjust, events) ==
          ControlRun(slave, start, polls[..j])
        invariant attached ==> old(attached)
        invariant j > 0 ==> !newValue
      {
        assert polls[..j + 1][..j] == polls[..j];
        ControlPoll(polls[j]);
        j := j + 1;
      }
      assert polls[..j] == polls;
    }

    /** The control screen over a finite run of polls. The target stays in
        -100..100, every write is a mirrored pair in the servo range, and no
        poll ends with the outputs attached that were not attached before. */
    method ControlScreen(polls: seq<Poll>)
      requires forall j | 0 <= j < |polls| :: PollFits(polls[j])
      modifies this`encoderValue, this`encoderPinALast, this`newValue, this`fineAdjust,
        this`adjustment, this`attached, this`events
      ensures Screen(encoderValue, encoderPinALast, fineAdjust, events) ==
        ControlRun(slave, Screen(0, old(encoderPinALast), false, old(events)), polls)
      ensures Valid()
      ensures -MaxSpeed <= encoderValue <= MaxSpeed
      ensures polls == [] ==> encoderValue == 0 && !fineAdjust
      ensures polls != [] ==> !newValue
      ensures old(events) <= events
      ensures SafeWrites(events[|old(events)|..])
      ensures slave ==> events == old(events)
      ensures attached ==> old(attached)
    {
      EnterControlScreen();
      ghost var start := Screen(encoderValue, encoderPinALast, fineAdjust, events);
      ControlLoop(polls);
      ControlRunSafe(slave, start, polls);
    }

    /** One pass of the main menu loop: encoder poll, clamp to the two rows,
        redraw flag, then the select button. */
    method MenuStep(input: MenuInput) returns (choice: MenuChoice)
      modifies this`encoderValue, this`encoderPinALast, this`newValue, this`slave
      ensures encoderPinALast == input.pinA && !newValue
      ensures encoderValue ==
        MenuClamp(old(encoderValue) + EncoderDelta(old(encoderPinALast), input.pinA, input.pinB, fineAdjust))
      ensures input.button == High ==> choice == Undecided && slave == old(slave)
      ensures input.button == Low ==>
        choice == (if encoderValue == 0 then Master else Slave) && slave == (choice == Slave)
    {
      GetEncoder(input.pinA, input.pinB);
      if encoderValue < 0 {
        encoderValue := 0;
      } else if encoderValue > 1 {
        encoderValue := 1;
      }
      if newValue {
        newValue := false;
      }
      choice := Undecided;
      if input.button == Low {
        if encoderValue == 0 {
          slave := false;
          choice := Master;
        } else if encoderValue == 1 {
          slave := true;
          choice := Slave;
        }
      }
    }

    /** The main menu over a finite run of inputs: it stops at the first
        button press, which always selects the highlighted row. */
    method MainMenu(inputs: seq<MenuInput>) returns (choice: MenuChoice, used: nat)
      modifies this`encoderValue, this`encoderPinALast, this`newValue, this`slave
      ensures used <= |inputs|
      ensures forall j :: 0 <= j < used && (choice != Undecided ==> j < used - 1) ==>
        inputs[j].button == High
      ensures choice == Undecided ==> used == |inputs| && slave == old(slave)
      ensures choice != Undecided ==> 0 < used && inputs[used - 1].button == Low
      ensures choice != Undecided ==>
        (choice == Master <==> encoderValue == 0) && (slave <==> choice == Slave)
      ensures used > 0 ==> encoderValue == 0 || encoderValue == 1
      ensures used > 0 ==> !newValue
      ensures encoderValue == MenuCursor(old(encoderValue), old(encoderPinALast), fineAdjust, inputs[..used])
      ensures encoderPinALast == LastPinA(old(encoderPinALast), inputs[..used])
      ensures used == (if choice == Undecided then |inputs| else FirstPress(inputs) + 1)
      ensures choice == MenuOutcome(old(encoderValue), old(encoderPinALast), fineAdjust, inputs)
    {
      choice := Undecided;
      used := 0;
      while choice == Undecided && used < |inputs|
        invariant used <= |inputs|
        invariant encoderValue == MenuCursor(old(encoderValue), old(encoderPinALast), fineAdjust, inputs[..used])
        invariant encoderPinALast == LastPinA(old(encoderPinALast), inputs[..used])
        invariant forall j :: 0 <= j < used && (choice != Undecided ==> j < used - 1) ==>
          inputs[j].button == High
        invariant choice == Undecided ==> slave == old(slave)
        invariant choice != Undecided ==> 0 < used && inputs[used - 1].button == Low
        invariant choice != Undecided ==>
          (choice == Master <==> encoderValue == 0) && (slave <==> choice == Slave)
        invariant used > 0 ==> encoderValue == 0 || encoderValue == 1
        invariant used > 0 ==> !newValue
      {
        assert inputs[..used + 1][..used] == inputs[..used];
        choice := MenuStep(inputs[used]);
        used := used + 1;
      }
      if choice == Undecided {
        assert inputs[..used] == inputs;
      }
    }
  }

  /** From power-on: the menu, then the control screen if Master was chosen;
      the slave screen does nothing further. */
  method Run(menu: seq<MenuInput>, polls: seq<Poll>) returns (c: Controller, choice: MenuChoice)
    requires forall j | 0 <= j < |polls| :: PollFits(polls[j])
    ensures fresh(c) && c.Valid()
    ensures choice != Master ==> c.events == [] && !c.attached
    ensures choice == Slave ==> c.slave
    ensures choice == Master ==>
      !c.slave && !c.attached && SafeWrites(c.events) && -MaxSpeed <= c.encoderValue <= MaxSpeed
    ensures choice == MenuOutcome(-1, Low, true, menu)
    ensures choice == Master ==>
      var pressed := menu[..FirstPress(menu) + 1];
      Screen(c.encoderValue, c.encoderPinALast, c.fineAdjust, c.events) ==
        ControlRun(false, Screen(0, LastPinA(Low, pressed), false, []), polls)
  {
    c := new Controller();
    var used;
    choice, used := c.MainMenu(menu);
    if choice == Master {
      c.ControlScreen(polls);
    }
  }
}
