/** The adjustment mode toggle and the two clamps applied to the encoder
    value: the speed clamp of the control screen and the cursor clamp of
    the main menu. */
module Speed {
  import opened Signals

  /** Label drawn for a mode; the source spells the coarse mode "Course". */
  function AdjustmentLabel(fine: bool): string {
    if fine then "Fine" else "Course"
  }

  /** The adjustment mode flag together with the label the screen shows. */
  datatype Adjustment = Adjustment(fine: bool, text: string)

  /** Effect of one check of the select button: a LOW read flips the mode
      and relabels it, a HIGH read leaves both alone. */
  function ToggleAdjustment(m: Adjustment, button: Level): (r: Adjustment)
    ensures button == High ==> r == m
    ensures button == Low ==> r.fine == !m.fine && r.text == AdjustmentLabel(r.fine)
  {
    if button == High then m
    else if !m.fine then Adjustment(true, "Fine")
    else Adjustment(false, "Course")
  }

  /** Two presses bring back the mode and label, whatever they were, as long
      as the label matched the mode to begin with. */
  lemma TwoPressesRestore(m: Adjustment)
    requires m.text == AdjustmentLabel(m.fine)
    ensures ToggleAdjustment(ToggleAdjustment(m, Low), Low) == m
  {
  }

  /** The speed clamp: saturates at -100 and 100, with no dead zone. */
  function SpeedClamp(v: int): (r: int)
    ensures -MaxSpeed <= r <= MaxSpeed
    ensures v > MaxSpeed ==> r == MaxSpeed
    ensures v < -MaxSpeed ==> r == -MaxSpeed
    ensures -MaxSpeed <= v <= MaxSpeed ==> r == v
  {
    if v > 100 then 100
    else if v < -100 then -100
    else v
  }

  lemma SpeedClampIdempotent(v: int)
    ensures SpeedClamp(SpeedClamp(v)) == SpeedClamp(v)
  {
  }

  /** Values near zero pass through: the dead zone named in the comment
      above the clamp is not implemented. */
  lemma NoDeadZone(v: int)
    requires -10 <= v <= 10
    ensures SpeedClamp(v) == v
  {
  }

  /** The menu reuses the encoder value as a cursor over two rows. */
  function MenuClamp(v: int): (r: int)
    ensures r == 0 || r == 1
    ensures v <= 0 ==> r == 0
    ensures v >= 1 ==> r == 1
  {
    if v < 0 then 0
    else if v > 1 then 1
    else v
  }
}
