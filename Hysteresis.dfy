/**
 * The hysteresis state machine that picks the operating mode and the power
 * setting from the target delta (target temperature minus average temperature),
 * and self-tunes the steady-state hold power in steps of 0.1.
 *
 * `Transition` is the transition table written per mode; the controller's
 * `ControlLogic` method runs the source's ordered if/else chain and is proved
 * equal to it. `Iterate` adds the end-of-iteration countdown tick, and `Run`
 * folds `Iterate` over a sequence of target deltas.
 */
module Hysteresis {

  datatype Mode = Unknown | Heating | Holding | Cooling

  /** Half-width of the hysteresis band around the target, in degrees. */
  const BAND: real := 0.5
  /** Amount by which hold power is corrected on leaving Holding. */
  const HOLD_STEP: real := 0.1
  /** Iterations the downward correction stays locked after it fires. */
  const COOLDOWN: int := 10
  /** Boot value of power_setting, correction_power and hold_power. */
  const INITIAL_POWER: real := 0.5

  /** The part of the controller the state machine reads and writes. */
  datatype ControlState = ControlState(state: Mode, power: real, holdPower: real, countdown: int)

  /** The state at boot: unknown mode, every power at 0.5, no cooldown pending. */
  const BOOT: ControlState := ControlState(Unknown, INITIAL_POWER, INITIAL_POWER, 0)

  /**
   * One pass of the state machine for the target delta `delta`. A state/delta
   * pair that no rule covers leaves everything as it was.
   */
  function Transition(c: ControlState, correctionPower: real, delta: real): (r: ControlState)
    // every rule that fires changes the mode: staying in a mode changes nothing
    ensures r.state == c.state ==> r == c
    // hold power moves by at most one step, and only when leaving Holding
    ensures r.holdPower != c.holdPower ==> c.state == Holding && r.state != Holding
    ensures r.holdPower == c.holdPower || r.holdPower == c.holdPower + HOLD_STEP
            || r.holdPower == c.holdPower - HOLD_STEP
    // the cooldown is only ever re-armed from zero
    ensures r.countdown == c.countdown || (c.countdown == 0 && r.countdown == COOLDOWN)
  {
    match c.state
    case Unknown =>
      if delta < -BAND then c.(state := Cooling, power := 0.0)
      else if delta > BAND then c.(state := Heating, power := correctionPower)
      else if -BAND < delta < BAND then c.(state := Holding, power := c.holdPower)
      else c
    case Heating =>
      if delta < BAND then c.(state := Holding, power := c.holdPower) else c
    case Holding =>
      if delta < -BAND then
        if c.countdown == 0 then
          c.(state := Cooling, power := 0.0, holdPower := c.holdPower - HOLD_STEP, countdown := COOLDOWN)
        else c.(state := Cooling, power := 0.0)
      else if delta > BAND then
        c.(state := Heating, power := correctionPower, holdPower := c.holdPower + HOLD_STEP)
      else c
    case Cooling =>
      if delta > -BAND then c.(state := Holding, power := c.holdPower) else c
  }

  /** The end-of-iteration countdown update: decrement while positive. */
  function Tick(c: ControlState): (r: ControlState)
    ensures c.countdown > 0 ==> r.countdown == c.countdown - 1
    ensures c.countdown <= 0 ==> r.countdown == c.countdown
    ensures r.(countdown := c.countdown) == c
  {
    c.(countdown := if c.countdown > 0 then c.countdown - 1 else c.countdown)
  }

  /** One loop iteration's effect on the control state. */
  function Iterate(c: ControlState, correctionPower: real, delta: real): ControlState
  {
    Tick(Transition(c, correctionPower, delta))
  }

  /** The control state after one iteration per target delta in `deltas`, first delta first. */
  function Run(c: ControlState, correctionPower: real, deltas: seq<real>): ControlState
    decreases |deltas|
  {
    if deltas == [] then c
    else Run(Iterate(c, correctionPower, deltas[0]), correctionPower, deltas[1..])
  }

  /**
   * The invariant tying the power setting to the mode: Unknown keeps the boot
   * values, Heating runs at the correction power, Holding at the hold power,
   * Cooling at zero; the countdown stays in [0, COOLDOWN].
   */
  ghost predicate Consistent(c: ControlState, correctionPower: real)
  {
    && 0 <= c.countdown <= COOLDOWN
    && match c.state
       case Unknown => c.power == INITIAL_POWER && c.holdPower == INITIAL_POWER && c.countdown == 0
       case Heating => c.power == correctionPower
       case Holding => c.power == c.holdPower
       case Cooling => c.power == 0.0
  }

  /** The power setting is always 0.5, 0, the correction power or the current hold power. */
  lemma ConsistentPower(c: ControlState, correctionPower: real)
    requires Consistent(c, correctionPower)
    ensures c.power in {INITIAL_POWER, 0.0, correctionPower, c.holdPower}
  {
  }

  /** Every iteration keeps the mode/power invariant. */
  lemma IterateConsistent(c: ControlState, correctionPower: real, delta: real)
    requires Consistent(c, correctionPower)
    ensures Consistent(Iterate(c, correctionPower, delta), correctionPower)
  {
  }

  /** Any number of iterations from any state that satisfies it keeps the invariant too. */
  lemma {:induction false} RunConsistent(c: ControlState, correctionPower: real, deltas: seq<real>)
    requires Consistent(c, correctionPower)
    ensures Consistent(Run(c, correctionPower, deltas), correctionPower)
    decreases |deltas|
  {
    if deltas != [] {
      IterateConsistent(c, correctionPower, deltas[0]);
      RunConsistent(Iterate(c, correctionPower, deltas[0]), correctionPower, deltas[1..]);
    }
  }

  /** The transitions out of Unknown, including the two deltas (exactly +-0.5) that match no rule. */
  lemma UnknownTransitions(c: ControlState, correctionPower: real, delta: real)
    requires c.state == Unknown
    ensures var r := Transition(c, correctionPower, delta);
      && (r.state == Cooling <==> delta < -BAND)
      && (r.state == Heating <==> delta > BAND)
      && (r.state == Holding <==> -BAND < delta < BAND)
      && (r.state == Unknown <==> delta == BAND || delta == -BAND)
      && (r.state == Cooling ==> r.power == 0.0)
      && (r.state == Heating ==> r.power == correctionPower)
      && (r.state == Holding ==> r.power == c.holdPower)
      && r.holdPower == c.holdPower && r.countdown == c.countdown
  {
  }

  /** When each mode is kept: exactly for the deltas its rules do not cover. */
  lemma ModeKept(c: ControlState, correctionPower: real, delta: real)
    ensures var kept := Transition(c, correctionPower, delta) == c;
      match c.state
      case Unknown => kept <==> delta == BAND || delta == -BAND
      case Heating => kept <==> delta >= BAND
      case Holding => kept <==> -BAND <= delta <= BAND
      case Cooling => kept <==> delta <= -BAND
  {
  }

  /** Heating and Cooling return to Holding at the current hold power once the delta re-enters the band side. */
  lemma ReturnToHolding(c: ControlState, correctionPower: real, delta: real)
    requires (c.state == Heating && delta < BAND) || (c.state == Cooling && delta > -BAND)
    ensures Transition(c, correctionPower, delta)
            == c.(state := Holding, power := c.holdPower)
  {
  }

  /**
   * Leaving Holding: too hot gives Cooling at power 0, lowering hold power by
   * one step only when no cooldown is pending; too cold gives Heating at the
   * correction power and always raises hold power by one step.
   */
  lemma HoldingExits(c: ControlState, correctionPower: real, delta: real)
    requires c.state == Holding
    ensures var r := Transition(c, correctionPower, delta);
      && (delta < -BAND ==>
            && r.state == Cooling && r.power == 0.0
            && (c.countdown == 0 ==> r.holdPower == c.holdPower - HOLD_STEP && r.countdown == COOLDOWN)
            && (c.countdown != 0 ==> r.holdPower == c.holdPower && r.countdown == c.countdown))
      && (delta > BAND ==>
            && r.state == Heating && r.power == correctionPower
            && r.holdPower == c.holdPower + HOLD_STEP && r.countdown == c.countdown)
  {
  }

  /** +1, -1 or 0: the hold-power correction made by one iteration. */
  function HoldAdjust(c: ControlState, correctionPower: real, delta: real): (k: int)
    ensures -1 <= k <= 1
    ensures Iterate(c, correctionPower, delta).holdPower == c.holdPower + (k as real) * HOLD_STEP
  {
    var r := Transition(c, correctionPower, delta);
    if r.holdPower > c.holdPower then 1 else if r.holdPower < c.holdPower then -1 else 0
  }

  /** The net number of hold-power steps over a run. */
  function NetHoldSteps(c: ControlState, correctionPower: real, deltas: seq<real>): int
    decreases |deltas|
  {
    if deltas == [] then 0
    else HoldAdjust(c, correctionPower, deltas[0])
         + NetHoldSteps(Iterate(c, correctionPower, deltas[0]), correctionPower, deltas[1..])
  }

  /**
   * Hold power only ever moves in whole steps of 0.1: after any run its change
   * is an integer multiple of the step, of size at most one step per iteration.
   */
  lemma {:induction false} RunHoldPower(c: ControlState, correctionPower: real, deltas: seq<real>)
    ensures Run(c, correctionPower, deltas).holdPower
            == c.holdPower + (NetHoldSteps(c, correctionPower, deltas) as real) * HOLD_STEP
    ensures -|deltas| <= NetHoldSteps(c, correctionPower, deltas) <= |deltas|
    decreases |deltas|
  {
    if deltas != [] {
      RunHoldPower(Iterate(c, correctionPower, deltas[0]), correctionPower, deltas[1..]);
    }
  }

  /**
   * While a cooldown of `countdown` iterations is pending, the next `countdown`
   * iterations never lower hold power, and the countdown falls by one each time.
   */
  lemma {:induction false} CooldownBlocksLowering(c: ControlState, correctionPower: real, deltas: seq<real>)
    requires |deltas| <= c.countdown
    ensures Run(c, correctionPower, deltas).holdPower >= c.holdPower
    ensures Run(c, correctionPower, deltas).countdown == c.countdown - |deltas|
    decreases |deltas|
  {
    if deltas != [] {
      CooldownBlocksLowering(Iterate(c, correctionPower, deltas[0]), correctionPower, deltas[1..]);
    }
  }

  /**
   * Two downward corrections of hold power are at least COOLDOWN iterations
   * apart: none of the COOLDOWN - 1 iterations after one lowers hold power
   * again, and hold power never ends below its value right after the correction.
   */
  lemma DownwardCorrectionsSpaced(c: ControlState, correctionPower: real, delta: real, deltas: seq<real>)
    requires Iterate(c, correctionPower, delta).holdPower < c.holdPower
    requires |deltas| <= COOLDOWN - 1
    ensures var after := Iterate(c, correctionPower, delta);
      forall i | 0 <= i < |deltas| ::
        Iterate(Run(after, correctionPower, deltas[..i]), correctionPower, deltas[i]).holdPower
        >= Run(after, correctionPower, deltas[..i]).holdPower
    ensures var after := Iterate(c, correctionPower, delta);
      Run(after, correctionPower, deltas).holdPower >= after.holdPower
  {
    var after := Iterate(c, correctionPower, delta);
    CooldownBlocksLowering(after, correctionPower, deltas);
    forall i | 0 <= i < |deltas|
      ensures Iterate(Run(after, correctionPower, deltas[..i]), correctionPower, deltas[i]).holdPower
              >= Run(after, correctionPower, deltas[..i]).holdPower
    {
      var mid := Run(after, correctionPower, deltas[..i]);
      CooldownBlocksLowering(after, correctionPower, deltas[..i]);
      CooldownBlocksLowering(mid, correctionPower, [deltas[i]]);
      assert Run(mid, correctionPower, [deltas[i]]) == Iterate(mid, correctionPower, deltas[i]);
    }
  }

  /**
   * Cold boot with target 35: averages 20.0, 34.6, 35.6 and 35.1 give the
   * deltas 15.0, 0.4, -0.6 and -0.1 and walk Unknown -> Heating -> Holding ->
   * Cooling -> Holding, ending at hold power 0.4.
   */
  lemma ColdBootScenario()
    ensures Run(BOOT, INITIAL_POWER, [15.0]).state == Heating
    ensures Run(BOOT, INITIAL_POWER, [15.0]).power == INITIAL_POWER
    ensures Run(BOOT, INITIAL_POWER, [15.0, 0.4]) == ControlState(Holding, 0.5, 0.5, 0)
    ensures Run(BOOT, INITIAL_POWER, [15.0, 0.4, -0.6]) == ControlState(Cooling, 0.0, 0.4, COOLDOWN - 1)
    ensures Run(BOOT, INITIAL_POWER, [15.0, 0.4, -0.6, -0.1]) == ControlState(Holding, 0.4, 0.4, COOLDOWN - 2)
  {
    var s1 := Iterate(BOOT, INITIAL_POWER, 15.0);
    var s2 := Iterate(s1, INITIAL_POWER, 0.4);
    var s3 := Iterate(s2, INITIAL_POWER, -0.6);
    assert [15.0, 0.4, -0.6, -0.1][1..] == [0.4, -0.6, -0.1];
    assert [0.4, -0.6, -0.1][1..] == [-0.6, -0.1];
    assert [-0.6, -0.1][1..] == [-0.1];
    assert [15.0, 0.4, -0.6][1..] == [0.4, -0.6];
    assert [0.4, -0.6][1..] == [-0.6];
    assert [15.0, 0.4][1..] == [0.4];
  }
}
