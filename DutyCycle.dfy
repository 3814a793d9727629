/**
 * The duty-cycle modulator: the heater is driven on for the leading part of a
 * window of control cycles, in proportion to the power setting.
 *
 * `control_cycle` runs 1, 2, ..., 100, 0, 1, ...: it is reset to 0 only once
 * it equals 100, so a full window has 101 values.
 */
module DutyCycle {

  /** The divisor that turns the control cycle into a fraction of the window. */
  const CYCLE_DIVISOR: real := 100.0
  /** The last value the control cycle takes before it is reset to 0. */
  const CYCLE_MAX: int := 100

  /**
   * The heater decision as the source tests it: off at power 0, off once the
   * cycle fraction has reached the power setting, on otherwise.
   */
  function HeaterOn(power: real, controlCycle: int): (on: bool)
    ensures on <==> power != 0.0 && (controlCycle as real) / CYCLE_DIVISOR < power
  {
    if power == 0.0 then false
    else if power <= (controlCycle as real) / CYCLE_DIVISOR then false
    else true
  }

  /** The end-of-iteration update of the control cycle. */
  function NextCycle(controlCycle: int): (r: int)
    requires 0 <= controlCycle <= CYCLE_MAX
    ensures 0 <= r <= CYCLE_MAX
    ensures r == (controlCycle + 1) % (CYCLE_MAX + 1)
  {
    if controlCycle == CYCLE_MAX then 0 else controlCycle + 1
  }

  /** The control cycle after `k` iterations starting from `controlCycle`. */
  function CycleAfter(controlCycle: int, k: nat): int
    requires 0 <= controlCycle <= CYCLE_MAX
    decreases k
  {
    if k == 0 then controlCycle else CycleAfter(NextCycle(controlCycle), k - 1)
  }

  /** The control cycle counts iterations modulo 101: it returns to any value every 101 iterations. */
  lemma {:induction false} CycleAfterIsModular(controlCycle: int, k: nat)
    requires 0 <= controlCycle <= CYCLE_MAX
    ensures CycleAfter(controlCycle, k) == (controlCycle + k) % (CYCLE_MAX + 1)
    decreases k
  {
    if k > 0 {
      var next := NextCycle(controlCycle);
      CycleAfterIsModular(next, k - 1);
      assert (controlCycle + k) % 101 == (next + k - 1) % 101 by {
        if controlCycle == CYCLE_MAX {
          assert controlCycle + k == next + k - 1 + 101;
        }
      }
    }
  }

  /** Number of control cycles 0 .. n - 1 in which the heater is on at power `power`. */
  function OnCount(power: real, n: nat): (count: nat)
    ensures count <= n
  {
    if n == 0 then 0 else OnCount(power, n - 1) + (if HeaterOn(power, n - 1) then 1 else 0)
  }

  /**
   * At power k/100 the heater is on in exactly the first k control cycles of
   * the window: cycles 0 .. k - 1 are on and every later one is off.
   */
  lemma {:induction false} OnCountAtPercent(k: nat, n: nat)
    ensures OnCount((k as real) / CYCLE_DIVISOR, n) == if n < k then n else k
    ensures n < k ==> HeaterOn((k as real) / CYCLE_DIVISOR, n)
    ensures k <= n ==> !HeaterOn((k as real) / CYCLE_DIVISOR, n)
    decreases n
  {
    if n > 0 {
      OnCountAtPercent(k, n - 1);
    }
  }

  /**
   * Over one full window of 101 control cycles, a power of k/100 with
   * 0 <= k <= 100 keeps the heater on for exactly k cycles; a power above 1
   * (hold power is not clamped) keeps it on for the whole window.
   */
  lemma WindowOnCount(k: nat)
    ensures k <= CYCLE_MAX ==> OnCount((k as real) / CYCLE_DIVISOR, CYCLE_MAX + 1) == k
    ensures k > CYCLE_MAX ==> OnCount((k as real) / CYCLE_DIVISOR, CYCLE_MAX + 1) == CYCLE_MAX + 1
  {
    OnCountAtPercent(k, CYCLE_MAX + 1);
  }
}
