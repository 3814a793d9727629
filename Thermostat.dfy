/**
 * One iteration of the single-zone thermostat loop.
 *
 * `Controller` owns what the firmware keeps in globals: the four ring buffers,
 * the mode, the power setting, the correction and hold powers, the
 * hold-power correction countdown, the duty-cycle counter and the last
 * average. `Step` runs one pass of the loop body for a temperature sample and
 * returns the heater decision; reading the sensor, driving the pin, printing
 * telemetry and sleeping are left to the caller.
 */
module Thermostat {
  import opened RingBuffers
  import opened Averaging
  import opened Hysteresis
  import opened DutyCycle

  const TARGET_TEMP: real := 35.0
  const TEMP_BUFFER_SIZE: nat := 100
  const TEMP_DELTA_BUFFER_SIZE: nat := 10
  const TEMP_TARGET_DELTA_BUFFER_SIZE: nat := 10
  const AV_TEMP_BUFFER_SIZE: nat := 10

  class Controller {
    /** Raw samples. */
    const temperatureBuffer: RingBuffer
    /** The average computed in each iteration. */
    const averageTemperatureBuffer: RingBuffer
    /** Average minus the previous average, per iteration. */
    const temperatureDeltaBuffer: RingBuffer
    /** Target minus average, per iteration. */
    const temperatureTargetDeltaBuffer: RingBuffer

    var state: Mode
    var powerSetting: real
    var correctionPower: real
    var holdPower: real
    var hpCorrectionCountdown: int
    var controlCycle: int
    /** The previous iteration's average (0.0 before the first iteration). */
    var lastTemp: real
    /** Net number of 0.1 corrections applied to hold power since boot. */
    ghost var holdSteps: int

    /** The buffer objects and their storage. */
    ghost function Repr(): set<object>
    {
      {temperatureBuffer, averageTemperatureBuffer, temperatureDeltaBuffer, temperatureTargetDeltaBuffer,
       temperatureBuffer.data, averageTemperatureBuffer.data, temperatureDeltaBuffer.data,
       temperatureTargetDeltaBuffer.data}
    }

    /** The four buffers are distinct, valid and of the configured capacities. */
    ghost predicate BuffersValid()
      reads this, Repr()
    {
      && temperatureBuffer != averageTemperatureBuffer
      && temperatureBuffer != temperatureDeltaBuffer
      && temperatureBuffer != temperatureTargetDeltaBuffer
      && averageTemperatureBuffer != temperatureDeltaBuffer
      && averageTemperatureBuffer != temperatureTargetDeltaBuffer
      && temperatureDeltaBuffer != temperatureTargetDeltaBuffer
      && temperatureBuffer.data != averageTemperatureBuffer.data
      && temperatureBuffer.data != temperatureDeltaBuffer.data
      && temperatureBuffer.data != temperatureTargetDeltaBuffer.data
      && averageTemperatureBuffer.data != temperatureDeltaBuffer.data
      && averageTemperatureBuffer.data != temperatureTargetDeltaBuffer.data
      && temperatureDeltaBuffer.data != temperatureTargetDeltaBuffer.data
      && temperatureBuffer.Valid() && temperatureBuffer.capacity == TEMP_BUFFER_SIZE
      && averageTemperatureBuffer.Valid() && averageTemperatureBuffer.capacity == AV_TEMP_BUFFER_SIZE
      && temperatureDeltaBuffer.Valid() && temperatureDeltaBuffer.capacity == TEMP_DELTA_BUFFER_SIZE
      && temperatureTargetDeltaBuffer.Valid()
      && temperatureTargetDeltaBuffer.capacity == TEMP_TARGET_DELTA_BUFFER_SIZE
    }

    /** The state-machine part of the controller. */
    function Control(): ControlState
      reads this
    {
      ControlState(state, powerSetting, holdPower, hpCorrectionCountdown)
    }

    /**
     * The controller invariant: valid buffers, correction power fixed at 0.5,
     * power consistent with the mode, hold power 0.5 plus a whole number of
     * 0.1 steps, countdown in [0, 10] and control cycle in [0, 100].
     */
    ghost predicate Valid()
      reads this, Repr()
    {
      && BuffersValid()
      && correctionPower == INITIAL_POWER
      && Consistent(Control(), correctionPower)
      && holdPower == INITIAL_POWER + (holdSteps as real) * HOLD_STEP
      && 0 <= controlCycle <= CYCLE_MAX
    }

    /** The boot state: zero-filled buffers, unknown mode, all powers 0.5, control cycle 1. */
    constructor ()
      ensures Valid() && fresh(Repr())
      ensures Control() == BOOT && correctionPower == INITIAL_POWER
      ensures controlCycle == 1 && lastTemp == 0.0
      ensures temperatureBuffer.inserted == [] && averageTemperatureBuffer.inserted == []
      ensures temperatureDeltaBuffer.inserted == [] && temperatureTargetDeltaBuffer.inserted == []
    {
      temperatureBuffer := new RingBuffer(TEMP_BUFFER_SIZE);
      averageTemperatureBuffer := new RingBuffer(AV_TEMP_BUFFER_SIZE);
      temperatureDeltaBuffer := new RingBuffer(TEMP_DELTA_BUFFER_SIZE);
      temperatureTargetDeltaBuffer := new RingBuffer(TEMP_TARGET_DELTA_BUFFER_SIZE);
      state := Unknown;
      powerSetting := INITIAL_POWER;
      correctionPower := INITIAL_POWER;
      holdPower := INITIAL_POWER;
      hpCorrectionCountdown := 0;
      controlCycle := 1;
      lastTemp := 0.0;
      holdSteps := 0;
    }

    /** Store a raw sample. */
    method UpdateTempBuffer(temperature: real)
      requires BuffersValid()
      modifies temperatureBuffer, temperatureBuffer.data
      ensures BuffersValid()
      ensures temperatureBuffer.data[..] == old(temperatureBuffer.data[..])[old(temperatureBuffer.cursor) := temperature]
      ensures temperatureBuffer.cursor == (old(temperatureBuffer.cursor) + 1) % TEMP_BUFFER_SIZE
      ensures temperatureBuffer.inserted == old(temperatureBuffer.inserted) + [temperature]
    {
      temperatureBuffer.Insert(temperature);
    }

    /** Store an average. */
    method UpdateAverageTempBuffer(temperature: real)
      requires BuffersValid()
      modifies averageTemperatureBuffer, averageTemperatureBuffer.data
      ensures BuffersValid()
      ensures averageTemperatureBuffer.data[..]
              == old(averageTemperatureBuffer.data[..])[old(averageTemperatureBuffer.cursor) := temperature]
      ensures averageTemperatureBuffer.cursor == (old(averageTemperatureBuffer.cursor) + 1) % AV_TEMP_BUFFER_SIZE
      ensures averageTemperatureBuffer.inserted == old(averageTemperatureBuffer.inserted) + [temperature]
    {
      averageTemperatureBuffer.Insert(temperature);
    }

    /** Store a sample-to-sample delta. */
    method UpdateTempDeltaBuffer(delta: real)
      requires BuffersValid()
      modifies temperatureDeltaBuffer, temperatureDeltaBuffer.data
      ensures BuffersValid()
      ensures temperatureDeltaBuffer.data[..]
              == old(temperatureDeltaBuffer.data[..])[old(temperatureDeltaBuffer.cursor) := delta]
      ensures temperatureDeltaBuffer.cursor == (old(temperatureDeltaBuffer.cursor) + 1) % TEMP_DELTA_BUFFER_SIZE
      ensures temperatureDeltaBuffer.inserted == old(temperatureDeltaBuffer.inserted) + [delta]
    {
      temperatureDeltaBuffer.Insert(delta);
    }

    /** Store a target delta. The source advances this cursor modulo TEMP_DELTA_BUFFER_SIZE, also 10. */
    method UpdateTargetTempDeltaBuffer(delta: real)
      requires BuffersValid()
      modifies temperatureTargetDeltaBuffer, temperatureTargetDeltaBuffer.data
      ensures BuffersValid()
      ensures temperatureTargetDeltaBuffer.data[..]
              == old(temperatureTargetDeltaBuffer.data[..])[old(temperatureTargetDeltaBuffer.cursor) := delta]
      ensures temperatureTargetDeltaBuffer.cursor
              == (old(temperatureTargetDeltaBuffer.cursor) + 1) % TEMP_DELTA_BUFFER_SIZE
      ensures temperatureTargetDeltaBuffer.inserted == old(temperatureTargetDeltaBuffer.inserted) + [delta]
    {
      temperatureTargetDeltaBuffer.Insert(delta);
    }

    /** The mean of the raw samples, skipping slots that still hold 0.0. */
    method CalculateAverageTemp() returns (average: real)
      requires BuffersValid()
      requires |NonZero(temperatureBuffer.data[..])| > 0
      ensures average == Mean(temperatureBuffer.data[..])
    {
      var data := temperatureBuffer.data;
      var sum := 0.0;
      var count := 0;
      var i := 0;
      while i < TEMP_BUFFER_SIZE
        invariant 0 <= i <= TEMP_BUFFER_SIZE
        invariant sum == Sum(NonZero(data[..i]))
        invariant count == |NonZero(data[..i])|
      {
        var x := data[i];
        ghost var done := data[..i];
        assert data[..i + 1] == done + [x];
        NonZeroSnoc(done, x);
        if x != 0.0 {
          SumSnoc(NonZero(done), x);
          sum := sum + x;
          count := count + 1;
        } else {
          assert NonZero(done + [x]) == NonZero(done);
        }
        i := i + 1;
        assert sum == Sum(NonZero(done + [x]));
      }
      assert data[..i] == data[..];
      average := sum / (count as real);
    }

    /**
     * The control logic as the source writes it: an ordered chain of
     * (mode, delta) tests, the first match wins, and no match changes nothing.
     */
    method ControlLogic(targetDelta: real)
      modifies this`state, this`powerSetting, this`holdPower, this`hpCorrectionCountdown, this`holdSteps
      ensures Control() == Transition(old(Control()), correctionPower, targetDelta)
      ensures holdSteps == old(holdSteps) + (if holdPower > old(holdPower) then 1
                                             else if holdPower < old(holdPower) then -1 else 0)
    {
      if state == Unknown && targetDelta < -BAND {
        state := Cooling;
        powerSetting := 0.0;
      } else if state == Unknown && targetDelta > BAND {
        state := Heating;
        powerSetting := correctionPower;
      } else if state == Unknown && (targetDelta < BAND && targetDelta > -BAND) {
        state := Holding;
        powerSetting := holdPower;
      } else if state == Heating && targetDelta < BAND {
        state := Holding;
        powerSetting := holdPower;
      } else if state == Holding && targetDelta < -BAND {
        state := Cooling;
        if hpCorrectionCountdown == 0 {
          holdPower := holdPower - HOLD_STEP;
          holdSteps := holdSteps - 1;
          hpCorrectionCountdown := COOLDOWN;
        }
        powerSetting := 0.0;
      } else if state == Holding && targetDelta > BAND {
        state := Heating;
        holdPower := holdPower + HOLD_STEP;
        holdSteps := holdSteps + 1;
        powerSetting := correctionPower;
      } else if state == Cooling && targetDelta > -BAND {
        state := Holding;
        powerSetting := holdPower;
      }
    }

    /** The heater is on exactly when the power is non-zero and the cycle fraction is below it. */
    method HeaterDecision() returns (on: bool)
      ensures on <==> powerSetting != 0.0 && (controlCycle as real) / 100.0 < powerSetting
      ensures on == HeaterOn(powerSetting, controlCycle)
    {
      var cycle := (controlCycle as real) / 100.0;
      if powerSetting == 0.0 {
        on := false;
      } else if powerSetting <= cycle {
        on := false;
      } else {
        on := true;
      }
    }

    /** Advance the control cycle (100 wraps to 0) and count the cooldown down to 0. */
    method ResetCounters()
      requires 0 <= controlCycle <= CYCLE_MAX
      modifies this`controlCycle, this`hpCorrectionCountdown
      ensures controlCycle == NextCycle(old(controlCycle))
      ensures old(hpCorrectionCountdown) > 0 ==> hpCorrectionCountdown == old(hpCorrectionCountdown) - 1
      ensures old(hpCorrectionCountdown) <= 0 ==> hpCorrectionCountdown == old(hpCorrectionCountdown)
    {
      if controlCycle == 100 {
        controlCycle := 0;
      } else {
        controlCycle := controlCycle + 1;
      }
      if hpCorrectionCountdown > 0 {
        hpCorrectionCountdown := hpCorrectionCountdown - 1;
      }
    }

    /**
     * The data-aggregation half of an iteration: buffer the sample, average
     * the raw buffer, and record the average, the delta from the previous
     * average and the delta to the target. Returns the target delta.
     */
    method Aggregate(temp: real) returns (targetDelta: real)
      requires BuffersValid()
      requires |NonZero(temperatureBuffer.data[..][temperatureBuffer.cursor := temp])| > 0
      modifies Repr(), this`lastTemp
      ensures BuffersValid()
      ensures temperatureBuffer.inserted == old(temperatureBuffer.inserted) + [temp]
      ensures temperatureBuffer.data[..] == old(temperatureBuffer.data[..])[old(temperatureBuffer.cursor) := temp]
      ensures lastTemp == Mean(temperatureBuffer.data[..])
      ensures averageTemperatureBuffer.inserted == old(averageTemperatureBuffer.inserted) + [lastTemp]
      ensures temperatureDeltaBuffer.inserted == old(temperatureDeltaBuffer.inserted) + [lastTemp - old(lastTemp)]
      ensures temperatureTargetDeltaBuffer.inserted
              == old(temperatureTargetDeltaBuffer.inserted) + [TARGET_TEMP - lastTemp]
      ensures targetDelta == TARGET_TEMP - lastTemp
    {
      UpdateTempBuffer(temp);
      var averageTemp := CalculateAverageTemp();
      UpdateAverageTempBuffer(averageTemp);

      var tempDelta := averageTemp - lastTemp;
      lastTemp := averageTemp;
      UpdateTempDeltaBuffer(tempDelta);

      targetDelta := TARGET_TEMP - averageTemp;
      UpdateTargetTempDeltaBuffer(targetDelta);
    }

    /**
     * One loop iteration for the sample `temp`: aggregate, run the state
     * machine on target minus average, decide the heater from the power
     * setting and the current control cycle, then advance the counters.
     * Requires at least one non-zero raw slot once `temp` is stored.
     */
    method Step(temp: real) returns (heaterOn: bool)
      requires Valid()
      requires |NonZero(temperatureBuffer.data[..][temperatureBuffer.cursor := temp])| > 0
      modifies this, Repr()
      ensures Valid()
      ensures temperatureBuffer.inserted == old(temperatureBuffer.inserted) + [temp]
      ensures temperatureBuffer.data[..] == old(temperatureBuffer.data[..])[old(temperatureBuffer.cursor) := temp]
      ensures lastTemp == Mean(temperatureBuffer.data[..])
      ensures averageTemperatureBuffer.inserted == old(averageTemperatureBuffer.inserted) + [lastTemp]
      ensures temperatureDeltaBuffer.inserted == old(temperatureDeltaBuffer.inserted) + [lastTemp - old(lastTemp)]
      ensures temperatureTargetDeltaBuffer.inserted
              == old(temperatureTargetDeltaBuffer.inserted) + [TARGET_TEMP - lastTemp]
      ensures Control() == Iterate(old(Control()), correctionPower, TARGET_TEMP - lastTemp)
      ensures correctionPower == old(correctionPower)
      ensures controlCycle == NextCycle(old(controlCycle))
      ensures heaterOn == HeaterOn(powerSetting, old(controlCycle))
    {
      var targetDelta := Aggregate(temp);

      ghost var before := Control();
      ControlLogic(targetDelta);
      IterateConsistent(before, correctionPower, targetDelta);

      heaterOn := HeaterDecision();
      ResetCounters();
    }
  }

  /**
   * Cold boot, first iteration: the sample 20.0 is the only reading, so the
   * average is 20.0 and the target delta 15.0 takes Unknown to Heating at the
   * correction power; the heater is on because the control cycle starts at 1.
   */
  method ColdBootFirstIteration() returns (c: Controller, heaterOn: bool)
    ensures c.lastTemp == 20.0
    ensures c.state == Heating && c.powerSetting == INITIAL_POWER
    ensures heaterOn && c.controlCycle == 2
  {
    c := new Controller();
    assert c.temperatureBuffer.data[..] == seq(TEMP_BUFFER_SIZE, _ => 0.0);
    SingleReading(TEMP_BUFFER_SIZE, 0, 20.0);
    heaterOn := c.Step(20.0);
  }
}
