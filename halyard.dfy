/** The halyard motor (`HalyardManager`, HalyardManager.cpp/.h). Every member
    of the firmware's class is static, so there is exactly one motor; the
    model is one object holding that static state. The millisecond clock
    (`millis()`, 32 bits, wrapping) and the sensed motor current in amperes
    are parameters of the operations that read them; the pins the firmware
    writes are the output fields `dirOut`, `pwmOut` and `enableOut`. */
module Halyard {
  import opened Wrappers
  import opened Millis

  /** Direction of travel. */
  datatype Direction = CW | CCW

  /** The default of `runMotor`'s ramp time. */
  const DEFAULT_RAMP_MS: u32 := 300

  /** The stall limit before any configuration, in amperes. */
  const DEFAULT_STALL_AMPS: real := 1.8

  /** The duty part-way through a ramp: `target * elapsed / duration`,
      the fraction truncated to an integer. */
  function RampSpeed(target: u8, elapsed: u32, duration: u32): (r: u8)
    requires elapsed < duration
    ensures r <= target
    ensures elapsed == 0 ==> r == 0
  {
    var p: int := target as int * elapsed as int;
    RampFractionBelowWhole(target, elapsed, duration);
    p / duration as int
  }

  lemma RampFractionBelowWhole(target: nat, elapsed: nat, duration: nat)
    requires elapsed < duration
    ensures 0 <= (target * elapsed) / duration <= target
    ensures elapsed == 0 ==> (target * elapsed) / duration == 0
  {
    assert target * elapsed <= target * duration by {
      MulLeftMono(target, elapsed, duration);
    }
    DivMono(target * elapsed, target * duration, duration);
    assert (target * duration) / duration == target;
  }

  lemma MulLeftMono(k: nat, a: nat, b: nat)
    requires a <= b
    ensures k * a <= k * b
  {
  }

  lemma {:induction false} DivMono(a: nat, b: nat, d: nat)
    requires a <= b && d > 0
    ensures a / d <= b / d
  {
    if a / d > b / d {
      assert d * (a / d) <= a;
      assert d * (b / d) + d > b;
      assert d * (b / d + 1) <= d * (a / d) by {
        MulLeftMono(d, b / d + 1, a / d);
      }
    }
  }

  /** The ramp never falls back: more elapsed time gives at least as much duty. */
  lemma RampSpeedMonotone(target: u8, e1: u32, e2: u32, duration: u32)
    requires e1 <= e2 < duration
    ensures RampSpeed(target, e1, duration) <= RampSpeed(target, e2, duration)
  {
    MulLeftMono(target, e1, e2);
    DivMono(target * e1, target * e2, duration);
  }

  /** The time-based stop test of `update`: a stop time is set and reached. */
  predicate StopDue(stopTime: u32, now: u32) {
    stopTime > 0 && now >= stopTime
  }

  /** A run armed with duration 0 at any instant but 0 is due to stop on the
      very next reading of the clock that has not wrapped. */
  lemma ZeroDurationIsDueAtOnce(start: u32, now: u32)
    requires start > 0 && start <= now
    ensures StopDue(Add32(start, 0), now)
  {
  }

  /** A run carries no stop time exactly when its start plus its duration is
      0 modulo 2^32: armed at instant 0 with duration 0, or a sum that wraps
      to 0. */
  lemma NoStopTimeOnlyFromZero(start: u32, duration: u32)
    ensures Add32(start, duration) == 0 <==> start + duration == 0 || start + duration == MOD32
  {
  }

  class HalyardManager {
    var dirPin: int
    var pwmPin: int
    var running: bool
    var stopTime: u32
    /** Where the flag is headed and where it was last confirmed; `None`
        is the null pointer. */
    var targetPosition: Option<string>
    var currentPosition: Option<string>
    var targetSpeed: u8
    var currentSpeed: u8
    var rampStartTime: u32
    var rampDuration: u32
    var rampActive: bool
    /** File-level state beside the class: the stall limit and the latched
        stall flag. */
    var stallLimitAmps: real
    var stall: bool
    /** Pin outputs: direction (HIGH is clockwise), PWM duty, driver enable. */
    var dirOut: bool
    var pwmOut: u8
    var enableOut: bool

    /** The driver is enabled only during a run, and while enabled it is
        driven at the current speed, which never exceeds the target. */
    ghost predicate Valid()
      reads this
    {
      (enableOut ==> running && pwmOut == currentSpeed) && currentSpeed <= targetSpeed
    }

    /** The static initialisers: no pins, not running, no positions, target
        speed 255, speed 0, no ramp, no stall, limit 1.8 A. */
    constructor ()
      ensures Valid()
      ensures dirPin == -1 && pwmPin == -1 && !running && stopTime == 0
      ensures targetPosition == None && currentPosition == None
      ensures targetSpeed == 255 && currentSpeed == 0 && rampStartTime == 0 && rampDuration == 0 && !rampActive
      ensures stallLimitAmps == DEFAULT_STALL_AMPS && !stall
      ensures !enableOut && pwmOut == 0 && !dirOut
    {
      dirPin, pwmPin := -1, -1;
      running, stopTime := false, 0;
      targetPosition, currentPosition := None, None;
      targetSpeed, currentSpeed := 255, 0;
      rampStartTime, rampDuration, rampActive := 0, 0, false;
      stallLimitAmps, stall := DEFAULT_STALL_AMPS, false;
      dirOut, pwmOut, enableOut := false, 0, false;
    }

    /** `initialize`: take the pins and drive them low, the driver disabled. */
    method Initialize(dir: int, pwm: int)
      requires Valid()
      modifies this`dirPin, this`pwmPin, this`dirOut, this`pwmOut, this`enableOut
      ensures Valid()
      ensures dirPin == dir && pwmPin == pwm
      ensures !dirOut && pwmOut == 0 && !enableOut
    {
      dirPin, pwmPin := dir, pwm;
      dirOut := false;
      pwmOut := 0;
      enableOut := false;
    }

    /** `runMotor`: unless a pin is missing, set the direction, start the
        ramp from duty 0, enable the driver and arm the stop time. The stall
        flag is left as it is. */
    method RunMotor(dir: Direction, durationMs: u32, speed: u8, rampTimeMs: u32, now: u32)
      requires Valid()
      modifies this`dirOut, this`targetSpeed, this`currentSpeed, this`rampStartTime, this`rampDuration,
               this`rampActive, this`pwmOut, this`enableOut, this`stopTime, this`running
      ensures Valid()
      ensures (dirPin == -1 || pwmPin == -1) ==>
                dirOut == old(dirOut) && targetSpeed == old(targetSpeed) && currentSpeed == old(currentSpeed)
                && rampStartTime == old(rampStartTime) && rampDuration == old(rampDuration)
                && rampActive == old(rampActive) && pwmOut == old(pwmOut) && enableOut == old(enableOut)
                && stopTime == old(stopTime) && running == old(running)
      ensures (dirPin != -1 && pwmPin != -1) ==>
                dirOut == (dir == CW) && targetSpeed == speed && currentSpeed == 0
                && rampStartTime == now && rampDuration == rampTimeMs && (rampActive <==> rampTimeMs > 0)
                && pwmOut == 0 && enableOut && stopTime == Add32(now, durationMs) && running
    {
      if dirPin == -1 || pwmPin == -1 {
        return;
      }
      dirOut := dir == CW;
      targetSpeed := speed;
      currentSpeed := 0;
      rampStartTime := now;
      rampDuration := rampTimeMs;
      rampActive := rampTimeMs > 0;
      pwmOut := currentSpeed;
      enableOut := true;
      stopTime := Add32(now, durationMs);
      running := true;
    }

    /** `update`, once per loop: while running, a current at or above the
        limit latches the stall and stops the motor and nothing else happens
        in that call; otherwise the ramp advances (reaching the target once
        its duration has elapsed, measured with wrapping subtraction) and a
        reached stop time stops the motor. */
    method Update(now: u32, amps: real)
      requires Valid()
      modifies this`stall, this`currentSpeed, this`rampActive, this`pwmOut, this`enableOut, this`running
      ensures Valid()
      ensures !old(running) ==> stall == old(stall) && currentSpeed == old(currentSpeed)
                                && rampActive == old(rampActive) && pwmOut == old(pwmOut)
                                && enableOut == old(enableOut) && !running
      ensures old(running) && amps >= stallLimitAmps ==>
                stall && !running && !enableOut && pwmOut == 0
                && currentSpeed == old(currentSpeed) && rampActive == old(rampActive)
      ensures old(running) && amps < stallLimitAmps ==>
                stall == old(stall)
                && (!old(rampActive) ==> currentSpeed == old(currentSpeed) && !rampActive)
                && (old(rampActive) && Elapsed(now, rampStartTime) >= rampDuration ==>
                      currentSpeed == targetSpeed && !rampActive)
                && (old(rampActive) && Elapsed(now, rampStartTime) < rampDuration ==>
                      currentSpeed == RampSpeed(targetSpeed, Elapsed(now, rampStartTime), rampDuration) && rampActive)
                && (running <==> !StopDue(stopTime, now))
                // a reached stop time disables the driver at duty 0; otherwise the
                // driver stays as it was and the duty follows the ramp, if any
                && (!running ==> pwmOut == 0 && !enableOut)
                && (running ==> enableOut == old(enableOut))
                && (running && old(rampActive) ==> pwmOut == currentSpeed)
                && (running && !old(rampActive) ==> pwmOut == old(pwmOut))
    {
      if running {
        if amps >= stallLimitAmps {
          stall := true;
          StopMotor();
          return;
        }
        if rampActive {
          var elapsed := Elapsed(now, rampStartTime);
          if elapsed >= rampDuration {
            currentSpeed := targetSpeed;
            rampActive := false;
          } else {
            currentSpeed := RampSpeed(targetSpeed, elapsed, rampDuration);
          }
          pwmOut := currentSpeed;
        }
        if stopTime > 0 && now >= stopTime {
          StopMotor();
        }
      }
    }

    /** `stopMotor`: disable the driver, duty 0, not running. The speed
        variable keeps its value and the stall flag is untouched. */
    method StopMotor()
      requires Valid()
      modifies this`enableOut, this`pwmOut, this`running
      ensures Valid()
      ensures !enableOut && pwmOut == 0 && !running
    {
      enableOut := false;
      pwmOut := 0;
      running := false;
    }

    function IsRunning(): (r: bool)
      reads this
      ensures r <==> running
    {
      running
    }

    method SetTargetPosition(pos: Option<string>)
      modifies this`targetPosition
      ensures targetPosition == pos
    {
      targetPosition := pos;
    }

    function GetTargetPosition(): (r: Option<string>)
      reads this
      ensures r == targetPosition
    {
      targetPosition
    }

    function GetLastKnownPosition(): (r: Option<string>)
      reads this
      ensures r == currentPosition
    {
      currentPosition
    }

    /** `confirmArrival`: a pending target becomes the known position and is
        cleared; with no target nothing changes. */
    method ConfirmArrival()
      modifies this`targetPosition, this`currentPosition
      ensures old(targetPosition).Some? ==> currentPosition == old(targetPosition) && targetPosition == None
      ensures old(targetPosition).None? ==> currentPosition == old(currentPosition) && targetPosition == None
    {
      if targetPosition.Some? {
        currentPosition := targetPosition;
        targetPosition := None;
      }
    }

    /** `handleSensorTriggered`: only during a run, stop the motor and
        confirm the arrival. */
    method HandleSensorTriggered()
      requires Valid()
      modifies this`enableOut, this`pwmOut, this`running, this`targetPosition, this`currentPosition
      ensures Valid()
      ensures !old(running) ==> enableOut == old(enableOut) && pwmOut == old(pwmOut) && !running
                                && targetPosition == old(targetPosition) && currentPosition == old(currentPosition)
      ensures old(running) ==> !enableOut && pwmOut == 0 && !running && targetPosition == None
                               && currentPosition == (if old(targetPosition).Some? then old(targetPosition)
                                                      else old(currentPosition))
    {
      if running {
        StopMotor();
        ConfirmArrival();
      }
    }

    method SetStallAmpsThreshold(amps: real)
      modifies this`stallLimitAmps
      ensures stallLimitAmps == amps
    {
      stallLimitAmps := amps;
    }

    function GetStallAmpsThreshold(): (r: real)
      reads this
      ensures r == stallLimitAmps
    {
      stallLimitAmps
    }

    function StallDetected(): (r: bool)
      reads this
      ensures r <==> stall
    {
      stall
    }

    /** `clearStall`: the only operation that lowers the stall flag. */
    method ClearStall()
      modifies this`stall
      ensures !stall
    {
      stall := false;
    }
  }
}
