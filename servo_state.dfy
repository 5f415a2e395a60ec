/** Per-servo state kept by the session manager (`UartServoInfo`): the
    online flag, current and target position, the last reported status,
    and the affine map between positions 0..4095 and angles -180..180. */
module ServoState {
  import opened PyBase

  /** Servo dead band for `is_stop`, in degrees. */
  const SERVO_DEADBLOCK: real := 1.0
  /** Degrees per position step and the angle of position 0. */
  const POSITION_TO_ANGLE_K: real := 360.0 / 4096.0
  const POSITION_TO_ANGLE_B: real := -180.0

  function AbsR(x: real): real { if x < 0.0 then -x else x }

  /** `position2angle` */
  function PositionToAngle(position: real): (angle: real)
    ensures 0.0 <= position < 4096.0 ==> -180.0 <= angle < 180.0
    ensures position == 2048.0 ==> angle == 0.0
  {
    POSITION_TO_ANGLE_K * position + POSITION_TO_ANGLE_B
  }

  /** `angle2position`: the inverse of `position2angle`. */
  function AngleToPosition(angle: real): (position: real)
    ensures PositionToAngle(position) == angle
  {
    (angle - POSITION_TO_ANGLE_B) / POSITION_TO_ANGLE_K
  }

  lemma PositionAngleRoundTrip(position: real)
    ensures AngleToPosition(PositionToAngle(position)) == position
  {
  }

  /** The stall timer kept between `is_stop` calls: the last angle error
      seen and the clock reading when it was taken. */
  datatype Sample = Sample(angleError: real, time: real)

  /** One `is_stop` check with the clock reading `now`: whether the servo
      counts as stopped, and the sample kept for the next check. */
  function StallCheck(target: int, cur: int, last: Option<Sample>, now: real): (bool, Option<Sample>)
  {
    var e := PositionToAngle(target as real) - PositionToAngle(cur as real);
    if AbsR(e) <= SERVO_DEADBLOCK then (true, last)
    else
      var s1 := if last.None? then Sample(e, now) else last.value;
      var s2 := if AbsR(s1.angleError - e) > 0.2 then Sample(e, now) else s1;
      if now - s2.time > 1.0 then (true, None)
      else (false, Some(s2))
  }

  /** Within eleven position steps of the target the servo counts as stopped. */
  lemma StallCheckDeadBand(target: int, cur: int, last: Option<Sample>, now: real)
    requires -11 <= target - cur <= 11
    ensures StallCheck(target, cur, last, now) == (true, last)
  {
  }

  /** The first check outside the dead band starts the stall timer. */
  lemma StallCheckStartsTimer(target: int, cur: int, now: real)
    requires target - cur > 11 || target - cur < -11
    ensures StallCheck(target, cur, None, now) ==
      (false, Some(Sample(PositionToAngle(target as real) - PositionToAngle(cur as real), now)))
  {
  }

  /** Progress of more than 0.2 degrees since the last sample restarts the timer. */
  lemma StallCheckProgressRestartsTimer(target: int, cur: int, s: Sample, now: real)
    requires target - cur > 11 || target - cur < -11
    requires AbsR(s.angleError - (PositionToAngle(target as real) - PositionToAngle(cur as real))) > 0.2
    ensures StallCheck(target, cur, Some(s), now) ==
      (false, Some(Sample(PositionToAngle(target as real) - PositionToAngle(cur as real), now)))
  {
  }

  /** No progress for more than one second: the servo is taken as stuck, which
      counts as stopped, and the timer is cleared. */
  lemma StallCheckTimesOut(target: int, cur: int, s: Sample, now: real)
    requires target - cur > 11 || target - cur < -11
    requires AbsR(s.angleError - (PositionToAngle(target as real) - PositionToAngle(cur as real))) <= 0.2
    requires now - s.time > 1.0
    ensures StallCheck(target, cur, Some(s), now) == (true, None)
  {
  }

  /** A value snapshot of one servo's record. `stopFlag` is the boolean that
      the manager assigns to the attribute `is_stop`, shadowing the method
      of that name; None while it has never been assigned. */
  datatype Snapshot = Snapshot(
    servoId: int,
    isOnline: bool,
    curPosition: Option<int>,
    targetPosition: Option<int>,
    status: int,
    stopFlag: Option<bool>,
    lastSample: Option<Sample>)

  function Initial(id: int): Snapshot
  {
    Snapshot(id, false, None, None, 0, None, None)
  }

  /** The online flag and the two positions agree. */
  predicate SameCore(a: Snapshot, b: Snapshot)
  {
    a.isOnline == b.isOnline && a.curPosition == b.curPosition && a.targetPosition == b.targetPosition
  }

  class UartServoInfo {
    const servoId: int
    var isOnline: bool
    var curPosition: Option<int>
    var targetPosition: Option<int>
    var status: int
    var stopFlag: Option<bool>
    var lastSample: Option<Sample>

    ghost function State(): Snapshot
      reads this
    {
      Snapshot(servoId, isOnline, curPosition, targetPosition, status, stopFlag, lastSample)
    }

    constructor (id: int)
      ensures State() == Initial(id)
    {
      servoId := id;
      isOnline := false;
      curPosition := None;
      targetPosition := None;
      status := 0;
      stopFlag := None;
      lastSample := None;
    }

    /** `move`: record a new target position. */
    method Move(position: Option<int>)
      modifies this
      ensures State() == old(State()).(targetPosition := position)
    {
      targetPosition := position;
    }

    /** `update`: record the position read back from the servo. */
    method Update(position: Option<int>)
      modifies this
      ensures State() == old(State()).(curPosition := position)
    {
      curPosition := position;
    }

    /** `is_stop()` with the clock reading `now`. Once the manager has
        assigned the attribute `is_stop`, the call raises TypeError; with no
        current or no target position the angle arithmetic raises TypeError. */
    method IsStop(now: real) returns (r: Result<bool>)
      modifies this
      ensures old(stopFlag).Some? || old(targetPosition).None? || old(curPosition).None? ==>
        r == Raised(TypeError) && State() == old(State())
      ensures old(stopFlag).None? && old(targetPosition).Some? && old(curPosition).Some? ==>
        var check := StallCheck(old(targetPosition).value, old(curPosition).value, old(lastSample), now);
        r == Ok(check.0) && State() == old(State()).(lastSample := check.1)
    {
      if stopFlag.Some? || targetPosition.None? || curPosition.None? {
        return Raised(TypeError);
      }
      var angleError := PositionToAngle(targetPosition.value as real) - PositionToAngle(curPosition.value as real);
      if AbsR(angleError) <= SERVO_DEADBLOCK {
        return Ok(true);
      }
      if lastSample.None? {
        lastSample := Some(Sample(angleError, now));
      }
      if AbsR(lastSample.value.angleError - angleError) > 0.2 {
        lastSample := Some(Sample(angleError, now));
      }
      if now - lastSample.value.time > 1.0 {
        lastSample := None;
        return Ok(true);
      }
      return Ok(false);
    }
  }
}
