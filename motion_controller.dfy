/** The motion sequencer (`MotionController`): named motions built as
    target maps over the neutral pose and handed, one map at a time, to
    `_send_targets`, which keeps the known servos, clamps, optionally
    fuses the balance corrector's output and sends one sync write. */
module MotionCtrl {
  import opened PyBase
  import opened OrderedDict
  import opened Wire
  import UartServo
  import BalanceCtrl
  import ServoState
  import opened ActionNames

  // ---------------------------------------------------------------------
  // The joint table

  /** `JOINT`: joint name to servo id. */
  const JOINT: map<string, int> := map[
    "neck_yaw" := 1, "neck_pitch" := 2,
    "l_shoulder_base" := 3, "l_shoulder_lift" := 4, "l_upper_arm_rot" := 5, "l_elbow" := 6, "l_hand" := 7,
    "r_shoulder_base" := 8, "r_shoulder_lift" := 9, "r_upper_arm_rot" := 10, "r_elbow" := 11, "r_hand" := 12,
    "waist" := 13,
    "l_hip" := 14, "l_thigh" := 15, "l_thigh_rot" := 16, "l_knee" := 17, "l_ankle_lr" := 18, "l_ankle_fb" := 19,
    "r_hip" := 20, "r_thigh" := 21, "r_thigh_rot" := 22, "r_knee" := 23, "r_ankle_lr" := 24, "r_ankle_fb" := 25]

  /** The joint names in id order: the name of id i + 1 is at index i. */
  const JOINT_NAMES: seq<string> := [
    "neck_yaw", "neck_pitch",
    "l_shoulder_base", "l_shoulder_lift", "l_upper_arm_rot", "l_elbow", "l_hand",
    "r_shoulder_base", "r_shoulder_lift", "r_upper_arm_rot", "r_elbow", "r_hand",
    "waist",
    "l_hip", "l_thigh", "l_thigh_rot", "l_knee", "l_ankle_lr", "l_ankle_fb",
    "r_hip", "r_thigh", "r_thigh_rot", "r_knee", "r_ankle_lr", "r_ankle_fb"]

  // The ids the motions look up in `JOINT` (see `UpperJointIds` and `LegJointIds`).
  const NECK_YAW := 1
  const NECK_PITCH := 2
  const L_SHOULDER_LIFT := 4
  const L_ELBOW := 6
  const L_HAND := 7
  const R_SHOULDER_LIFT := 9
  const R_ELBOW := 11
  const R_HAND := 12
  const WAIST := 13
  const L_HIP := 14
  const L_THIGH := 15
  const L_KNEE := 17
  const L_ANKLE_LR := 18
  const R_HIP := 20
  const R_THIGH := 21
  const R_KNEE := 23
  const R_ANKLE_LR := 24

  lemma NamesListedFront()
    ensures forall i | 0 <= i < 13 :: JOINT_NAMES[i] in JOINT && JOINT[JOINT_NAMES[i]] == i + 1
  {
  }

  lemma NamesListedBack()
    ensures forall i | 13 <= i < 25 :: JOINT_NAMES[i] in JOINT && JOINT[JOINT_NAMES[i]] == i + 1
  {
  }

  /** Every id 1..25 has a name in the table. */
  lemma JointOnto()
    ensures |JOINT_NAMES| == 25
    ensures forall i | 0 <= i < 25 :: JOINT_NAMES[i] in JOINT && JOINT[JOINT_NAMES[i]] == i + 1
  {
    NamesListedFront();
    NamesListedBack();
  }

  /** Every name maps into 1..25, and the id gives the name back. */
  lemma JointInverse()
    ensures forall n | n in JOINT :: 1 <= JOINT[n] <= 25 && JOINT_NAMES[JOINT[n] - 1] == n
  {
  }

  /** No two names share an id. */
  lemma JointInjective()
    ensures forall a, b | a in JOINT && b in JOINT && JOINT[a] == JOINT[b] :: a == b
  {
    JointInverse();
  }

  /** The named ids of the head, arms and waist are the table's. */
  lemma UpperJointIds()
    ensures JOINT["neck_yaw"] == NECK_YAW && JOINT["neck_pitch"] == NECK_PITCH
    ensures JOINT["l_shoulder_lift"] == L_SHOULDER_LIFT && JOINT["l_elbow"] == L_ELBOW && JOINT["l_hand"] == L_HAND
    ensures JOINT["r_shoulder_lift"] == R_SHOULDER_LIFT && JOINT["r_elbow"] == R_ELBOW && JOINT["r_hand"] == R_HAND
    ensures JOINT["waist"] == WAIST
  {
    NamesListedFront();
    assert JOINT_NAMES[0] == "neck_yaw" && JOINT_NAMES[1] == "neck_pitch";
    assert JOINT_NAMES[3] == "l_shoulder_lift" && JOINT_NAMES[5] == "l_elbow" && JOINT_NAMES[6] == "l_hand";
    assert JOINT_NAMES[8] == "r_shoulder_lift" && JOINT_NAMES[10] == "r_elbow" && JOINT_NAMES[11] == "r_hand";
    assert JOINT_NAMES[12] == "waist";
  }

  /** The named ids of the legs are the table's. */
  lemma LegJointIds()
    ensures JOINT["l_hip"] == L_HIP && JOINT["l_thigh"] == L_THIGH && JOINT["l_knee"] == L_KNEE && JOINT["l_ankle_lr"] == L_ANKLE_LR
    ensures JOINT["r_hip"] == R_HIP && JOINT["r_thigh"] == R_THIGH && JOINT["r_knee"] == R_KNEE && JOINT["r_ankle_lr"] == R_ANKLE_LR
  {
    NamesListedBack();
    assert JOINT_NAMES[13] == "l_hip" && JOINT_NAMES[14] == "l_thigh" && JOINT_NAMES[16] == "l_knee" && JOINT_NAMES[17] == "l_ankle_lr";
    assert JOINT_NAMES[19] == "r_hip" && JOINT_NAMES[20] == "r_thigh" && JOINT_NAMES[22] == "r_knee" && JOINT_NAMES[23] == "r_ankle_lr";
  }

  // ---------------------------------------------------------------------
  // `_clamp_pos` and the filter and fusion steps of `_send_targets`

  /** `_clamp_pos(pos)`: `get_legal_position(int(pos))`. */
  function ClampPos(x: real): (p: int)
    ensures 0 <= p <= 4095
    ensures 0.0 <= x < 4096.0 ==> p == Trunc(x)
  {
    UartServo.GetLegalPosition(Trunc(x))
  }

  /** On a whole number inside 0..4095 the clamp is the identity. */
  lemma ClampPosOfInt(n: int)
    ensures ClampPos(n as real) == UartServo.GetLegalPosition(n)
    ensures 0 <= n <= 4095 ==> ClampPos(n as real) == n
  {
    TruncOfInt(n);
  }

  /** The ids of `targets`, in dict order, that the manager knows, each
      with its clamped position. */
  function Filtered(keys: seq<int>, vals: map<int, int>, known: set<int>): (r: (seq<int>, seq<int>))
    ensures |r.0| == |r.1|
    ensures forall i | 0 <= i < |r.0| ::
      r.0[i] in known && r.0[i] in keys && r.0[i] in vals && r.1[i] == UartServo.GetLegalPosition(vals[r.0[i]])
    decreases |keys|
  {
    if |keys| == 0 then ([], [])
    else
      var n := |keys| - 1;
      var front := Filtered(keys[..n], vals, known);
      if keys[n] in known && keys[n] in vals
      then (front.0 + [keys[n]], front.1 + [UartServo.GetLegalPosition(vals[keys[n]])])
      else front
  }

  /** No known listed id is dropped. */
  lemma {:induction false} FilteredComplete(keys: seq<int>, vals: map<int, int>, known: set<int>)
    requires forall i | 0 <= i < |keys| :: keys[i] in vals
    ensures forall k | k in keys && k in known :: k in Filtered(keys, vals, known).0
    decreases |keys|
  {
    if |keys| > 0 {
      var n := |keys| - 1;
      FilteredComplete(keys[..n], vals, known);
      forall k | k in keys && k in known ensures k in Filtered(keys, vals, known).0 {
        if k != keys[n] {
          var i :| 0 <= i < |keys| && keys[i] == k;
          assert keys[..n][i] == k;
        }
      }
    }
  }

  /** The fusion of one position with the balance output, as written: the
      offset is first applied relative to neutral and then neutral is
      added once more. */
  function Fuse(p: int, off: real, n: int): (q: int)
    ensures 0 <= q <= 4095
  {
    ClampPos(n as real + ClampPos(p as real + off - n as real) as real)
  }

  /** When the balance output for a servo equals its neutral position (a
      level body over the same neutral pose), a position inside 0..4095
      comes out as position plus neutral, clamped: neutral is counted twice. */
  lemma FuseAddsNeutralTwice(p: int, n: int)
    requires 0 <= p <= 4095
    ensures Fuse(p, n as real, n) == UartServo.GetLegalPosition(p + n)
  {
    ClampPosOfInt(p);
    ClampPosOfInt(n + p);
  }

  /** The mid position sent through the fusion with the body level comes out
      at the end stop. */
  lemma FuseMidPositionSaturates()
    ensures Fuse(2048, 2048.0, 2048) == 4095
  {
    FuseAddsNeutralTwice(2048, 2048);
  }

  /** The fused list: each position combined with the balance output for its
      id (0 when absent) and the neutral value of its id (0 when absent). */
  function FusedAll(ids: seq<int>, poses: seq<int>, bal: Dict<real>, neutral: Dict<int>): (r: seq<int>)
    requires |ids| == |poses|
    ensures |r| == |ids|
    ensures forall i | 0 <= i < |r| :: 0 <= r[i] <= 4095
  {
    seq(|ids|, i requires 0 <= i < |ids| => Fuse(poses[i], bal.Get(ids[i], 0.0), neutral.Get(ids[i], 0)))
  }

  // ---------------------------------------------------------------------
  // What one `_send_targets` call sends

  /** One call of `_send_targets`: a target map and its runtime. */
  datatype Step = Step(targets: Dict<int>, runtime: int)

  /** What the balance corrector contributes: its neutral pose and orientation. */
  datatype BalanceSetup = BalanceSetup(neutral: Dict<int>, landscape: bool)

  /** The state a send depends on: the ids the manager knows, its broadcast
      id, the controller's neutral map, and the balance corrector when both
      it and an IMU are attached. */
  datatype Rig = Rig(known: set<int>, broadcastId: int, neutral: Dict<int>, balance: Option<BalanceSetup>)

  ghost predicate RigOk(rig: Rig)
  {
    rig.balance.Some? ==>
      forall i | 0 <= i < |rig.balance.value.neutral.keys| :: rig.balance.value.neutral.keys[i] in rig.balance.value.neutral.vals
  }

  /** The outcome of one send: the value returned, the frames written,
      and whether an IMU reading was taken. */
  datatype Sent = Sent(ok: bool, frames: seq<Frame>, readsImu: bool)

  /** The positions `_send_targets` sends for the filtered ids: fused with the
      balance output when the corrector and an IMU are attached and the
      reading succeeds, clamped only otherwise. */
  function Poses(rig: Rig, sel: (seq<int>, seq<int>), reading: Option<BalanceCtrl.Orientation>): (poses: seq<int>)
    requires RigOk(rig) && |sel.0| == |sel.1|
    ensures |poses| == |sel.0|
  {
    if rig.balance.Some? && reading.Some?
    then FusedAll(sel.0, sel.1, BalanceCtrl.Corrected(rig.balance.value.neutral, reading.value, rig.balance.value.landscape), rig.neutral)
    else sel.1
  }

  /** `sync_set_position(ids, poses, [runtime_ms]*len(ids))`, True unless it
      raises. */
  function Dispatch(broadcastId: int, ids: seq<int>, poses: seq<int>, runtime: int, readsImu: bool): Sent
  {
    var rts := Repeat(runtime, |ids|);
    if UartServo.FirstUnpackable(ids, poses, rts, 0) == |ids|
    then Sent(true, [Frame(broadcastId, CMD_SYNC_WRITE, UartServo.SyncPayload(ids, poses, rts))], readsImu)
    else Sent(false, [], readsImu)
  }

  /** `_send_targets(step.targets, runtime_ms=step.runtime)` with the IMU
      answering `reading` (None when the read raises). */
  function Send(rig: Rig, step: Step, reading: Option<BalanceCtrl.Orientation>): Sent
    requires RigOk(rig)
  {
    var sel := Filtered(step.targets.keys, step.targets.vals, rig.known);
    if |sel.0| == 0 then Sent(false, [], false)
    else Dispatch(rig.broadcastId, sel.0, Poses(rig, sel, reading), step.runtime, rig.balance.Some?)
  }

  /** A send writes at most one frame, a broadcast sync write, and only when
      some target is known; it returns True exactly when it writes. The
      frame names known ids only, each at a position in 0..4095, all with
      the step's runtime. */
  lemma SendContents(rig: Rig, step: Step, reading: Option<BalanceCtrl.Orientation>)
    requires RigOk(rig)
    ensures var s := Send(rig, step, reading);
      var sel := Filtered(step.targets.keys, step.targets.vals, rig.known);
      && |s.frames| <= 1
      && (s.ok <==> |s.frames| == 1)
      && (|sel.0| == 0 ==> !s.ok && s.frames == [] && !s.readsImu)
      && (s.ok ==>
            && s.frames[0].servoId == rig.broadcastId && s.frames[0].cmd == CMD_SYNC_WRITE
            && exists ts: seq<UartServo.SyncTarget> :: UartServo.ParseSyncPayload(s.frames[0].params) == Some(ts)
                 && |ts| == |sel.0|
                 && forall i | 0 <= i < |ts| ::
                      ts[i].id == sel.0[i] && ts[i].id in rig.known
                      && 0 <= ts[i].position <= 4095 && ts[i].runtime == step.runtime)
  {
    var sel := Filtered(step.targets.keys, step.targets.vals, rig.known);
    if |sel.0| > 0 {
      var poses := Poses(rig, sel, reading);
      DispatchContents(rig.broadcastId, sel.0, poses, step.runtime, rig.balance.Some?);
      DispatchTargets(rig.broadcastId, sel.0, poses, step.runtime, rig.balance.Some?, rig.known);
    }
  }

  /** A dispatched frame lists the given ids in order, each in range and
      with the given runtime. */
  lemma DispatchTargets(broadcastId: int, ids: seq<int>, poses: seq<int>, runtime: int, readsImu: bool, known: set<int>)
    requires |ids| == |poses| && forall i | 0 <= i < |ids| :: ids[i] in known
    ensures var s := Dispatch(broadcastId, ids, poses, runtime, readsImu);
      s.ok ==>
        exists ts: seq<UartServo.SyncTarget> :: UartServo.ParseSyncPayload(s.frames[0].params) == Some(ts)
          && |ts| == |ids|
          && forall i | 0 <= i < |ts| ::
               ts[i].id == ids[i] && ts[i].id in known
               && 0 <= ts[i].position <= 4095 && ts[i].runtime == runtime
  {
    var rts := Repeat(runtime, |ids|);
    if UartServo.FirstUnpackable(ids, poses, rts, 0) == |ids| {
      var payload := UartServo.SyncPayload(ids, poses, rts);
      assert Dispatch(broadcastId, ids, poses, runtime, readsImu).frames == [Frame(broadcastId, CMD_SYNC_WRITE, payload)];
      UartServo.SyncPayloadDecodes(ids, poses, rts);
      var ts := UartServo.SyncTargets(ids, poses, rts, |ids|);
      forall i | 0 <= i < |ts|
        ensures ts[i].id == ids[i] && ts[i].id in known && 0 <= ts[i].position <= 4095 && ts[i].runtime == runtime
      {
        assert ts[i] == UartServo.SyncTarget(ids[i], UartServo.GetLegalPosition(poses[i]), rts[i]);
      }
      assert UartServo.ParseSyncPayload(payload) == Some(ts);
    }
  }

  /** One sync write carrying every id with its clamped position and the
      runtime, exactly when every entry packs. */
  lemma DispatchContents(broadcastId: int, ids: seq<int>, poses: seq<int>, runtime: int, readsImu: bool)
    requires |ids| == |poses|
    ensures var s := Dispatch(broadcastId, ids, poses, runtime, readsImu);
      var rts := Repeat(runtime, |ids|);
      && |s.frames| <= 1
      && (s.ok <==> |s.frames| == 1)
      && (s.ok <==> UartServo.FirstUnpackable(ids, poses, rts, 0) == |ids|)
      && s.readsImu == readsImu
      && (s.ok ==>
            && s.frames[0].servoId == broadcastId && s.frames[0].cmd == CMD_SYNC_WRITE
            && UartServo.ParseSyncPayload(s.frames[0].params) == Some(UartServo.SyncTargets(ids, poses, rts, |ids|)))
  {
    var rts := Repeat(runtime, |ids|);
    if UartServo.FirstUnpackable(ids, poses, rts, 0) == |ids| {
      UartServo.SyncPayloadDecodes(ids, poses, rts);
    }
  }

  /** The next IMU reading of a script, None when it raises or has run out. */
  function NextReading(rs: seq<Option<BalanceCtrl.Orientation>>): Option<BalanceCtrl.Orientation>
  {
    if |rs| > 0 then rs[0] else None
  }

  function AfterReading(rs: seq<Option<BalanceCtrl.Orientation>>): (t: seq<Option<BalanceCtrl.Orientation>>)
    ensures |t| == if |rs| > 0 then |rs| - 1 else 0
  {
    if |rs| > 0 then rs[1..] else []
  }

  /** The IMU readings left after a send. */
  function Left(s: Sent, rs: seq<Option<BalanceCtrl.Orientation>>): seq<Option<BalanceCtrl.Orientation>>
  {
    if s.readsImu then AfterReading(rs) else rs
  }

  /** The frames a sequence of sends writes, one after the other, and the
      IMU script left afterwards. */
  function Run(rig: Rig, plan: seq<Step>, rs: seq<Option<BalanceCtrl.Orientation>>): (r: (seq<Frame>, seq<Option<BalanceCtrl.Orientation>>))
    requires RigOk(rig)
    decreases |plan|
  {
    if |plan| == 0 then ([], rs)
    else
      var s := Send(rig, plan[0], NextReading(rs));
      var rest := Run(rig, plan[1..], Left(s, rs));
      (s.frames + rest.0, rest.1)
  }

  /** Running p and then q is running p + q: the frames of q follow those of
      p, and q starts from the readings p left. */
  lemma {:induction false} RunAppend(rig: Rig, p: seq<Step>, q: seq<Step>, rs: seq<Option<BalanceCtrl.Orientation>>)
    requires RigOk(rig)
    ensures var first := Run(rig, p, rs);
      var second := Run(rig, q, first.1);
      Run(rig, p + q, rs) == (first.0 + second.0, second.1)
    decreases |p|
  {
    if |p| == 0 {
      assert p + q == q;
      assert [] + Run(rig, q, rs).0 == Run(rig, q, rs).0;
    } else {
      var s := Send(rig, p[0], NextReading(rs));
      RunAppend(rig, p[1..], q, Left(s, rs));
      assert (p + q)[0] == p[0] && (p + q)[1..] == p[1..] + q;
      var rest := Run(rig, p[1..], Left(s, rs));
      var second := Run(rig, q, rest.1);
      ConcatAssoc(s.frames, rest.0, second.0);
    }
  }

  /** One step more at the end of a plan. */
  lemma RunSnoc(rig: Rig, plan: seq<Step>, step: Step, rs: seq<Option<BalanceCtrl.Orientation>>)
    requires RigOk(rig)
    ensures var before := Run(rig, plan, rs);
      var s := Send(rig, step, NextReading(before.1));
      Run(rig, plan + [step], rs) == (before.0 + s.frames, Left(s, before.1))
  {
    RunAppend(rig, plan, [step], rs);
    var s := Send(rig, step, NextReading(Run(rig, plan, rs).1));
    assert [step][1..] == [];
    assert s.frames + [] == s.frames;
  }

  /** Each send of a plan writes at most one frame. */
  lemma {:induction false} RunFrameCount(rig: Rig, plan: seq<Step>, rs: seq<Option<BalanceCtrl.Orientation>>)
    requires RigOk(rig)
    ensures |Run(rig, plan, rs).0| <= |plan|
    decreases |plan|
  {
    if |plan| > 0 {
      var s := Send(rig, plan[0], NextReading(rs));
      RunFrameCount(rig, plan[1..], Left(s, rs));
      SendContents(rig, plan[0], NextReading(rs));
    }
  }

  // ---------------------------------------------------------------------
  // The target maps of the motions

  /** `targets.get(sid, 2048)` */
  function Val(d: Dict<int>, sid: int): int
  {
    d.Get(sid, 2048)
  }

  /** `targets[sid] = targets.get(sid, 2048) + delta` */
  function Offset(d: Dict<int>, sid: int, delta: int): (r: Dict<int>)
    ensures d.Valid() ==> r.Valid()
    ensures sid in r.vals && forall k | k in d.vals :: k in r.vals
    ensures forall k :: Val(r, k) == Val(d, k) + (if k == sid then delta else 0)
  {
    d.Set(sid, Val(d, sid) + delta)
  }

  /** `sit`: both knees +450, the waist +150. */
  function SitPose(n: Dict<int>): (r: Dict<int>)
    ensures n.Valid() ==> r.Valid()
    ensures forall k :: Val(r, k) == Val(n, k) + (if k == L_KNEE || k == R_KNEE then 450 else if k == WAIST then 150 else 0)
  {
    Offset(Offset(Offset(n, L_KNEE, 450), R_KNEE, 450), WAIST, 150)
  }

  /** The arm `wave` and `grab` use: shoulder lift, elbow and hand ids. */
  datatype Arm = Arm(lift: int, elbow: int, hand: int)

  /** `side == 'right'` picks the right arm, anything else the left. */
  function ArmOf(side: string): (a: Arm)
    ensures side == "right" ==> a == Arm(R_SHOULDER_LIFT, R_ELBOW, R_HAND)
    ensures side != "right" ==> a == Arm(L_SHOULDER_LIFT, L_ELBOW, L_HAND)
  {
    if side == "right" then Arm(R_SHOULDER_LIFT, R_ELBOW, R_HAND) else Arm(L_SHOULDER_LIFT, L_ELBOW, L_HAND)
  }

  /** The raised arm of `wave`: lift −400, elbow −200. */
  function ArmUp(n: Dict<int>, a: Arm): Dict<int>
  {
    Offset(Offset(n, a.lift, -400), a.elbow, -200)
  }

  /** `grab`: the hand ±400. */
  function GrabPose(n: Dict<int>, side: string, close: bool): (r: Dict<int>)
    ensures n.Valid() ==> r.Valid()
    ensures forall k :: Val(r, k) == Val(n, k) + (if k == ArmOf(side).hand then (if close then 400 else -400) else 0)
  {
    Offset(n, ArmOf(side).hand, if close then 400 else -400)
  }

  /** `hands_on_hips`: both shoulder lifts +200, both elbows +350. */
  function HipsPose(n: Dict<int>): (r: Dict<int>)
    ensures n.Valid() ==> r.Valid()
    ensures forall k :: Val(r, k) == Val(n, k) +
                (if k == L_SHOULDER_LIFT || k == R_SHOULDER_LIFT then 200 else if k == L_ELBOW || k == R_ELBOW then 350 else 0)
  {
    Offset(Offset(Offset(Offset(n, L_SHOULDER_LIFT, 200), R_SHOULDER_LIFT, 200), L_ELBOW, 350), R_ELBOW, 350)
  }

  /** `twist`: the waist + int(angle_deg * 4). */
  function TwistPose(n: Dict<int>, angleDeg: real): (r: Dict<int>)
    ensures n.Valid() ==> r.Valid()
    ensures forall k :: Val(r, k) == Val(n, k) + (if k == WAIST then Trunc(angleDeg * 4.0) else 0)
  {
    Offset(n, WAIST, Trunc(angleDeg * 4.0))
  }

  /** Phase A of a walking step: left hip forward, left thigh up by half the
      height, left knee by the height, right ankle +60. */
  function PhaseA(n: Dict<int>, stepLength: real, stepHeight: real): (r: Dict<int>)
    ensures n.Valid() ==> r.Valid()
    ensures forall k :: Val(r, k) == Val(n, k) +
                (if k == L_HIP then Trunc(stepLength)
                 else if k == L_THIGH then -Trunc(stepHeight / 2.0)
                 else if k == L_KNEE then Trunc(stepHeight)
                 else if k == R_ANKLE_LR then 60
                 else 0)
  {
    Offset(Offset(Offset(Offset(n, L_HIP, Trunc(stepLength)), L_THIGH, -Trunc(stepHeight / 2.0)),
      L_KNEE, Trunc(stepHeight)), R_ANKLE_LR, 60)
  }

  /** Phase B: left hip back by half the length, right hip forward, right
      thigh up by half the height, right knee by the height, left ankle −60. */
  function PhaseB(n: Dict<int>, stepLength: real, stepHeight: real): (r: Dict<int>)
    ensures n.Valid() ==> r.Valid()
    ensures forall k :: Val(r, k) == Val(n, k) +
                (if k == L_HIP then -Trunc(stepLength / 2.0)
                 else if k == R_HIP then Trunc(stepLength)
                 else if k == R_THIGH then -Trunc(stepHeight / 2.0)
                 else if k == R_KNEE then Trunc(stepHeight)
                 else if k == L_ANKLE_LR then -60
                 else 0)
  {
    Offset(Offset(Offset(Offset(Offset(n, L_HIP, -Trunc(stepLength / 2.0)), R_HIP, Trunc(stepLength)),
      R_THIGH, -Trunc(stepHeight / 2.0)), R_KNEE, Trunc(stepHeight)), L_ANKLE_LR, -60)
  }

  /** k rounds of a then b. */
  function Alternate(a: Step, b: Step, k: nat): seq<Step>
  {
    if k == 0 then [] else Alternate(a, b, k - 1) + [a] + [b]
  }

  /** k rounds are 2k sends, a at the even places and b at the odd ones. */
  lemma {:induction false} AlternateShape(a: Step, b: Step, k: nat)
    ensures |Alternate(a, b, k)| == 2 * k
    ensures forall j | 0 <= j < 2 * k :: Alternate(a, b, k)[j] == if j % 2 == 0 then a else b
  {
    if k > 0 {
      AlternateShape(a, b, k - 1);
    }
  }

  /** `wave`: raise the arm, `times` rounds of hand +350 and −350 around the
      raised pose at 220 ms, then the neutral map at 300 ms. */
  function WavePlan(n: Dict<int>, side: string, timeMs: int, times: int): seq<Step>
  {
    var up := ArmUp(n, ArmOf(side));
    [Step(up, timeMs)]
      + Alternate(Step(Offset(up, ArmOf(side).hand, 350), 220), Step(Offset(up, ArmOf(side).hand, -350), 220), Max(0, times))
      + [Step(n, 300)]
  }

  lemma WavePlanShape(n: Dict<int>, side: string, timeMs: int, times: int)
    ensures var p := WavePlan(n, side, timeMs, times);
      var up := ArmUp(n, ArmOf(side));
      && |p| == 2 * Max(0, times) + 2
      && p[0] == Step(up, timeMs)
      && (forall j | 1 <= j < |p| - 1 :: p[j] == Step(Offset(up, ArmOf(side).hand, if j % 2 == 1 then 350 else -350), 220))
      && p[|p| - 1] == Step(n, 300)
  {
    var up := ArmUp(n, ArmOf(side));
    AlternateShape(Step(Offset(up, ArmOf(side).hand, 350), 220), Step(Offset(up, ArmOf(side).hand, -350), 220), Max(0, times));
  }

  /** `walk`: `steps` rounds of phase A then phase B, then the neutral map at
      300 ms (`goto_neutral(time_ms=300)`). */
  function WalkPlan(n: Dict<int>, stepLength: real, stepHeight: real, runtime: int, steps: int): seq<Step>
  {
    Alternate(Step(PhaseA(n, stepLength, stepHeight), runtime), Step(PhaseB(n, stepLength, stepHeight), runtime), Max(0, steps))
      + [Step(n, 300)]
  }

  lemma WalkPlanShape(n: Dict<int>, stepLength: real, stepHeight: real, runtime: int, steps: int)
    ensures var p := WalkPlan(n, stepLength, stepHeight, runtime, steps);
      && |p| == 2 * Max(0, steps) + 1
      && (forall j | 0 <= j < |p| - 1 ::
            p[j] == if j % 2 == 0 then Step(PhaseA(n, stepLength, stepHeight), runtime) else Step(PhaseB(n, stepLength, stepHeight), runtime))
      && p[|p| - 1] == Step(n, 300)
  {
    AlternateShape(Step(PhaseA(n, stepLength, stepHeight), runtime), Step(PhaseB(n, stepLength, stepHeight), runtime), Max(0, steps));
  }

  /** `nod` and `shake_head` on servo sid: at least one round of base + up and
      base − down, each a one-entry map, then the base position alone. */
  function NeckPlan(sid: int, base: int, up: int, down: int, times: int, timeMs: int): seq<Step>
  {
    Alternate(Step(Single(sid, base + up), timeMs), Step(Single(sid, base - down), timeMs), Max(1, times))
      + [Step(Single(sid, base), timeMs)]
  }

  lemma NeckPlanShape(sid: int, base: int, up: int, down: int, times: int, timeMs: int)
    ensures var p := NeckPlan(sid, base, up, down, times, timeMs);
      && |p| == 2 * Max(1, times) + 1 && |p| >= 3
      && (forall j | 0 <= j < |p| - 1 :: p[j] == Step(Single(sid, if j % 2 == 0 then base + up else base - down), timeMs))
      && p[|p| - 1] == Step(Single(sid, base), timeMs)
  {
    AlternateShape(Step(Single(sid, base + up), timeMs), Step(Single(sid, base - down), timeMs), Max(1, times));
  }

  /** `nod`: neck pitch, up by the amplitude and down by half of it (floor). */
  function NodPlan(n: Dict<int>, times: int, amplitude: int, timeMs: int): seq<Step>
  {
    NeckPlan(NECK_PITCH, Val(n, NECK_PITCH), amplitude, amplitude / 2, times, timeMs)
  }

  /** `shake_head`: neck yaw, the amplitude each way. */
  function ShakePlan(n: Dict<int>, times: int, amplitude: int, timeMs: int): seq<Step>
  {
    NeckPlan(NECK_YAW, Val(n, NECK_YAW), amplitude, amplitude, times, timeMs)
  }

  /** The runtime of each walking step, `int(time_per_step_ms / speed)`. */
  function StepRuntime(timePerStepMs: int, speed: real): int
    requires speed != 0.0
  {
    Trunc(timePerStepMs as real / speed)
  }

  /** The pause after each walking phase, `time_per_step_ms/1000.0/speed + 0.02`;
      `time.sleep` raises ValueError on a negative length. */
  predicate StepPauseOk(timePerStepMs: int, speed: real)
    requires speed != 0.0
  {
    timePerStepMs as real / 1000.0 / speed + 0.02 >= 0.0
  }

  /** The pause after raising the arm in `wave`, `time_ms/1000.0 + 0.05`. */
  predicate WavePauseOk(timeMs: int)
  {
    timeMs as real / 1000.0 + 0.05 >= 0.0
  }

  /** What the loop of `walk` raises: ZeroDivisionError when the runtime
      division fails and ValueError when the pause is negative, once there is
      a pass to make. */
  function StridesError(steps: int, zeroSpeed: bool, pauseOk: bool): (e: Option<PyError>)
    ensures e.None? <==> steps <= 0 || (!zeroSpeed && pauseOk)
  {
    if steps > 0 && zeroSpeed then Some(ZeroDivisionError)
    else if steps > 0 && !pauseOk then Some(ValueError)
    else None
  }

  /** What the loop of `walk` sends: nothing when the division raises, the
      first phase alone when the pause raises, every pass otherwise. */
  function StridesSent(a: Step, b: Step, steps: int, zeroSpeed: bool, pauseOk: bool): seq<Step>
  {
    if steps > 0 && zeroSpeed then []
    else if steps > 0 && !pauseOk then [a]
    else Alternate(a, b, Max(0, steps))
  }

  // ---------------------------------------------------------------------
  // `run_action`

  /** The sends each action makes, with the defaults `run_action` passes. */
  function ActionPlan(n: Dict<int>, a: Action): seq<Step>
  {
    match a
    case Idle => []
    case Walk => WalkPlan(n, 120.0, 120.0, StepRuntime(300, 1.0), 2)
    case Stop => [Step(n, 300)]
    case Nod => NodPlan(n, 1, 160, 180)
    case ShakeHead => ShakePlan(n, 1, 180, 180)
    case Wave => WavePlan(n, "right", 500, 1)
    case Sit => [Step(SitPose(n), 700)]
    case Stand => [Step(n, 600)]
    case Twist => [Step(TwistPose(n, 25.0), 400)]
    case Unknown => []
  }

  /** Idle and unknown names send nothing; every other action sends at least
      once, and stop ends on the neutral map at 300 ms. */
  lemma ActionPlanShape(n: Dict<int>, a: Action)
    ensures (a == Idle || a == Unknown) <==> ActionPlan(n, a) == []
    ensures a == Stop ==> ActionPlan(n, a) == [Step(n, 300)]
    ensures a == Walk ==> |ActionPlan(n, a)| == 5 && ActionPlan(n, a)[4] == Step(n, 300)
  {
    if a == Walk {
      WalkPlanShape(n, 120.0, 120.0, StepRuntime(300, 1.0), 2);
    }
  }

  // ---------------------------------------------------------------------
  // The IMU and the controller

  /** The orientation source, as a scripted double: each read yields the next
      scripted reading, None for a read that raises; a script that has run
      out raises from then on. */
  class ImuFeed {
    var readings: seq<Option<BalanceCtrl.Orientation>>

    constructor (script: seq<Option<BalanceCtrl.Orientation>>)
      ensures readings == script
    {
      readings := script;
    }

    /** `get_orientation()` */
    method GetOrientation() returns (r: Option<BalanceCtrl.Orientation>)
      modifies this
      ensures r == NextReading(old(readings)) && readings == AfterReading(old(readings))
    {
      r := NextReading(readings);
      readings := AfterReading(readings);
    }
  }

  class MotionController {
    const servo: UartServo.UartServoManager
    const balance: Option<BalanceCtrl.BalanceController>
    const imu: Option<ImuFeed>
    const neutral: Dict<int>
    /** `_running` */
    var running: bool

    function BalanceObjs(): set<object>
    {
      if balance.Some? then {balance.value} else {}
    }

    function ImuObjs(): set<object>
    {
      if imu.Some? then {imu.value} else {}
    }

    /** The manager's, the neutral map's and the corrector's invariants. The
        conjunction is bound to a name, so that each use of `Valid()` is
        one proof obligation rather than one per conjunct of the manager's
        invariant. */
    ghost predicate Valid()
      reads servo, BalanceObjs()
    {
      var ok := servo.Valid() && neutral.Valid() && (balance.Some? ==> balance.value.Valid());
      ok
    }

    /** What the sends depend on, as a value. */
    ghost function Cfg(): (rig: Rig)
      reads servo`servos, BalanceObjs()
      ensures (balance.Some? ==> balance.value.Valid()) ==> RigOk(rig)
    {
      Rig(servo.servos.Keys, servo.broadcastId, neutral,
        if balance.Some? && imu.Some? then Some(BalanceSetup(balance.value.neutral, balance.value.isLandscape)) else None)
    }

    /** The IMU readings still to come. */
    ghost function Readings(): seq<Option<BalanceCtrl.Orientation>>
      reads ImuObjs()
    {
      if imu.Some? then imu.value.readings else []
    }

    /** The state the sends read and write, as a value. */
    ghost function Here(): Mark
      reads servo, servo.port, servo.servos.Values, BalanceObjs(), ImuObjs()
    {
      Mark(Cfg(), servo.servos, servo.order, servo.diagEnabled, servo.diag, servo.port.written, servo.port.replies,
        Readings(), UartServo.Cores(servo.View()))
    }

    /** Starting from the state m, the sends of plan happened, one after the
        other, and nothing else: the frames they write were appended, the IMU
        readings they take were used up, no reply was consumed, the counters
        did not move, and no servo record changed except for the `is_stop`
        flags the sync writes assign. */
    ghost predicate Reached(plan: seq<Step>, m: Mark)
      reads servo, servo.port, servo.servos.Values, BalanceObjs(), ImuObjs()
    {
      Valid() && Follows(plan, m, Here())
    }

    /** The sends of plan happened since the start of the call. */
    twostate predicate Dispatched(plan: seq<Step>)
      reads servo, servo.port, servo.servos.Values, BalanceObjs(), ImuObjs()
    {
      Reached(plan, old(Here()))
    }

    /** `__init__`; a missing neutral map is the empty one. */
    constructor (servo: UartServo.UartServoManager, balance: Option<BalanceCtrl.BalanceController>,
                 imu: Option<ImuFeed>, neutralPositions: Option<Dict<int>>)
      requires neutralPositions.Some? ==> neutralPositions.value.Valid()
      ensures this.servo == servo && this.balance == balance && this.imu == imu
      ensures neutral == if neutralPositions.Some? then neutralPositions.value else Empty()
      ensures !running
    {
      this.servo := servo;
      this.balance := balance;
      this.imu := imu;
      neutral := if neutralPositions.Some? then neutralPositions.value else Empty();
      running := false;
    }

    /** `_send_targets(targets, runtime_ms)` against a manager that offers
        `sync_set_position` and no `move_sync`. */
    method SendTargets(targets: Dict<int>, runtimeMs: int) returns (ok: bool)
      requires Valid()
      modifies servo`diag, servo.port, servo.servos.Values, ImuObjs()
      ensures Dispatched([Step(targets, runtimeMs)])
      ensures ok == Send(old(Cfg()), Step(targets, runtimeMs), NextReading(old(Readings()))).ok
    {
      ghost var rig, rs := Cfg(), Readings();
      ghost var s := Send(rig, Step(targets, runtimeMs), NextReading(rs));
      var ids, poses := FilterKnown(targets, servo.servos.Keys);
      assert Readings() == rs;
      if |ids| == 0 {
        ok := false;
        assert s == Sent(false, [], false);
      } else {
        ghost var sel := (ids, poses);
        assert s == Dispatch(rig.broadcastId, ids, Poses(rig, sel, NextReading(rs)), runtimeMs, rig.balance.Some?);
        poses := FusedPoses(ids, poses);
        ghost var left, w0 := Readings(), servo.port.written;
        assert left == Left(s, rs) && w0 == old(servo.port.written);
        assert s == Dispatch(servo.broadcastId, ids, poses, runtimeMs, Cfg().balance.Some?);
        ok := TransmitStep(ids, poses, runtimeMs);
        assert Readings() == left;
        assert servo.port.written == w0 + s.frames;
      }
      SentIsDispatched(Step(targets, runtimeMs));
    }

    /** The dispatch block of `_send_targets`: one `sync_set_position` call,
        True unless it raises. */
    method Transmit(ids: seq<int>, poses: seq<int>, runtimeMs: int) returns (ok: bool)
      requires Valid()
      modifies servo`diag, servo.port, servo.servos.Values
      ensures Valid() && servo.Kept() && Cfg() == old(Cfg())
      ensures var s := Dispatch(servo.broadcastId, ids, poses, runtimeMs, Cfg().balance.Some?);
        ok == s.ok && servo.port.written == old(servo.port.written) + s.frames
      ensures servo.port.replies == old(servo.port.replies) && servo.diag == old(servo.diag)
      ensures var bad := UartServo.FirstUnpackable(ids, poses, Repeat(runtimeMs, |ids|), 0);
        servo.View() == UartServo.StoppedAll(old(servo.View()), if bad == |ids| then ids else ids[..bad + 1])
    {
      var rts := Repeat(runtimeMs, |ids|);
      var r := servo.SyncSetPosition(ids, poses, rts);
      ok := r.Ok?;
    }

    /** Transmit as one send step sees it: the frame, no reply consumed, no
        counter moved, and the servo records' cores kept. */
    method TransmitStep(ids: seq<int>, poses: seq<int>, runtimeMs: int) returns (ok: bool)
      requires Valid()
      modifies servo`diag, servo.port, servo.servos.Values
      ensures Valid() && servo.Kept() && Cfg() == old(Cfg())
      ensures var s := Dispatch(servo.broadcastId, ids, poses, runtimeMs, Cfg().balance.Some?);
        ok == s.ok && servo.port.written == old(servo.port.written) + s.frames
      ensures servo.port.replies == old(servo.port.replies) && servo.diag == old(servo.diag)
      ensures UartServo.SameCores(servo.View(), old(servo.View()))
    {
      ghost var v0 := servo.View();
      ok := Transmit(ids, poses, runtimeMs);
      ghost var bad := UartServo.FirstUnpackable(ids, poses, Repeat(runtimeMs, |ids|), 0);
      StoppedAllKeepsCores(v0, if bad == |ids| then ids else ids[..bad + 1]);
    }

    /** The fusion block of `_send_targets`: read the IMU and combine the
        balance output with the positions, when both are attached; a read that
        raises leaves the positions as they are. */
    method FusedPoses(ids: seq<int>, poses: seq<int>) returns (out: seq<int>)
      requires Valid() && |ids| == |poses|
      modifies ImuObjs()
      ensures Valid() && servo.Kept() && Cfg() == old(Cfg()) && servo.View() == old(servo.View())
      ensures out == Poses(Cfg(), (ids, poses), NextReading(old(Readings())))
      ensures Readings() == if Cfg().balance.Some? then AfterReading(old(Readings())) else old(Readings())
    {
      out := poses;
      if balance.Some? && imu.Some? {
        var r := imu.value.GetOrientation();
        if r.Some? {
          var t := balance.value.Compute(r.value);
          out := FuseAll(ids, poses, t, neutral);
        }
      }
    }

    /** One send is a one-step plan. */
    twostate lemma SentIsDispatched(step: Step)
      requires Valid() && RigOk(old(Cfg())) && servo.Kept() && Cfg() == old(Cfg())
      requires var s := Send(old(Cfg()), step, NextReading(old(Readings())));
        && servo.port.written == old(servo.port.written) + s.frames
        && Readings() == Left(s, old(Readings()))
      requires servo.port.replies == old(servo.port.replies) && servo.diag == old(servo.diag)
      requires UartServo.SameCores(servo.View(), old(servo.View()))
      ensures Dispatched([step])
    {
      RunSnoc(old(Cfg()), [], step, old(Readings()));
      assert [] + [step] == [step];
      UartServo.SameCoresAsCores(servo.View(), old(servo.View()));
    }

    /** `goto_neutral(time_ms)`: the neutral map, copied entry by entry. */
    method GotoNeutral(timeMs: int) returns (ok: bool)
      requires Valid()
      modifies servo`diag, servo.port, servo.servos.Values, ImuObjs()
      ensures Dispatched([Step(neutral, timeMs)])
      ensures ok == Send(old(Cfg()), Step(neutral, timeMs), NextReading(old(Readings()))).ok
    {
      var targets := CopyTargets(neutral);
      assert Here() == old(Here()) && Valid();
      ok := SendTargets(targets, timeMs);
    }

    /** `stand(time_ms)` */
    method Stand(timeMs: int) returns (ok: bool)
      requires Valid()
      modifies servo`diag, servo.port, servo.servos.Values, ImuObjs()
      ensures Dispatched([Step(neutral, timeMs)])
      ensures ok == Send(old(Cfg()), Step(neutral, timeMs), NextReading(old(Readings()))).ok
    {
      ok := GotoNeutral(timeMs);
    }

    /** `sit(time_ms)` */
    method Sit(timeMs: int) returns (ok: bool)
      requires Valid()
      modifies servo`diag, servo.port, servo.servos.Values, ImuObjs()
      ensures Dispatched([Step(SitPose(neutral), timeMs)])
      ensures ok == Send(old(Cfg()), Step(SitPose(neutral), timeMs), NextReading(old(Readings()))).ok
    {
      var targets := neutral;
      targets := Offset(targets, L_KNEE, 450);
      targets := Offset(targets, R_KNEE, 450);
      targets := Offset(targets, WAIST, 150);
      ok := SendTargets(targets, timeMs);
    }

    /** `grab(side, close, time_ms)` */
    method Grab(side: string, close: bool, timeMs: int) returns (ok: bool)
      requires Valid()
      modifies servo`diag, servo.port, servo.servos.Values, ImuObjs()
      ensures Dispatched([Step(GrabPose(neutral, side, close), timeMs)])
      ensures ok == Send(old(Cfg()), Step(GrabPose(neutral, side, close), timeMs), NextReading(old(Readings()))).ok
    {
      var sid := ArmOf(side).hand;
      var targets := neutral;
      targets := Offset(targets, sid, if close then 400 else -400);
      ok := SendTargets(targets, timeMs);
    }

    /** `hands_on_hips(time_ms)` */
    method HandsOnHips(timeMs: int) returns (ok: bool)
      requires Valid()
      modifies servo`diag, servo.port, servo.servos.Values, ImuObjs()
      ensures Dispatched([Step(HipsPose(neutral), timeMs)])
      ensures ok == Send(old(Cfg()), Step(HipsPose(neutral), timeMs), NextReading(old(Readings()))).ok
    {
      var targets := neutral;
      targets := Offset(targets, L_SHOULDER_LIFT, 200);
      targets := Offset(targets, R_SHOULDER_LIFT, 200);
      targets := Offset(targets, L_ELBOW, 350);
      targets := Offset(targets, R_ELBOW, 350);
      ok := SendTargets(targets, timeMs);
    }

    /** `twist(angle_deg, time_ms)` */
    method Twist(angleDeg: real, timeMs: int) returns (ok: bool)
      requires Valid()
      modifies servo`diag, servo.port, servo.servos.Values, ImuObjs()
      ensures Dispatched([Step(TwistPose(neutral, angleDeg), timeMs)])
      ensures ok == Send(old(Cfg()), Step(TwistPose(neutral, angleDeg), timeMs), NextReading(old(Readings()))).ok
    {
      var targets := neutral;
      targets := Offset(targets, WAIST, Trunc(angleDeg * 4.0));
      ok := SendTargets(targets, timeMs);
    }

    /** `wave(side, time_ms, times)`. A negative pause after raising the arm
        makes `time.sleep` raise ValueError before any round. */
    method Wave(side: string, timeMs: int, times: int) returns (r: Result<bool>)
      requires Valid()
      modifies servo`diag, servo.port, servo.servos.Values, ImuObjs()
      ensures !WavePauseOk(timeMs) ==> r == Raised(ValueError) && Dispatched([Step(ArmUp(neutral, ArmOf(side)), timeMs)])
      ensures WavePauseOk(timeMs) ==> r == Ok(true) && Dispatched(WavePlan(neutral, side, timeMs, times))
    {
      ghost var m := Here();
      var arm := ArmOf(side);
      var targets := neutral;
      targets := Offset(targets, arm.lift, -400);
      targets := Offset(targets, arm.elbow, -200);
      var _ := SendTargets(targets, timeMs);
      if !(timeMs as real / 1000.0 + 0.05 >= 0.0) {
        return Raised(ValueError);
      }
      ghost var first := [Step(targets, timeMs)];
      ghost var rounds := Alternate(Step(Offset(targets, arm.hand, 350), 220), Step(Offset(targets, arm.hand, -350), 220), Max(0, times));
      ghost var raised := Here();
      Rounds(Offset(targets, arm.hand, 350), Offset(targets, arm.hand, -350), 220, Max(0, times));
      FollowsAppend(first, rounds, m, raised, Here());
      ghost var waved := Here();
      var _ := SendTargets(neutral, 300);
      FollowsSnoc(first + rounds, Step(neutral, 300), m, waved, Here());
      r := Ok(true);
    }

    /** `walk(step_length, step_height, speed, steps, time_per_step_ms)`. A zero
        speed raises ZeroDivisionError before the first send; a negative pause
        makes `time.sleep` raise ValueError right after the first send. The two
        target maps, the runtime and the sign of the pause are the same on every
        pass, so they are computed once here and the loop is `Strides`. */
    method Walk(stepLength: real, stepHeight: real, speed: real, steps: int, timePerStepMs: int) returns (r: Result<bool>)
      requires Valid()
      modifies servo`diag, servo.port, servo.servos.Values, ImuObjs()
      ensures steps > 0 && speed == 0.0 ==> r == Raised(ZeroDivisionError) && Dispatched([])
      ensures steps > 0 && speed != 0.0 && !StepPauseOk(timePerStepMs, speed) ==>
        r == Raised(ValueError) && Dispatched([Step(PhaseA(neutral, stepLength, stepHeight), StepRuntime(timePerStepMs, speed))])
      ensures steps <= 0 || (speed != 0.0 && StepPauseOk(timePerStepMs, speed)) ==>
        r == Ok(true) &&
        Dispatched(WalkPlan(neutral, stepLength, stepHeight, if speed != 0.0 then StepRuntime(timePerStepMs, speed) else 0, steps))
    {
      var t := neutral;
      t := Offset(t, L_HIP, Trunc(stepLength));
      t := Offset(t, L_THIGH, -Trunc(stepHeight / 2.0));
      t := Offset(t, L_KNEE, Trunc(stepHeight));
      t := Offset(t, R_ANKLE_LR, 60);
      var t2 := neutral;
      t2 := Offset(t2, L_HIP, -Trunc(stepLength / 2.0));
      t2 := Offset(t2, R_HIP, Trunc(stepLength));
      t2 := Offset(t2, R_THIGH, -Trunc(stepHeight / 2.0));
      t2 := Offset(t2, R_KNEE, Trunc(stepHeight));
      t2 := Offset(t2, L_ANKLE_LR, -60);
      var rt := if speed != 0.0 then Trunc(timePerStepMs as real / speed) else 0;
      var pauseOk := speed != 0.0 && timePerStepMs as real / 1000.0 / speed + 0.02 >= 0.0;
      var err := Strides(t, t2, rt, steps, speed == 0.0, pauseOk);
      if err.Some? {
        return Raised(err.value);
      }
      ghost var last := Here();
      var _ := GotoNeutral(300);
      FollowsSnoc(Alternate(Step(t, rt), Step(t2, rt), Max(0, steps)), Step(neutral, 300), old(Here()), last, Here());
      r := Ok(true);
    }

    /** The loop of `walk`: `steps` passes of sending x, pausing and sending
        y, all at runtime rt. Each pass first divides by the speed, which
        raises when it is zero, and then pauses, which raises when the pause
        is negative; the speed is the same on every pass, so either exception
        comes from the first pass, and otherwise the passes are `Rounds`. */
    method Strides(x: Dict<int>, y: Dict<int>, rt: int, steps: int, zeroSpeed: bool, pauseOk: bool) returns (err: Option<PyError>)
      requires Valid()
      modifies servo`diag, servo.port, servo.servos.Values, ImuObjs()
      ensures err == StridesError(steps, zeroSpeed, pauseOk)
      ensures Dispatched(StridesSent(Step(x, rt), Step(y, rt), steps, zeroSpeed, pauseOk))
    {
      if steps > 0 && zeroSpeed {
        return Some(ZeroDivisionError);
      }
      if steps > 0 && !pauseOk {
        var _ := SendTargets(x, rt);
        return Some(ValueError);
      }
      Rounds(x, y, rt, Max(0, steps));
      err := None;
    }

    /** k rounds of sending x and then y, both at the same runtime: the loops
        of `wave`, `nod` and `shake_head`. */
    method Rounds(x: Dict<int>, y: Dict<int>, runtimeMs: int, k: nat)
      requires Valid()
      modifies servo`diag, servo.port, servo.servos.Values, ImuObjs()
      ensures Dispatched(Alternate(Step(x, runtimeMs), Step(y, runtimeMs), k))
    {
      ghost var m := Here();
      ghost var a, b := Step(x, runtimeMs), Step(y, runtimeMs);
      var i := 0;
      while i < k
        invariant 0 <= i <= k
        invariant Reached(Alternate(a, b, i), m)
      {
        ghost var before := Here();
        var _ := SendTargets(x, runtimeMs);
        FollowsSnoc(Alternate(a, b, i), a, m, before, Here());
        ghost var middle := Here();
        var _ := SendTargets(y, runtimeMs);
        FollowsSnoc(Alternate(a, b, i) + [a], b, m, middle, Here());
        i := i + 1;
      }
    }

    /** `nod(times, amplitude, time_ms)`. The joint table always names the
        neck pitch servo (`UpperJointIds`), so the early `return False` cannot run. */
    method Nod(times: int, amplitude: int, timeMs: int) returns (ok: bool)
      requires Valid()
      modifies servo`diag, servo.port, servo.servos.Values, ImuObjs()
      ensures ok && Dispatched(NodPlan(neutral, times, amplitude, timeMs))
    {
      var base := neutral.Get(NECK_PITCH, 2048);
      ok := Neck(NECK_PITCH, base, amplitude, amplitude / 2, times, timeMs);
    }

    /** `shake_head(times, amplitude, time_ms)` */
    method ShakeHead(times: int, amplitude: int, timeMs: int) returns (ok: bool)
      requires Valid()
      modifies servo`diag, servo.port, servo.servos.Values, ImuObjs()
      ensures ok && Dispatched(ShakePlan(neutral, times, amplitude, timeMs))
    {
      var base := neutral.Get(NECK_YAW, 2048);
      ok := Neck(NECK_YAW, base, amplitude, amplitude, times, timeMs);
    }

    /** The loop `nod` and `shake_head` share. */
    method Neck(sid: int, base: int, up: int, down: int, times: int, timeMs: int) returns (ok: bool)
      requires Valid()
      modifies servo`diag, servo.port, servo.servos.Values, ImuObjs()
      ensures ok && Dispatched(NeckPlan(sid, base, up, down, times, timeMs))
    {
      ghost var m := Here();
      Rounds(Single(sid, base + up), Single(sid, base - down), timeMs, Max(1, times));
      ghost var swung := Here();
      var _ := SendTargets(Single(sid, base), timeMs);
      FollowsSnoc(Alternate(Step(Single(sid, base + up), timeMs), Step(Single(sid, base - down), timeMs), Max(1, times)),
        Step(Single(sid, base), timeMs), m, swung, Here());
      ok := true;
    }

    /** `stop()`: clear `_running` and return to neutral at 300 ms. */
    method Stop()
      requires Valid()
      modifies this`running, servo`diag, servo.port, servo.servos.Values, ImuObjs()
      ensures !running && Dispatched([Step(neutral, 300)])
    {
      ghost var m := Here();
      running := false;
      assert Valid() && Here() == m;
      var _ := GotoNeutral(300);
    }

    /** `run_action(action)`. The chain of name comparisons is `ActionOf`;
        the branches that call a motion are split over `RunPose` and
        `RunMotion`. */
    method RunAction(action: Option<string>) returns (ok: bool)
      requires Valid()
      modifies this`running, servo`diag, servo.port, servo.servos.Values, ImuObjs()
      ensures Dispatched(ActionPlan(neutral, ActionOf(Normalize(action))))
      ensures running == if ActionOf(Normalize(action)).Stop? then false else old(running)
      ensures ok == ActionReturns(old(Cfg()), neutral, ActionOf(Normalize(action)), NextReading(old(Readings())))
    {
      var name := Normalize(action);
      ok := Perform(ActionOf(name));
    }

    /** The branch of `run_action` for an action. */
    method Perform(a: Action) returns (ok: bool)
      requires Valid()
      modifies this`running, servo`diag, servo.port, servo.servos.Values, ImuObjs()
      ensures Dispatched(ActionPlan(neutral, a))
      ensures running == if a.Stop? then false else old(running)
      ensures ok == ActionReturns(old(Cfg()), neutral, a, NextReading(old(Readings())))
    {
      if a.Idle? || a.Unknown? {
        ok := Skip(a);
      } else if a.Walk? || a.Nod? || a.ShakeHead? || a.Wave? {
        ok := RunMotion(a);
      } else {
        ok := RunPose(a);
      }
    }

    /** The `run_action` branches that send nothing: an empty or 'none'
        name returns True, an unknown one False. */
    method Skip(a: Action) returns (ok: bool)
      requires Valid() && (a.Idle? || a.Unknown?)
      ensures Dispatched(ActionPlan(neutral, a))
      ensures running == old(running)
      ensures ok == ActionReturns(old(Cfg()), neutral, a, NextReading(old(Readings())))
    {
      ok := a.Idle?;
      assert Run(Cfg(), [], Readings()) == ([], Readings());
      assert servo.port.written + [] == servo.port.written;
    }

    /** The `run_action` branches that play a motion of several sends. */
    method RunMotion(a: Action) returns (ok: bool)
      requires Valid() && (a.Walk? || a.Nod? || a.ShakeHead? || a.Wave?)
      modifies servo`diag, servo.port, servo.servos.Values, ImuObjs()
      ensures ok && Dispatched(ActionPlan(neutral, a))
      ensures running == old(running)
      ensures ok == ActionReturns(old(Cfg()), neutral, a, NextReading(old(Readings())))
    {
      match a
      case Walk =>
        assert StepPauseOk(300, 1.0) && ActionPlan(neutral, a) == WalkPlan(neutral, 120.0, 120.0, StepRuntime(300, 1.0), 2);
        var r := Walk(120.0, 120.0, 1.0, 2, 300);
        ok := r.Ok? && r.value;
      case Nod =>
        ok := Nod(1, 160, 180);
      case ShakeHead =>
        ok := ShakeHead(1, 180, 180);
      case Wave =>
        assert WavePauseOk(500) && ActionPlan(neutral, a) == WavePlan(neutral, "right", 500, 1);
        var r := Wave("right", 500, 1);
        ok := r.Ok? && r.value;
    }

    /** The `run_action` branches that send once: stop, sit, stand and twist. */
    method RunPose(a: Action) returns (ok: bool)
      requires Valid() && (a.Stop? || a.Sit? || a.Stand? || a.Twist?)
      modifies this`running, servo`diag, servo.port, servo.servos.Values, ImuObjs()
      ensures Dispatched(ActionPlan(neutral, a))
      ensures running == if a.Stop? then false else old(running)
      ensures ok == ActionReturns(old(Cfg()), neutral, a, NextReading(old(Readings())))
    {
      match a
      case Stop =>
        Stop();
        ok := true;
      case Sit =>
        ok := Sit(700);
      case Stand =>
        ok := Stand(600);
      case Twist =>
        ok := Twist(25.0, 400);
    }
  }

  /** What `run_action` returns for an action: False for an unknown name,
      the send's own result for the single-send actions, True otherwise. */
  function ActionReturns(rig: Rig, n: Dict<int>, a: Action, reading: Option<BalanceCtrl.Orientation>): bool
    requires RigOk(rig)
  {
    match a
    case Unknown => false
    case Sit => Send(rig, Step(SitPose(n), 700), reading).ok
    case Stand => Send(rig, Step(n, 600), reading).ok
    case Twist => Send(rig, Step(TwistPose(n, 25.0), 400), reading).ok
    case _ => true
  }

  /** The state the sends read and write: the send configuration, the
      manager's records and registration order, its diagnostics switch and
      counters, the port's written frames and pending replies, the IMU readings to come,
      and the servo records as values. */
  datatype Mark = Mark(rig: Rig, servos: map<int, ServoState.UartServoInfo>, order: seq<int>, diagEnabled: bool,
                       diag: UartServo.DiagStats,
                       written: seq<Frame>, replies: seq<Option<Reply>>,
                       readings: seq<Option<BalanceCtrl.Orientation>>, cores: map<int, (bool, Option<int>, Option<int>)>)

  /** From m to n the sends of plan happened and nothing else: same
      configuration and records, their frames appended, their IMU readings
      used up, the replies and counters untouched, the servo records equal
      but for the `is_stop` flags. */
  ghost predicate Follows(plan: seq<Step>, m: Mark, n: Mark)
  {
    RigOk(m.rig) && n == After(plan, m)
  }

  /** The state after the sends of plan from m. */
  ghost function After(plan: seq<Step>, m: Mark): Mark
    requires RigOk(m.rig)
  {
    var r := Run(m.rig, plan, m.readings);
    m.(written := m.written + r.0, readings := r.1)
  }

  /** Sending one more step after a plan. */
  lemma FollowsSnoc(plan: seq<Step>, step: Step, m: Mark, mid: Mark, n: Mark)
    requires Follows(plan, m, mid) && Follows([step], mid, n)
    ensures Follows(plan + [step], m, n)
  {
    FollowsAppend(plan, [step], m, mid, n);
  }

  /** Running a plan after another. */
  lemma FollowsAppend(p: seq<Step>, q: seq<Step>, m: Mark, mid: Mark, n: Mark)
    requires Follows(p, m, mid) && Follows(q, mid, n)
    ensures Follows(p + q, m, n)
  {
    RunAppend(m.rig, p, q, m.readings);
    var first := Run(m.rig, p, m.readings);
    assert mid.rig == m.rig && mid.readings == first.1;
    ConcatAssoc(m.written, first.0, Run(m.rig, q, first.1).0);
  }

  /** StoppedAll assigns flags only. */
  lemma StoppedAllKeepsCores(v: map<int, ServoState.Snapshot>, ids: seq<int>)
    ensures UartServo.SameCores(UartServo.StoppedAll(v, ids), v)
  {
  }

  /** The copy loop of `goto_neutral`: `targets[sid] = int(val)` for each entry. */
  method CopyTargets(n: Dict<int>) returns (t: Dict<int>)
    requires n.Valid()
    ensures t == n
  {
    t := Empty();
    var i := 0;
    while i < |n.keys|
      invariant 0 <= i <= |n.keys|
      invariant t.keys == n.keys[..i] && t.vals == map k | k in n.keys[..i] :: n.vals[k]
    {
      var k := n.keys[i];
      assert k !in n.keys[..i];
      t := t.Set(k, n.vals[k]);
      assert n.keys[..i + 1] == n.keys[..i] + [k];
      i := i + 1;
    }
    assert n.keys[..|n.keys|] == n.keys;
    assert t.vals == n.vals by {
      forall k | k in n.vals ensures k in t.vals {
        assert k in n.keys;
      }
    }
  }

  /** The filter loop of `_send_targets`. */
  method FilterKnown(targets: Dict<int>, known: set<int>) returns (ids: seq<int>, poses: seq<int>)
    ensures (ids, poses) == Filtered(targets.keys, targets.vals, known)
  {
    ids, poses := [], [];
    var i := 0;
    while i < |targets.keys|
      invariant 0 <= i <= |targets.keys|
      invariant (ids, poses) == Filtered(targets.keys[..i], targets.vals, known)
    {
      var k := targets.keys[i];
      assert targets.keys[..i + 1][..i] == targets.keys[..i];
      if k in known && k in targets.vals {
        ids, poses := ids + [k], poses + [UartServo.GetLegalPosition(targets.vals[k])];
      }
      i := i + 1;
    }
    assert targets.keys[..|targets.keys|] == targets.keys;
  }

  /** The fusion loop of `_send_targets`, rewriting each position in place. */
  method FuseAll(ids: seq<int>, poses: seq<int>, bal: Dict<real>, neutral: Dict<int>) returns (out: seq<int>)
    requires |ids| == |poses|
    ensures out == FusedAll(ids, poses, bal, neutral)
  {
    out := poses;
    var i := 0;
    while i < |ids|
      invariant 0 <= i <= |ids| && |out| == |ids|
      invariant forall j | 0 <= j < i :: out[j] == Fuse(poses[j], bal.Get(ids[j], 0.0), neutral.Get(ids[j], 0))
      invariant forall j | i <= j < |ids| :: out[j] == poses[j]
    {
      var sid := ids[i];
      var off := bal.Get(sid, 0.0);
      out := out[i := ClampPos(out[i] as real + off - neutral.Get(sid, 0) as real)];
      out := out[i := ClampPos(neutral.Get(sid, 0) as real + out[i] as real)];
      i := i + 1;
    }
  }
}
