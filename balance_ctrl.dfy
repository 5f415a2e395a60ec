/** The balance corrector (`BalanceController`): a neutral pose completed to
    the 25 body ids, a correction of that pose from one IMU reading (pitch,
    roll, yaw in degrees) clamped to the position range, and the control
    loop that sends the corrected pose of the known servos as one sync
    write per tick. Float arithmetic is exact real arithmetic here. */
module BalanceCtrl {
  import opened PyBase
  import opened OrderedDict
  import opened Wire
  import UartServo

  /** One IMU reading, in degrees. */
  datatype Orientation = Orientation(pitch: real, roll: real, yaw: real)

  const BODY_IDS: int := 25
  const DEFAULT_NEUTRAL: int := 2048
  const MIN_RUNTIME_MS: int := 30

  // ---------------------------------------------------------------------
  // The neutral pose

  /** `{sid: 2048 for sid in range(1, n + 1)}`, built in id order. */
  function Defaults(n: nat): (d: Dict<int>)
    ensures d.Valid() && |d.keys| == n
    ensures forall k :: k in d.vals <==> 1 <= k <= n
    ensures forall k | k in d.vals :: d.vals[k] == DEFAULT_NEUTRAL
  {
    if n == 0 then Empty() else Defaults(n - 1).Set(n, DEFAULT_NEUTRAL)
  }

  /** The default neutral pose of the 25 body ids. */
  function Base(): (d: Dict<int>)
    ensures d.Valid() && |d.keys| == BODY_IDS
    ensures forall k :: k in d.vals <==> 1 <= k <= BODY_IDS
    ensures forall k | k in d.vals :: d.vals[k] == DEFAULT_NEUTRAL
  {
    Defaults(BODY_IDS)
  }

  /** One supplied (id, position) entry as `int()` sees them: None where
      `int()` raises. */
  type Entry = (Option<int>, Option<int>)

  predicate Converts(e: Entry) { e.0.Some? && e.1.Some? }

  /** The index of the first entry `int()` refuses, or |es|. */
  function FirstBad(es: seq<Entry>, from: nat): (k: nat)
    requires from <= |es|
    ensures from <= k <= |es|
    ensures forall j | from <= j < k :: Converts(es[j])
    ensures k < |es| ==> !Converts(es[k])
    decreases |es| - from
  {
    if from == |es| || !Converts(es[from]) then from else FirstBad(es, from + 1)
  }

  function Pairs(es: seq<Entry>): (ps: seq<(int, int)>)
    requires forall j | 0 <= j < |es| :: Converts(es[j])
    ensures |ps| == |es|
    ensures forall j | 0 <= j < |es| :: Converts(es[j]) && ps[j] == (es[j].0.value, es[j].1.value)
  {
    seq(|es|, j requires 0 <= j < |es| => assert Converts(es[j]); (es[j].0.value, es[j].1.value))
  }

  /** `base[sid] = pos` for each pair in turn. */
  function Fold(d: Dict<int>, ps: seq<(int, int)>): (r: Dict<int>)
    decreases |ps|
  {
    if |ps| == 0 then d
    else Fold(d, ps[..|ps| - 1]).Set(ps[|ps| - 1].0, ps[|ps| - 1].1)
  }

  /** The pose `__init__` keeps: the defaults, overridden by the supplied
      entries in order up to the first one `int()` refuses (the exception
      is swallowed there, and the entries before it stay applied). */
  function Completed(es: seq<Entry>): Dict<int>
  {
    Fold(Base(), Pairs(es[..FirstBad(es, 0)]))
  }

  lemma {:induction false} FoldKeys(d: Dict<int>, ps: seq<(int, int)>)
    requires d.Valid()
    ensures Fold(d, ps).Valid()
    ensures forall k :: k in Fold(d, ps).vals <==> k in d.vals || exists j | 0 <= j < |ps| :: ps[j].0 == k
    decreases |ps|
  {
    if |ps| > 0 {
      var front := ps[..|ps| - 1];
      FoldKeys(d, front);
      forall k ensures k in Fold(d, ps).vals <==> k in d.vals || exists j | 0 <= j < |ps| :: ps[j].0 == k {
        if exists j | 0 <= j < |ps| :: ps[j].0 == k {
          var j :| 0 <= j < |ps| && ps[j].0 == k;
          if j < |ps| - 1 {
            assert front[j].0 == k;
          }
        }
        if exists j | 0 <= j < |front| :: front[j].0 == k {
          var j :| 0 <= j < |front| && front[j].0 == k;
          assert ps[j].0 == k;
        }
      }
    }
  }

  /** An id no pair names keeps its value. */
  lemma {:induction false} FoldUntouched(d: Dict<int>, ps: seq<(int, int)>, k: int)
    requires forall j | 0 <= j < |ps| :: ps[j].0 != k
    requires k in d.vals
    ensures k in Fold(d, ps).vals && Fold(d, ps).vals[k] == d.vals[k]
    decreases |ps|
  {
    if |ps| > 0 {
      var front := ps[..|ps| - 1];
      assert ps[|ps| - 1].0 != k;
      forall j | 0 <= j < |front| ensures front[j].0 != k {
        assert front[j] == ps[j];
      }
      FoldUntouched(d, front, k);
    }
  }

  /** The last pair naming an id decides its value. */
  lemma {:induction false} FoldLast(d: Dict<int>, ps: seq<(int, int)>, j: nat)
    requires j < |ps|
    requires forall i | j < i < |ps| :: ps[i].0 != ps[j].0
    ensures ps[j].0 in Fold(d, ps).vals && Fold(d, ps).vals[ps[j].0] == ps[j].1
    decreases |ps|
  {
    var front := ps[..|ps| - 1];
    if j < |ps| - 1 {
      assert ps[|ps| - 1].0 != ps[j].0;
      assert front[j] == ps[j];
      forall i | j < i < |front| ensures front[i].0 != front[j].0 {
        assert front[i] == ps[i];
      }
      FoldLast(d, front, j);
    }
  }

  /** One more entry applied by `__init__`'s loop. */
  lemma CompletionStep(es: seq<Entry>, i: nat)
    requires i < FirstBad(es, 0)
    ensures Fold(Base(), Pairs(es[..i + 1])) == Fold(Base(), Pairs(es[..i])).Set(es[i].0.value, es[i].1.value)
  {
    var before := Pairs(es[..i]);
    var after := Pairs(es[..i + 1]);
    assert after[..i] == before;
    assert after[i] == (es[i].0.value, es[i].1.value);
  }

  /** After `__init__`, every body id has a neutral position. */
  lemma CompletedCoversBody(es: seq<Entry>)
    ensures Completed(es).Valid()
    ensures forall k | 1 <= k <= BODY_IDS :: k in Completed(es).vals
    ensures forall i | 0 <= i < |Completed(es).keys| :: Completed(es).keys[i] in Completed(es).vals
  {
    var ps := Pairs(es[..FirstBad(es, 0)]);
    var d := Fold(Base(), ps);
    FoldKeys(Base(), ps);
    forall k | 1 <= k <= BODY_IDS ensures k in d.vals {
      assert k in Base().vals;
    }
    forall i | 0 <= i < |d.keys| ensures d.keys[i] in d.vals {
      assert d.keys[i] in d.keys;
    }
  }

  /** `__init__`'s loop over the supplied entries. */
  method CompleteNeutral(es: seq<Entry>) returns (d: Dict<int>)
    ensures d == Completed(es)
  {
    d := Base();
    var i := 0;
    while i < |es| && Converts(es[i])
      invariant 0 <= i <= FirstBad(es, 0)
      invariant d == Fold(Base(), Pairs(es[..i]))
    {
      CompletionStep(es, i);
      d := d.Set(es[i].0.value, es[i].1.value);
      i := i + 1;
    }
  }

  /** A body id that no applied entry names keeps the default 2048. */
  lemma CompletedDefault(es: seq<Entry>, k: int)
    requires 1 <= k <= BODY_IDS
    requires forall j | 0 <= j < FirstBad(es, 0) :: es[j].0 != Some(k)
    ensures k in Completed(es).vals && Completed(es).vals[k] == DEFAULT_NEUTRAL
  {
    var ps := Pairs(es[..FirstBad(es, 0)]);
    forall j | 0 <= j < |ps| ensures ps[j].0 != k {
      assert es[..FirstBad(es, 0)][j] == es[j];
    }
    FoldUntouched(Base(), ps, k);
  }

  /** The last applied entry naming an id decides its neutral position. */
  lemma CompletedOverride(es: seq<Entry>, j: nat)
    requires j < FirstBad(es, 0)
    requires forall i | j < i < FirstBad(es, 0) :: es[i].0 != es[j].0
    ensures es[j].0.value in Completed(es).vals && Completed(es).vals[es[j].0.value] == es[j].1.value
  {
    var n := FirstBad(es, 0);
    var ps := Pairs(es[..n]);
    assert es[..n][j] == es[j];
    forall i | j < i < |ps| ensures ps[i].0 != es[j].0.value {
      assert es[..n][i] == es[i];
    }
    FoldLast(Base(), ps, j);
  }

  // ---------------------------------------------------------------------
  // The correction

  /** `gain_p` and `gain_r`: larger in landscape. */
  function Gains(isLandscape: bool): (g: (real, real))
  {
    if isLandscape then (5.5, 4.2) else (5.0, 3.8)
  }

  /** `max(0, min(4095, t))` */
  function Clamp(t: real): (c: real)
    ensures 0.0 <= c <= 4095.0
    ensures 0.0 <= t <= 4095.0 ==> c == t
  {
    if t > 4095.0 then 4095.0 else if t < 0.0 then 0.0 else t
  }

  /** `pitch * gain_p` and `roll * gain_r`, with the gain written out per case. */
  function PitchScaled(x: real, landscape: bool): real
  {
    if landscape then x * 5.5 else x * 5.0
  }

  function RollScaled(x: real, landscape: bool): real
  {
    if landscape then x * 4.2 else x * 3.8
  }

  lemma ScaledByGains(x: real, landscape: bool)
    ensures PitchScaled(x, landscape) == x * Gains(landscape).0
    ensures RollScaled(x, landscape) == x * Gains(landscape).1
  {
  }

  /** The integer offsets `compute` derives from one reading: `int()` of
      pitch and roll times their gains, of yaw times 0.5 (waist) and 1.5
      (neck), and of pitch times 1.5 (head) and 0.8 (shoulders). */
  datatype Offsets = Offsets(pitch: int, roll: int, waist: int, neck: int, head: int, swing: int)

  function OffsetsOf(o: Orientation, landscape: bool): Offsets
  {
    Offsets(Trunc(PitchScaled(o.pitch, landscape)), Trunc(RollScaled(o.roll, landscape)), Trunc(o.yaw * 0.5),
            Trunc(o.yaw * 1.5), Trunc(o.pitch * 1.5), Trunc(o.pitch * 0.8))
  }

  /** The correction `compute` adds to id k's neutral position: pitch bends
      thighs (15, 21), knees (17, 23, by -1.5 times) and ankles (19, 25, by
      half); roll tilts the side ankles (18, 24); yaw turns the waist (13)
      and, against it, the neck (1); pitch tilts the head (2) against it and
      swings the shoulders (3 forward, 8 back). */
  function Correction(k: int, f: Offsets): real
  {
    if k == 15 || k == 21 then f.pitch as real
    else if k == 17 || k == 23 then -(f.pitch as real * 1.5)
    else if k == 19 || k == 25 then f.pitch as real * 0.5
    else if k == 18 || k == 24 then f.roll as real
    else if k == 13 then f.waist as real
    else if k == 1 then -(f.neck as real)
    else if k == 2 then -(f.head as real)
    else if k == 3 then f.swing as real
    else if k == 8 then -(f.swing as real)
    else 0.0
  }

  /** The ids `compute` adjusts. */
  const ADJUSTED: set<int> := {1, 2, 3, 8, 13, 15, 17, 18, 19, 21, 23, 24, 25}

  /** What `compute` returns: every id of the neutral pose, in its order,
      at its corrected position clamped to 0..4095. */
  function Corrected(neutral: Dict<int>, o: Orientation, landscape: bool): (t: Dict<real>)
    ensures t.keys == neutral.keys && t.vals.Keys == neutral.vals.Keys
    ensures forall k | k in t.vals :: 0.0 <= t.vals[k] <= 4095.0
  {
    CorrectedBy(neutral, OffsetsOf(o, landscape))
  }

  function CorrectedBy(neutral: Dict<int>, f: Offsets): (t: Dict<real>)
    ensures t.keys == neutral.keys && t.vals.Keys == neutral.vals.Keys
    ensures forall k | k in t.vals :: 0.0 <= t.vals[k] <= 4095.0
    ensures forall k | k in t.vals :: t.vals[k] == Clamp(neutral.vals[k] as real + Correction(k, f))
  {
    Clamped(Unclamped(neutral, f))
  }

  /** The pose before the final clamp. */
  function Unclamped(neutral: Dict<int>, f: Offsets): (t: Dict<real>)
  {
    Dict(neutral.keys, map k | k in neutral.vals :: neutral.vals[k] as real + Correction(k, f))
  }

  function Clamped(t: Dict<real>): (u: Dict<real>)
  {
    Dict(t.keys, map k | k in t.vals :: Clamp(t.vals[k]))
  }

  /** Every id outside the adjusted set keeps its neutral position, clamped. */
  lemma CorrectionOnlyAdjusted(neutral: Dict<int>, f: Offsets, k: int)
    requires k in neutral.vals && k !in ADJUSTED
    ensures CorrectedBy(neutral, f).vals[k] == Clamp(neutral.vals[k] as real)
  {
  }

  /** At rest every offset is zero, and the output is the neutral pose, clamped. */
  lemma CorrectionAtRest(neutral: Dict<int>, landscape: bool)
    ensures OffsetsOf(Orientation(0.0, 0.0, 0.0), landscape) == Offsets(0, 0, 0, 0, 0, 0)
    ensures var t := Corrected(neutral, Orientation(0.0, 0.0, 0.0), landscape);
      forall k | k in neutral.vals :: t.vals[k] == Clamp(neutral.vals[k] as real)
  {
    var f := OffsetsOf(Orientation(0.0, 0.0, 0.0), landscape);
    assert f == Offsets(0, 0, 0, 0, 0, 0);
    assert forall k :: Correction(k, f) == 0.0;
  }

  /** Roll changes only the roll offset, and that moves only the side ankles 18 and 24. */
  lemma RollMovesOnlyAnkles(neutral: Dict<int>, o: Orientation, roll: real, landscape: bool, k: int)
    requires k in neutral.vals && k != 18 && k != 24
    ensures OffsetsOf(o.(roll := roll), landscape) == OffsetsOf(o, landscape).(roll := Trunc(RollScaled(roll, landscape)))
    ensures Corrected(neutral, o, landscape).vals[k] == Corrected(neutral, o.(roll := roll), landscape).vals[k]
  {
    var f := OffsetsOf(o, landscape);
    var g := OffsetsOf(o.(roll := roll), landscape);
    assert o.(roll := roll).pitch == o.pitch && o.(roll := roll).yaw == o.yaw;
    assert g.pitch == f.pitch && g.waist == f.waist && g.neck == f.neck;
    assert g.head == f.head && g.swing == f.swing && g.roll == Trunc(RollScaled(roll, landscape));
    assert Correction(k, f) == Correction(k, g);
  }

  /** Both thighs get the pitch offset, both knees and both ankles equal
      shares of it, both side ankles the roll offset, and the shoulders
      equal and opposite swings. */
  lemma PairedCorrections(f: Offsets)
    ensures Correction(15, f) == Correction(21, f) == f.pitch as real
    ensures Correction(17, f) == Correction(23, f) == -1.5 * Correction(15, f)
    ensures Correction(19, f) == Correction(25, f) == 0.5 * Correction(15, f)
    ensures Correction(18, f) == Correction(24, f) == f.roll as real
    ensures Correction(3, f) == -Correction(8, f) == f.swing as real
  {
  }

  // ---------------------------------------------------------------------
  // The loop body: known ids only, one sync write

  /** The (id, int(position)) pairs of the ids in known, in dict order. */
  function KnownTargets(keys: seq<int>, vals: map<int, real>, known: set<int>): (r: (seq<int>, seq<int>))
    requires forall i | 0 <= i < |keys| :: keys[i] in vals
    ensures |r.0| == |r.1|
    ensures forall i | 0 <= i < |r.0| :: r.0[i] in known && r.0[i] in keys && r.0[i] in vals && r.1[i] == Trunc(vals[r.0[i]])
    decreases |keys|
  {
    if |keys| == 0 then ([], [])
    else
      var n := |keys| - 1;
      var front := KnownTargets(keys[..n], vals, known);
      if keys[n] in known then (front.0 + [keys[n]], front.1 + [Trunc(vals[keys[n]])]) else front
  }

  lemma {:induction false} KnownTargetsComplete(keys: seq<int>, vals: map<int, real>, known: set<int>)
    requires forall i | 0 <= i < |keys| :: keys[i] in vals
    ensures forall k | k in keys && k in known :: k in KnownTargets(keys, vals, known).0
    decreases |keys|
  {
    if |keys| > 0 {
      var n := |keys| - 1;
      KnownTargetsComplete(keys[..n], vals, known);
      forall k | k in keys && k in known ensures k in KnownTargets(keys, vals, known).0 {
        if k != keys[n] {
          var i :| 0 <= i < |keys| && keys[i] == k;
          assert keys[..n][i] == k;
        }
      }
    }
  }

  /** `max(30, int(period * 1000))` */
  function LoopRuntime(period: real): (ms: int)
    ensures ms >= MIN_RUNTIME_MS
  {
    Max(MIN_RUNTIME_MS, Trunc(period * 1000.0))
  }

  /** The frames one tick writes, given the reading and the known ids. */
  function TickFrames(neutral: Dict<int>, landscape: bool, o: Orientation, known: set<int>,
                      period: real, broadcastId: int): seq<Frame>
    requires forall i | 0 <= i < |neutral.keys| :: neutral.keys[i] in neutral.vals
  {
    SentFrames(Corrected(neutral, o, landscape), known, period, broadcastId)
  }

  /** The frames one tick writes for the corrected pose t. */
  function SentFrames(t: Dict<real>, known: set<int>, period: real, broadcastId: int): seq<Frame>
    requires forall i | 0 <= i < |t.keys| :: t.keys[i] in t.vals
  {
    var sent := KnownTargets(t.keys, t.vals, known);
    var rts := Repeat(LoopRuntime(period), |sent.0|);
    if |sent.0| > 0 && UartServo.FirstUnpackable(sent.0, sent.1, rts, 0) == |sent.0|
    then [Frame(broadcastId, CMD_SYNC_WRITE, UartServo.SyncPayload(sent.0, sent.1, rts))]
    else []
  }

  /** The ids whose `is_stop` one tick assigns False: the known ids of the
      corrected pose up to and including the first entry that does not
      pack, none when no id is known. */
  function TickStopped(neutral: Dict<int>, landscape: bool, o: Orientation, known: set<int>, period: real): seq<int>
    requires forall i | 0 <= i < |neutral.keys| :: neutral.keys[i] in neutral.vals
  {
    SentStopped(Corrected(neutral, o, landscape), known, period)
  }

  /** The ids whose `is_stop` one tick assigns False, for the corrected pose t. */
  function SentStopped(t: Dict<real>, known: set<int>, period: real): seq<int>
    requires forall i | 0 <= i < |t.keys| :: t.keys[i] in t.vals
  {
    var sent := KnownTargets(t.keys, t.vals, known);
    var rts := Repeat(LoopRuntime(period), |sent.0|);
    var bad := UartServo.FirstUnpackable(sent.0, sent.1, rts, 0);
    if |sent.0| == 0 then []
    else if bad == |sent.0| then sent.0
    else sent.0[..bad + 1]
  }

  /** A tick's write names only known ids, each at a position in 0..4095,
      all with the same runtime of at least 30 ms. */
  lemma TickFrameContents(neutral: Dict<int>, landscape: bool, o: Orientation, known: set<int>, period: real, broadcastId: int)
    requires forall i | 0 <= i < |neutral.keys| :: neutral.keys[i] in neutral.vals
    ensures var t := Corrected(neutral, o, landscape);
      var sent := KnownTargets(t.keys, t.vals, known);
      var rts := Repeat(LoopRuntime(period), |sent.0|);
      && |TickFrames(neutral, landscape, o, known, period, broadcastId)| <= 1
      && (forall i | 0 <= i < |sent.0| :: sent.0[i] in known && 0 <= sent.1[i] <= 4095 && rts[i] >= MIN_RUNTIME_MS)
      && (TickFrames(neutral, landscape, o, known, period, broadcastId) != [] ==>
            UartServo.ParseSyncPayload(TickFrames(neutral, landscape, o, known, period, broadcastId)[0].params)
              == Some(UartServo.SyncTargets(sent.0, sent.1, rts, |sent.0|)))
  {
    var t := Corrected(neutral, o, landscape);
    var sent := KnownTargets(t.keys, t.vals, known);
    var rts := Repeat(LoopRuntime(period), |sent.0|);
    if |sent.0| > 0 && UartServo.FirstUnpackable(sent.0, sent.1, rts, 0) == |sent.0| {
      UartServo.SyncPayloadDecodes(sent.0, sent.1, rts);
    }
  }

  /** The flags one tick clears, for the corrected pose t: only known ids of t; every id the
      sync write carries when it goes out; none when no id is known; and
      otherwise the ids up to and including the first entry that does not
      pack, which `sync_set_position` reached before raising. */
  lemma SentStoppedContents(t: Dict<real>, known: set<int>, period: real, broadcastId: int)
    requires forall i | 0 <= i < |t.keys| :: t.keys[i] in t.vals
    ensures var sent := KnownTargets(t.keys, t.vals, known);
      var rts := Repeat(LoopRuntime(period), |sent.0|);
      var stopped := SentStopped(t, known, period);
      var frames := SentFrames(t, known, period, broadcastId);
      && (forall k | k in stopped :: k in known && k in t.vals)
      && (|sent.0| == 0 ==> stopped == [] && frames == [])
      && (frames != [] ==> stopped == sent.0)
      && (frames == [] && |sent.0| > 0 ==>
            && 0 < |stopped| <= |sent.0| && stopped == sent.0[..|stopped|]
            && !UartServo.EntryPackable(sent.0, sent.1, rts, |stopped| - 1))
  {
    var sent := KnownTargets(t.keys, t.vals, known);
    var stopped := SentStopped(t, known, period);
    forall k | k in stopped ensures k in known && k in t.vals {
      var i :| 0 <= i < |stopped| && stopped[i] == k;
      assert stopped[i] == sent.0[i];
    }
  }

  /** What one pass did to the manager: it wrote frames, assigned
      `is_stop` False on the ids in stopped, and consumed no reply and
      counted nothing. */
  twostate predicate PassRan(manager: UartServo.UartServoManager, frames: seq<Frame>, stopped: seq<int>)
    reads manager, manager.port, manager.servos.Values
  {
    && manager.port.written == old(manager.port.written) + frames
    && manager.View() == UartServo.StoppedAll(old(manager.View()), stopped)
    && manager.port.replies == old(manager.port.replies) && manager.diag == old(manager.diag)
  }

  /** A pass with known ids is one `sync_set_position` of them: its frame
      goes out when every entry packs, and the flags up to the first entry
      that does not pack are cleared. */
  lemma SentBySync(t: Dict<real>, known: set<int>, period: real, broadcastId: int)
    requires forall i | 0 <= i < |t.keys| :: t.keys[i] in t.vals
    ensures var sent := KnownTargets(t.keys, t.vals, known);
      var rts := Repeat(LoopRuntime(period), |sent.0|);
      var bad := UartServo.FirstUnpackable(sent.0, sent.1, rts, 0);
      |sent.0| > 0 ==>
        && SentFrames(t, known, period, broadcastId)
             == (if bad == |sent.0| then [Frame(broadcastId, CMD_SYNC_WRITE, UartServo.SyncPayload(sent.0, sent.1, rts))] else [])
        && SentStopped(t, known, period) == (if bad == |sent.0| then sent.0 else sent.0[..bad + 1])
  {
  }

  class BalanceController {
    /** `self.neutral` */
    var neutral: Dict<int>
    const isLandscape: bool
    const gainP: real
    const gainR: real
    /** `_loop_running`, False while the attribute does not exist yet. */
    var loopRunning: bool
    /** The period the running loop was started with. */
    var loopPeriod: real

    ghost predicate Valid()
      reads this
    {
      && neutral.Valid()
      && (forall k | 1 <= k <= BODY_IDS :: k in neutral.vals)
      && (forall i | 0 <= i < |neutral.keys| :: neutral.keys[i] in neutral.vals)
    }

    /** `__init__(neutral_positions, is_landscape)`; a missing map is the empty entry list. */
    constructor (entries: seq<Entry>, isLandscape: bool)
      ensures Valid()
      ensures neutral == Completed(entries)
      ensures this.isLandscape == isLandscape && (gainP, gainR) == Gains(isLandscape)
      ensures !loopRunning
    {
      var d := CompleteNeutral(entries);
      neutral := d;
      this.isLandscape := isLandscape;
      var g := Gains(isLandscape);
      gainP, gainR := g.0, g.1;
      loopRunning, loopPeriod := false, 0.0;
      CompletedCoversBody(entries);
    }

    /** `compute(pitch, roll, yaw)`: works on a copy of the neutral pose. */
    method Compute(o: Orientation) returns (t: Dict<real>)
      requires Valid()
      ensures t == Corrected(neutral, o, isLandscape)
    {
      // p_offset, r_offset and the four products `compute` truncates inline
      var f := OffsetsOf(o, isLandscape);
      t := CorrectPose(neutral, f);
    }

    /** `start_loop(servo_manager, imu_reader, period)`: a second start
        while `_loop_running` is True does nothing, even when the thread
        has already ended (see Tick). */
    method StartLoop(period: real)
      modifies this
      ensures neutral == old(neutral)
      ensures old(loopRunning) ==> loopRunning && loopPeriod == old(loopPeriod)
      ensures !old(loopRunning) ==> loopRunning && loopPeriod == period
    {
      if loopRunning {
        return;
      }
      loopRunning := true;
      loopPeriod := period;
    }

    /** `stop_loop`: the thread leaves its `while` at its next check. */
    method StopLoop()
      modifies this
      ensures !loopRunning && neutral == old(neutral) && loopPeriod == old(loopPeriod)
    {
      if loopRunning {
        loopRunning := false;
      }
    }

    /** One turn of the loop thread: it leaves its `while` once
        `_loop_running` is False; otherwise it reads the IMU (None where it
        raised), corrects the pose and sends the known servos' positions in
        one sync write with the loop's runtime, swallowing any exception,
        and then sleeps for the period. goesOn says whether the thread
        turns again: `time.sleep` sits outside the `try`, so a negative
        period raises there and ends the thread after this pass, while
        `_loop_running` stays True and a later `start_loop` does nothing. */
    method Tick(manager: UartServo.UartServoManager, reading: Option<Orientation>) returns (goesOn: bool)
      requires Valid() && manager.Valid()
      modifies manager`diag, manager.port, manager.servos.Values
      ensures manager.Valid() && manager.Kept()
      ensures goesOn == (loopRunning && loopPeriod >= 0.0)
      ensures var sends := loopRunning && reading.Some?;
        PassRan(manager,
                if sends then TickFrames(neutral, isLandscape, reading.value, manager.servos.Keys, loopPeriod, manager.broadcastId) else [],
                if sends then TickStopped(neutral, isLandscape, reading.value, manager.servos.Keys, loopPeriod) else [])
    {
      if !loopRunning || reading.None? {
        UartServo.StoppedAllNone(manager.View());
        assert manager.port.written == old(manager.port.written) + [];
        assert PassRan(manager, [], []);
        return loopRunning && loopPeriod >= 0.0;
      }
      var t := Compute(reading.value);
      Pass(manager, t);
      assert PassRan(manager, TickFrames(neutral, isLandscape, reading.value, manager.servos.Keys, loopPeriod, manager.broadcastId),
                     TickStopped(neutral, isLandscape, reading.value, manager.servos.Keys, loopPeriod));
      goesOn := loopPeriod >= 0.0;
    }

    /** The rest of the `try` block of one loop turn, given the corrected
        pose t: send the known servos' positions in one sync write. */
    method Pass(manager: UartServo.UartServoManager, t: Dict<real>)
      requires manager.Valid() && forall i | 0 <= i < |t.keys| :: t.keys[i] in t.vals
      modifies manager`diag, manager.port, manager.servos.Values
      ensures manager.Valid() && manager.Kept()
      ensures PassRan(manager, SentFrames(t, manager.servos.Keys, loopPeriod, manager.broadcastId),
                      SentStopped(t, manager.servos.Keys, loopPeriod))
    {
      ghost var known := manager.servos.Keys;
      var ids, poses := KnownPositions(t, manager.servos.Keys);
      if |ids| > 0 {
        var runtimes := Repeat(LoopRuntime(loopPeriod), |ids|);
        SentBySync(t, known, loopPeriod, manager.broadcastId);
        var r := manager.SyncSetPosition(ids, poses, runtimes);
        if r.Raised? {
          assert manager.port.written == old(manager.port.written) + [];
        }
      } else {
        UartServo.StoppedAllNone(manager.View());
        assert manager.port.written == old(manager.port.written) + [];
      }
    }
  }

  /** One step of `compute`: add delta to each id of the group. */
  datatype Adjustment = Adjustment(ids: seq<int>, delta: real)

  /** The nine steps of `compute`, in the order it takes them. */
  function Adjustments(f: Offsets): (adj: seq<Adjustment>)
    ensures |adj| == 9
    ensures forall j | 0 <= j < 9 :: forall i | 0 <= i < |adj[j].ids| :: 1 <= adj[j].ids[i] <= BODY_IDS
    ensures forall j | 0 <= j < 9 :: forall i, i' | 0 <= i < i' < |adj[j].ids| :: adj[j].ids[i] != adj[j].ids[i']
  {
    var p := f.pitch as real;
    [ Adjustment([15, 21], p), Adjustment([17, 23], -(p * 1.5)), Adjustment([19, 25], p * 0.5),
      Adjustment([18, 24], f.roll as real), Adjustment([13], f.waist as real),
      Adjustment([1], -(f.neck as real)), Adjustment([2], -(f.head as real)),
      Adjustment([3], f.swing as real), Adjustment([8], -(f.swing as real)) ]
  }

  /** What one step adds to id k. */
  function Share(a: Adjustment, k: int): real
  {
    if k in a.ids then a.delta else 0.0
  }

  /** What the first j steps add to id k. */
  function Partial(adj: seq<Adjustment>, j: nat, k: int): real
    requires j <= |adj|
  {
    if j == 0 then 0.0 else Partial(adj, j - 1, k) + Share(adj[j - 1], k)
  }

  /** The nine steps together add exactly the correction table. */
  lemma AdjustmentsSum(f: Offsets, k: int)
    ensures Partial(Adjustments(f), 9, k) == Correction(k, f)
  {
    var adj := Adjustments(f);
    assert Partial(adj, 1, k) == Share(adj[0], k);
    assert Partial(adj, 3, k) == Partial(adj, 1, k) + Share(adj[1], k) + Share(adj[2], k);
    assert Partial(adj, 5, k) == Partial(adj, 3, k) + Share(adj[3], k) + Share(adj[4], k);
    assert Partial(adj, 7, k) == Partial(adj, 5, k) + Share(adj[5], k) + Share(adj[6], k);
  }

  /** The body of `compute` once the offsets are known: copy the neutral
      pose, take the nine steps, clamp every id. */
  method CorrectPose(neutral: Dict<int>, f: Offsets) returns (t: Dict<real>)
    requires neutral.Valid() && forall k | 1 <= k <= BODY_IDS :: k in neutral.vals
    ensures t == CorrectedBy(neutral, f)
  {
    t := AdjustPose(neutral, f);
    t := ClampAll(t);
  }

  /** Copy the neutral pose and take the nine steps. */
  method AdjustPose(neutral: Dict<int>, f: Offsets) returns (t: Dict<real>)
    requires neutral.Valid() && forall k | 1 <= k <= BODY_IDS :: k in neutral.vals
    ensures t == Unclamped(neutral, f)
  {
    var m0 := map k | k in neutral.vals :: neutral.vals[k] as real;
    t := Dict(neutral.keys, m0);
    t := ApplyAll(t, Adjustments(f));
    AllAdjustmentsSum(f);
    assert t.vals == Unclamped(neutral, f).vals;
  }

  /** The steps of `compute` taken in order on the copy. */
  method ApplyAll(t: Dict<real>, adj: seq<Adjustment>) returns (u: Dict<real>)
    requires forall j, i | 0 <= j < |adj| && 0 <= i < |adj[j].ids| :: adj[j].ids[i] in t.vals
    requires forall j | 0 <= j < |adj| :: forall i, i' | 0 <= i < i' < |adj[j].ids| :: adj[j].ids[i] != adj[j].ids[i']
    ensures u.keys == t.keys && u.vals.Keys == t.vals.Keys
    ensures forall k | k in t.vals :: u.vals[k] == t.vals[k] + Partial(adj, |adj|, k)
  {
    u := t;
    var j := 0;
    while j < |adj|
      invariant 0 <= j <= |adj|
      invariant u.keys == t.keys && u.vals.Keys == t.vals.Keys
      invariant forall k | k in t.vals :: u.vals[k] == t.vals[k] + Partial(adj, j, k)
    {
      u := AddToEach(u, adj[j]);
      j := j + 1;
    }
  }

  lemma AllAdjustmentsSum(f: Offsets)
    ensures forall k :: Partial(Adjustments(f), 9, k) == Correction(k, f)
  {
    forall k ensures Partial(Adjustments(f), 9, k) == Correction(k, f) {
      AdjustmentsSum(f, k);
    }
  }

  /** `for sid in a.ids: targets[sid] += a.delta` */
  method AddToEach(t: Dict<real>, a: Adjustment) returns (u: Dict<real>)
    requires forall i | 0 <= i < |a.ids| :: a.ids[i] in t.vals
    requires forall i, j | 0 <= i < j < |a.ids| :: a.ids[i] != a.ids[j]
    ensures u.keys == t.keys && u.vals.Keys == t.vals.Keys
    ensures forall k | k in t.vals :: u.vals[k] == t.vals[k] + Share(a, k)
  {
    u := t;
    var i := 0;
    while i < |a.ids|
      invariant 0 <= i <= |a.ids|
      invariant u.keys == t.keys && u.vals.Keys == t.vals.Keys
      invariant forall k | k in t.vals :: u.vals[k] == t.vals[k] + Share(Adjustment(a.ids[..i], a.delta), k)
    {
      assert a.ids[..i + 1] == a.ids[..i] + [a.ids[i]];
      u := Dict(u.keys, u.vals[a.ids[i] := u.vals[a.ids[i]] + a.delta]);
      i := i + 1;
    }
    assert a.ids[..|a.ids|] == a.ids;
  }

  /** `for sid in targets: targets[sid] = max(0, min(4095, targets[sid]))` */
  method ClampAll(t: Dict<real>) returns (u: Dict<real>)
    requires forall k | k in t.vals :: k in t.keys
    ensures u == Clamped(t)
  {
    var vals := t.vals;
    var i := 0;
    while i < |t.keys|
      invariant 0 <= i <= |t.keys|
      invariant vals.Keys == t.vals.Keys
      invariant forall k | k in t.vals :: vals[k] == if k in t.keys[..i] then Clamp(t.vals[k]) else t.vals[k]
    {
      var k := t.keys[i];
      assert t.keys[..i + 1] == t.keys[..i] + [k];
      if k in vals {
        vals := vals[k := Clamp(vals[k])];
      }
      i := i + 1;
    }
    forall k | k in t.vals ensures vals[k] == Clamp(t.vals[k]) {
      assert k in t.keys[..|t.keys|];
    }
    assert vals == Clamped(t).vals;
    u := Dict(t.keys, vals);
  }

  /** The filter loop of the tick: known ids and `int(pos)`, in dict order. */
  method KnownPositions(t: Dict<real>, known: set<int>) returns (ids: seq<int>, poses: seq<int>)
    requires forall i | 0 <= i < |t.keys| :: t.keys[i] in t.vals
    ensures (ids, poses) == KnownTargets(t.keys, t.vals, known)
  {
    ids, poses := [], [];
    var i := 0;
    while i < |t.keys|
      invariant 0 <= i <= |t.keys|
      invariant (ids, poses) == KnownTargets(t.keys[..i], t.vals, known)
    {
      var k := t.keys[i];
      assert t.keys[..i + 1][..i] == t.keys[..i];
      if k in known {
        ids, poses := ids + [k], poses + [Trunc(t.vals[k])];
      }
      i := i + 1;
    }
    assert t.keys[..|t.keys|] == t.keys;
  }
}
