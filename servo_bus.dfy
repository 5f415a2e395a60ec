/** `ServoBus`: a thin wrapper around the servo manager that falls back to
    a mock, on which every call does nothing, when the serial link cannot
    be brought up. */
module Bus {
  import opened PyBase
  import opened OrderedDict
  import opened Wire
  import opened Transport
  import opened ServoState
  import opened UartServo

  /** `list(range(1, 26))`: the ids the wrapper hands the manager. */
  function DefaultIds(): (ids: seq<int>)
    ensures |ids| == 25 && forall j | 0 <= j < 25 :: ids[j] == j + 1
  {
    seq(25, j => j + 1)
  }

  // ---------------------------------------------------------------------
  // Timed writes (`move` and the fallback of `move_sync`)

  /** Whether `set_position_time` can build its frame: the target-position
      field is in the table, its address fits a byte and the runtime fits
      16 bits. The position is clamped first, so it always fits. */
  predicate WritesGo(table: FieldTable, runtime: int)
  {
    TargetPosition in table && IsByte(table[TargetPosition].address) && IsU16(runtime)
  }

  /** The frame `set_position_time(id, p, runtime)` writes, or the exception
      it raises: KeyError without a target-position field, struct.error when
      the address or the runtime does not fit. */
  function TimedWrite(table: FieldTable, id: int, p: int, runtime: int): (r: Result<Frame>)
    ensures r.Ok? <==> WritesGo(table, runtime)
    ensures r.Raised? ==> r.error == (if TargetPosition in table then StructError else KeyError)
    ensures r.Ok? ==> r.value.servoId == id && r.value.cmd == CMD_WRITE_DATA && |r.value.params| == 5
  {
    if TargetPosition !in table then Raised(KeyError)
    else
      var address := table[TargetPosition].address;
      var q := GetLegalPosition(p);
      if BhhPackable(address, q, runtime) then Ok(Frame(id, CMD_WRITE_DATA, PackBhh(address, q, runtime)))
      else Raised(StructError)
  }

  /** The payload of a timed write names the target-position address, the
      clamped position and the runtime. */
  lemma TimedWriteDecodes(table: FieldTable, id: int, p: int, runtime: int)
    requires WritesGo(table, runtime)
    ensures EntryOf(TimedWrite(table, id, p, runtime).value.params)
      == SyncTarget(table[TargetPosition].address, GetLegalPosition(p), runtime)
  {
    PackBhhDecodes(table[TargetPosition].address, GetLegalPosition(p), runtime);
  }

  /** The frames of the fallback loop of `move_sync`: one timed write per
      target in order; a write that raises is skipped. */
  function FallbackFrames(table: FieldTable, ids: seq<int>, ps: seq<int>, runtime: int): seq<Frame>
    requires |ids| == |ps|
  {
    if |ids| == 0 then []
    else
      var n := |ids| - 1;
      var f := TimedWrite(table, ids[n], ps[n], runtime);
      FallbackFrames(table, ids[..n], ps[..n], runtime) + (if f.Ok? then [f.value] else [])
  }

  /** All the fallback writes go out or none does: only the table and the
      runtime, which every target shares, decide. */
  lemma {:induction false} FallbackAllOrNothing(table: FieldTable, ids: seq<int>, ps: seq<int>, runtime: int)
    requires |ids| == |ps|
    ensures !WritesGo(table, runtime) ==> FallbackFrames(table, ids, ps, runtime) == []
    ensures WritesGo(table, runtime) ==>
      var fs := FallbackFrames(table, ids, ps, runtime);
      |fs| == |ids| && forall j | 0 <= j < |ids| :: fs[j] == TimedWrite(table, ids[j], ps[j], runtime).value
  {
    if |ids| > 0 {
      var n := |ids| - 1;
      FallbackAllOrNothing(table, ids[..n], ps[..n], runtime);
    }
  }

  /** When `sync_set_position` refuses the targets and the fallback still
      writes, the refused entry is an id that does not fit one byte: a
      runtime that does not fit 16 bits stops both. */
  lemma FallbackOnlyAfterBadId(table: FieldTable, ids: seq<int>, ps: seq<int>, runtime: int)
    requires |ids| == |ps|
    requires FirstUnpackable(ids, ps, Repeat(runtime, |ids|), 0) < |ids|
    requires FallbackFrames(table, ids, ps, runtime) != []
    ensures !IsByte(ids[FirstUnpackable(ids, ps, Repeat(runtime, |ids|), 0)])
  {
    FallbackAllOrNothing(table, ids, ps, runtime);
  }

  /** `int(pos)` for every value of the targets, in their order. */
  function Positions(targets: Dict<real>): (ps: seq<int>)
    requires targets.Valid()
    ensures |ps| == |targets.keys|
    ensures forall j | 0 <= j < |ps| :: targets.keys[j] in targets.vals && ps[j] == Trunc(targets.vals[targets.keys[j]])
  {
    seq(|targets.keys|, j requires 0 <= j < |targets.keys| =>
      var k := targets.keys[j];
      assert k in targets.keys;
      Trunc(targets.vals[k]))
  }

  // ---------------------------------------------------------------------
  // `get_status`

  datatype Status = Status(pos: Option<int>, temp: Option<int>, volt: Option<int>)

  /** What a run of reads leaves behind: the frames written so far, the
      replies still to come, the records and the counters. */
  datatype Trace = Trace(written: seq<Frame>, rest: seq<Option<Reply>>, view: map<int, Snapshot>, diag: DiagStats)

  /** One `read_data_by_name` call, as `ReadOutcome` describes it. */
  function ReadOn(table: FieldTable, id: int, name: Field, t: Trace, diagOn: bool): (out: (Result<Option<int>>, Trace))
    ensures |out.1.rest| <= |t.rest|
  {
    var s := ReadByName(table, id, name, t.rest);
    var d := if s.asked && diagOn then AfterExchange(t.diag, CMD_READ_DATA, t.rest, RETRY_NTIME) else t.diag;
    (s.result, Trace(t.written + s.requests, s.rest, Synced(t.view, s.answer), d))
  }

  /** The three reads of `get_status` in order: position, temperature,
      voltage. The first that raises ends the call with its exception. */
  function StatusRead(table: FieldTable, id: int, t: Trace, diagOn: bool): (out: (Result<Status>, Trace))
  {
    var (p, t1) := ReadOn(table, id, CurrentPosition, t, diagOn);
    if p.Raised? then (Raised(p.error), t1)
    else
      var (q, t2) := ReadOn(table, id, CurrentTemperature, t1, diagOn);
      if q.Raised? then (Raised(q.error), t2)
      else
        var (v, t3) := ReadOn(table, id, CurrentVoltage, t2, diagOn);
        if v.Raised? then (Raised(v.error), t3)
        else (Ok(Status(p.value, q.value, v.value)), t3)
  }

  /** Every frame a read writes is a READ_DATA request to that servo. */
  lemma ReadOnAddressed(table: FieldTable, id: int, name: Field, t: Trace, diagOn: bool)
    ensures var u := ReadOn(table, id, name, t, diagOn).1;
      |t.written| <= |u.written| && u.written[..|t.written|] == t.written
      && forall j | |t.written| <= j < |u.written| :: u.written[j].servoId == id && u.written[j].cmd == CMD_READ_DATA
  {
    var u := ReadOn(table, id, name, t, diagOn).1;
    var s := ReadByName(table, id, name, t.rest);
    assert u.written == t.written + s.requests;
  }

  /** `get_status` only asks the servo it was given, and only reads. */
  lemma StatusAddressed(table: FieldTable, id: int, t: Trace, diagOn: bool)
    ensures var u := StatusRead(table, id, t, diagOn).1;
      |t.written| <= |u.written| && u.written[..|t.written|] == t.written
      && forall j | |t.written| <= j < |u.written| :: u.written[j].servoId == id && u.written[j].cmd == CMD_READ_DATA
  {
    var t1 := ReadOn(table, id, CurrentPosition, t, diagOn).1;
    var t2 := ReadOn(table, id, CurrentTemperature, t1, diagOn).1;
    ReadOnAddressed(table, id, CurrentPosition, t, diagOn);
    ReadOnAddressed(table, id, CurrentTemperature, t1, diagOn);
    ReadOnAddressed(table, id, CurrentVoltage, t2, diagOn);
    var u := StatusRead(table, id, t, diagOn).1;
    forall j | |t.written| <= j < |u.written| ensures u.written[j].servoId == id && u.written[j].cmd == CMD_READ_DATA {
      if j >= |t1.written| && u != t1 {
        assert u.written[..|t1.written|] == t1.written;
      }
    }
  }

  /** A status with all three values took an answer from three receive windows. */
  lemma StatusFullConsumes(table: FieldTable, id: int, t: Trace, diagOn: bool)
    requires var r := StatusRead(table, id, t, diagOn).0;
      r.Ok? && r.value.pos.Some? && r.value.temp.Some? && r.value.volt.Some?
    ensures |StatusRead(table, id, t, diagOn).1.rest| + 3 <= |t.rest|
  {
    var t1 := ReadOn(table, id, CurrentPosition, t, diagOn).1;
    var t2 := ReadOn(table, id, CurrentTemperature, t1, diagOn).1;
    ReadValueConsumes(table, id, CurrentPosition, t.rest);
    ReadValueConsumes(table, id, CurrentTemperature, t1.rest);
    ReadValueConsumes(table, id, CurrentVoltage, t2.rest);
  }

  // ---------------------------------------------------------------------
  // The wrapper

  /** `UartServoManager(self.uart, servo_id_list=list(range(1, 26)))`: a
      fresh manager on the port, then the scan of ids 1..25; ok says
      whether the scan finished without raising. */
  method Connect(port: Port, table: FieldTable, broadcastId: int, motorModeServo: int, torqueOn: int, torqueOff: int)
    returns (m: UartServoManager, ok: bool)
    modifies port
    ensures fresh(m) && m.Valid() && m.port == port && m.table == table && m.broadcastId == broadcastId
    ensures var run := ScanFrom(table, motorModeServo, DefaultIds(), false, old(port.replies), DIAG_ZERO);
      && ok == run.ok
      && port.written == old(port.written) + run.requests && port.replies == run.rest
      && (ok ==>
            && m.servos.Keys == AnsweredIds(DefaultIds(), run.answered)
            && ScanOutcome(m.View(), DefaultIds(), |DefaultIds()|, run.answered, run.readBack)
            && forall k | k in m.servos :: 1 <= k <= 25)
  {
    m := new UartServoManager(port, table, broadcastId, motorModeServo, torqueOn, torqueOff);
    ghost var run := ScanFrom(m.table, m.motorModeServo, DefaultIds(), m.diagEnabled, m.port.replies, m.diag);
    ok := m.ServoScan(DefaultIds());
    AnsweredDefault(run.answered);
  }

  /** Only ids 1..25 can answer a scan of 1..25. */
  lemma AnsweredDefault(answered: seq<bool>)
    requires |answered| <= 25
    ensures forall k | k in AnsweredIds(DefaultIds(), answered) :: 1 <= k <= 25
  {
    forall k | k in AnsweredIds(DefaultIds(), answered) ensures 1 <= k <= 25 {
      var j :| 0 <= j < |answered| && DefaultIds()[j] == k;
    }
  }

  class ServoBus {
    var isMock: bool
    /** `self.uart`, set once the port opened. */
    const uart: Port?
    /** `self.manager`; never assigned when the manager's constructor raised. */
    const manager: UartServoManager?

    ghost predicate Valid()
      reads this, manager
    {
      && (!isMock ==> manager != null)
      && (manager != null ==> manager.Valid() && uart == manager.port)
    }

    /** The objects a call on the bus may change: the manager, its port and its records. */
    ghost function Repr(): set<object>
      reads this, manager
    {
      if manager == null then {} else {manager, manager.port} + manager.servos.Values
    }

    /** What the manager's state looks like to a reader. */
    ghost function Here(): Trace
      requires manager != null
      reads this, manager, manager.port, manager.servos.Values
    {
      Trace(manager.port.written, manager.port.replies, manager.View(), manager.diag)
    }

    /** `__init__`. `link` is the port `serial.Serial` opens, or None when it
        raises. The manager's constructor scans ids 1 to 25; when the scan
        raises, the bus turns mock and `manager` stays unset. */
    constructor (link: Option<Port>, table: FieldTable, broadcastId: int, motorModeServo: int, torqueOn: int, torqueOff: int)
      modifies if link.Some? then {link.value} else {}
      ensures Valid()
      ensures link.None? ==> isMock && uart == null && manager == null
      ensures link.Some? ==> uart == link.value && (isMock <==> manager == null)
      ensures manager != null ==> fresh(manager) && manager.table == table && manager.broadcastId == broadcastId
      ensures manager != null ==> forall k | k in manager.servos :: 1 <= k <= 25
      ensures link.Some? ==>
        var run := ScanFrom(table, motorModeServo, DefaultIds(), false, old(link.value.replies), DIAG_ZERO);
        && (isMock <==> !run.ok)
        && link.value.written == old(link.value.written) + run.requests && link.value.replies == run.rest
        && (manager != null ==> manager.servos.Keys == AnsweredIds(DefaultIds(), run.answered))
    {
      if link.None? {
        isMock, uart, manager := true, null, null;
      } else {
        var m, ok := Connect(link.value, table, broadcastId, motorModeServo, torqueOn, torqueOff);
        if ok {
          isMock, uart, manager := false, link.value, m;
        } else {
          isMock, uart, manager := true, link.value, null;
        }
      }
    }

    /** `close`: close the port unless mock, and turn mock. */
    method Close()
      requires Valid()
      modifies this, uart
      ensures Valid() && isMock
      ensures !old(isMock) ==> uart != null && !uart.isOpen && uart.written == old(uart.written) && uart.replies == old(uart.replies)
      ensures old(isMock) && uart != null ==> unchanged(uart)
    {
      if !isMock && uart != null {
        uart.Close();
      }
      isMock := true;
    }

    /** `move(sid, position, time_ms)`: one timed write, `int(position)`. */
    method Move(sid: int, position: real, timeMs: int) returns (r: Result<()>)
      requires Valid()
      modifies Repr()
      ensures Valid()
      ensures isMock ==> r == Ok(()) && unchanged(old(Repr()))
      ensures !isMock ==>
        var w := TimedWrite(manager.table, sid, Trunc(position), timeMs);
        && manager.Kept() && manager.View() == old(manager.View())
        && manager.port.replies == old(manager.port.replies) && manager.diag == old(manager.diag)
        && (if w.Ok? then r == Ok(()) && manager.port.written == old(manager.port.written) + [w.value]
            else r == Raised(w.error) && manager.port.written == old(manager.port.written))
    {
      if isMock {
        return Ok(());
      }
      var w := manager.SetPositionTime(sid, Trunc(position), Some(timeMs), None);
      r := if w.Raised? then Raised(w.error) else Ok(());
    }

    /** The `for` loop that builds the three lists of `move_sync`. */
    method SyncLists(targets: Dict<real>, timeMs: int) returns (ids: seq<int>, ps: seq<int>, rts: seq<int>)
      requires targets.Valid()
      ensures ids == targets.keys && ps == Positions(targets) && rts == Repeat(timeMs, |ids|)
    {
      ids, ps, rts := [], [], [];
      var i := 0;
      while i < |targets.keys|
        invariant 0 <= i <= |targets.keys|
        invariant ids == targets.keys[..i] && ps == Positions(targets)[..i] && rts == Repeat(timeMs, i)
      {
        var sid := targets.keys[i];
        ids := ids + [sid];
        ps := ps + [Trunc(targets.vals[sid])];
        rts := rts + [timeMs];
        i := i + 1;
      }
      assert targets.keys[..i] == targets.keys;
      assert Positions(targets)[..i] == Positions(targets);
    }

    /** The fallback loop of `move_sync`: each target's timed write, its
        exception swallowed. */
    method Fallback(ids: seq<int>, ps: seq<int>, runtime: int)
      requires Valid() && manager != null && |ids| == |ps|
      modifies manager`diag, manager.port, manager.servos.Values
      ensures Valid() && manager.Kept() && manager.View() == old(manager.View())
      ensures manager.port.written == old(manager.port.written) + FallbackFrames(manager.table, ids, ps, runtime)
      ensures manager.port.replies == old(manager.port.replies) && manager.diag == old(manager.diag)
    {
      var i := 0;
      while i < |ids|
        invariant 0 <= i <= |ids|
        invariant Valid() && manager.Kept() && manager.View() == old(manager.View())
        invariant manager.port.written == old(manager.port.written) + FallbackFrames(manager.table, ids[..i], ps[..i], runtime)
        invariant manager.port.replies == old(manager.port.replies) && manager.diag == old(manager.diag)
      {
        var _ := manager.SetPositionTime(ids[i], ps[i], Some(runtime), None);
        assert ids[..i + 1][..i] == ids[..i] && ps[..i + 1][..i] == ps[..i];
        i := i + 1;
      }
      assert ids[..i] == ids && ps[..i] == ps;
    }

    /** `move_sync(targets, time_ms)`: all targets in one SYNC_WRITE; when
        `sync_set_position` raises, one timed write per target (each
        exception swallowed) and then a broadcast ACTION. */
    method MoveSync(targets: Dict<real>, timeMs: int)
      requires Valid() && targets.Valid()
      modifies Repr()
      ensures Valid()
      ensures isMock || |targets.keys| == 0 ==> unchanged(old(Repr()))
      ensures !isMock && |targets.keys| > 0 ==>
        var ids := targets.keys;
        var ps := Positions(targets);
        var rts := Repeat(timeMs, |ids|);
        var bad := FirstUnpackable(ids, ps, rts, 0);
        && manager.Kept() && manager.port.replies == old(manager.port.replies) && manager.diag == old(manager.diag)
        && manager.View() == StoppedAll(old(manager.View()), if bad == |ids| then ids else ids[..bad + 1])
        && manager.port.written == old(manager.port.written) +
          if bad == |ids| then [Frame(manager.broadcastId, CMD_SYNC_WRITE, SyncPayload(ids, ps, rts))]
          else FallbackFrames(manager.table, ids, ps, timeMs) + [Frame(manager.broadcastId, CMD_ACTION, [])]
    {
      if isMock || |targets.keys| == 0 {
        return;
      }
      var ids, ps, rts := SyncLists(targets, timeMs);
      var r := manager.SyncSetPosition(ids, ps, rts);
      ghost var v1 := manager.View();
      if r.Raised? {
        Recover(ids, ps, timeMs);
      }
      assert manager.View() == v1;
    }

    /** The `except` branch of `move_sync`: the fallback writes, then ACTION. */
    method Recover(ids: seq<int>, ps: seq<int>, runtime: int)
      requires Valid() && manager != null && |ids| == |ps|
      modifies manager`diag, manager.port, manager.servos.Values
      ensures Valid() && manager.Kept() && manager.View() == old(manager.View())
      ensures manager.port.written == old(manager.port.written) + FallbackFrames(manager.table, ids, ps, runtime)
        + [Frame(manager.broadcastId, CMD_ACTION, [])]
      ensures manager.port.replies == old(manager.port.replies) && manager.diag == old(manager.diag)
    {
      Fallback(ids, ps, runtime);
      var _ := manager.AsyncAction();
    }

    /** `set_torque(enable)`: `torque_enable_all`, whose result is dropped. */
    method SetTorque(enable: bool) returns (r: Result<()>)
      requires Valid()
      modifies Repr()
      ensures Valid()
      ensures isMock ==> r == Ok(()) && unchanged(old(Repr()))
      ensures !isMock ==>
        var e := WriteEffect(manager.table, manager.broadcastId, Field.TorqueEnable,
                             if enable then manager.torqueOn else manager.torqueOff);
        && manager.Kept() && manager.View() == old(manager.View())
        && manager.port.replies == old(manager.port.replies) && manager.diag == old(manager.diag)
        && manager.port.written == old(manager.port.written) + Emitted(e)
        && r == (if e.Raised? then Raised(e.error) else Ok(()))
    {
      if isMock {
        return Ok(());
      }
      var w := manager.TorqueEnableAll(enable);
      r := if w.Raised? then Raised(w.error) else Ok(());
    }

    /** `get_status(sid)`: None when mock, else the three reads. */
    method GetStatus(sid: int) returns (r: Result<Option<Status>>)
      requires Valid()
      modifies Repr()
      ensures Valid()
      ensures isMock ==> r == Ok(None) && unchanged(old(Repr()))
      ensures !isMock ==>
        var out := StatusRead(manager.table, sid, old(Here()), manager.diagEnabled);
        && manager.Kept() && Here() == out.1
        && r == (if out.0.Raised? then Raised(out.0.error) else Ok(Some(out.0.value)))
    {
      if isMock {
        return Ok(None);
      }
      ghost var t0 := Here();
      var p := manager.ReadDataByName(sid, CurrentPosition);
      ghost var t1 := Here();
      assert (p, t1) == ReadOn(manager.table, sid, CurrentPosition, t0, manager.diagEnabled);
      if p.Raised? {
        return Raised(p.error);
      }
      var q := manager.ReadDataByName(sid, CurrentTemperature);
      ghost var t2 := Here();
      assert (q, t2) == ReadOn(manager.table, sid, CurrentTemperature, t1, manager.diagEnabled);
      if q.Raised? {
        return Raised(q.error);
      }
      var v := manager.ReadDataByName(sid, CurrentVoltage);
      assert (v, Here()) == ReadOn(manager.table, sid, CurrentVoltage, t2, manager.diagEnabled);
      if v.Raised? {
        return Raised(v.error);
      }
      r := Ok(Some(Status(p.value, q.value, v.value)));
    }
  }
}
