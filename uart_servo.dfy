/** The servo-bus session manager (`UartServoManager`): request/response
    transactions with a bounded retry budget, id scanning, named field
    reads and writes, the position-write payloads (single, register-write
    plus action, and the one-frame broadcast sync write), settle/stall
    polling, and the diagnostics counters. */
module UartServo {
  import opened PyBase
  import opened Wire
  import opened Transport
  import opened ServoState

  /** Attempts of a response-bearing request when the caller gives none. */
  const RETRY_NTIME: int := 10
  /** `ping` and `find_servo` use `max(3, RETRY_NTIME or 3)` attempts. */
  const PING_RETRY: int := Max(3, if RETRY_NTIME == 0 then 3 else RETRY_NTIME)
  /** `wait` treats an error below this many position steps as settled. */
  const POSITION_DEADAREA: int := 10
  /** `wait` gives up once the same error has been read this many times. */
  const STALL_REPEATS: int := 100
  /** The address `find_servo` pings. */
  const FIND_SERVO_ID: int := 254
  /** The first two parameter bytes of a sync write. */
  const SYNC_HEADER: seq<Byte> := [0x2A, 0x04]
  const TIMEOUT_ERROR: string := "response-timeout-or-invalid-packet"

  function Abs(x: int): nat { if x < 0 then -x else x }

  // ---------------------------------------------------------------------
  // Positions

  /** `get_legal_position`: clamp to the servo's range 0..4095. */
  function GetLegalPosition(position: int): (p: int)
    ensures 0 <= p <= 4095
    ensures 0 <= position <= 4095 ==> p == position
    ensures position > 4095 ==> p == 4095
    ensures position < 0 ==> p == 0
  {
    if position > 4095 then 4095 else if position < 0 then 0 else position
  }

  lemma LegalPositionIdempotent(position: int)
    ensures GetLegalPosition(GetLegalPosition(position)) == GetLegalPosition(position)
  {
  }

  /** `ang2pos`: the manager's own angle-to-position conversion. */
  function AngToPos(angle: real): (position: real)
    ensures position == AngleToPosition(angle)
  {
    (angle + 180.0) / (360.0 / 4096.0)
  }

  // ---------------------------------------------------------------------
  // Parameter payloads (struct '>BHH' and the sync-write body)

  predicate BhhPackable(b: int, h1: int, h2: int)
  {
    IsByte(b) && IsU16(h1) && IsU16(h2)
  }

  /** `struct.pack('>BHH', b, h1, h2)` */
  function PackBhh(b: int, h1: int, h2: int): (bs: seq<Byte>)
    requires BhhPackable(b, h1, h2)
    ensures |bs| == 5
  {
    [b] + U16BE(h1) + U16BE(h2)
  }

  /** Entry j of a sync write can be built: both lists reach index j (else
      IndexError) and `struct.pack` accepts the id and the runtime (else
      struct.error); the position is clamped first, so it always packs. */
  predicate EntryPackable(ids: seq<int>, positions: seq<int>, runtimes: seq<int>, j: nat)
    requires j < |ids|
  {
    j < |positions| && j < |runtimes| && IsByte(ids[j]) && IsU16(runtimes[j])
  }

  /** The exception the failing entry j raises. */
  function EntryError(positions: seq<int>, runtimes: seq<int>, j: nat): PyError
  {
    if j >= |positions| || j >= |runtimes| then IndexError else StructError
  }

  /** The first entry that cannot be built, or |ids| if every one can. */
  function FirstUnpackable(ids: seq<int>, positions: seq<int>, runtimes: seq<int>, from: nat): (k: nat)
    requires from <= |ids|
    ensures from <= k <= |ids|
    ensures forall j | from <= j < k :: EntryPackable(ids, positions, runtimes, j)
    ensures k < |ids| ==> !EntryPackable(ids, positions, runtimes, k)
    decreases |ids| - from
  {
    if from == |ids| then from
    else if !EntryPackable(ids, positions, runtimes, from) then from
    else FirstUnpackable(ids, positions, runtimes, from + 1)
  }

  /** The sync-write body for the first k servos: id, clamped position and
      runtime of each, five bytes per servo, in list order. */
  function SyncBody(ids: seq<int>, positions: seq<int>, runtimes: seq<int>, k: nat): (bs: seq<Byte>)
    requires k <= |ids|
    requires forall j | 0 <= j < k :: EntryPackable(ids, positions, runtimes, j)
    ensures |bs| == 5 * k
  {
    if k == 0 then []
    else
      assert EntryPackable(ids, positions, runtimes, k - 1);
      SyncBody(ids, positions, runtimes, k - 1)
         + PackBhh(ids[k - 1], GetLegalPosition(positions[k - 1]), runtimes[k - 1])
  }

  /** The parameter bytes of `sync_set_position(ids, positions, runtimes)`. */
  function SyncPayload(ids: seq<int>, positions: seq<int>, runtimes: seq<int>): (bs: seq<Byte>)
    requires FirstUnpackable(ids, positions, runtimes, 0) == |ids|
    ensures |bs| == 2 + 5 * |ids|
    ensures bs[..2] == SYNC_HEADER
  {
    SYNC_HEADER + SyncBody(ids, positions, runtimes, |ids|)
  }

  /** The state of `sync_set_position`'s loop after i entries: all of
      them packed, and params is the header and their bytes. */
  ghost predicate SyncProgress(ids: seq<int>, positions: seq<int>, runtimes: seq<int>, i: nat, params: seq<Byte>)
    requires i <= |ids|
  {
    && (forall j | 0 <= j < i :: EntryPackable(ids, positions, runtimes, j))
    && FirstUnpackable(ids, positions, runtimes, 0) == FirstUnpackable(ids, positions, runtimes, i)
    && params == SYNC_HEADER + SyncBody(ids, positions, runtimes, i)
  }

  lemma SyncProgressStep(ids: seq<int>, positions: seq<int>, runtimes: seq<int>, i: nat, params: seq<Byte>)
    requires i < |ids| && SyncProgress(ids, positions, runtimes, i, params)
    requires EntryPackable(ids, positions, runtimes, i)
    ensures SyncProgress(ids, positions, runtimes, i + 1,
                         params + PackBhh(ids[i], GetLegalPosition(positions[i]), runtimes[i]))
  {
  }

  lemma SyncProgressStops(ids: seq<int>, positions: seq<int>, runtimes: seq<int>, i: nat, params: seq<Byte>)
    requires i < |ids| && SyncProgress(ids, positions, runtimes, i, params)
    requires !EntryPackable(ids, positions, runtimes, i)
    ensures FirstUnpackable(ids, positions, runtimes, 0) == i
  {
  }

  lemma SyncProgressDone(ids: seq<int>, positions: seq<int>, runtimes: seq<int>, params: seq<Byte>)
    requires SyncProgress(ids, positions, runtimes, |ids|, params)
    ensures FirstUnpackable(ids, positions, runtimes, 0) == |ids|
    ensures params == SyncPayload(ids, positions, runtimes)
  {
  }

  /** What a servo reads out of a sync write: (id, position, runtime) per servo. */
  datatype SyncTarget = SyncTarget(id: int, position: int, runtime: int)

  function SyncTargets(ids: seq<int>, positions: seq<int>, runtimes: seq<int>, k: nat): (ts: seq<SyncTarget>)
    requires k <= |ids|
    requires forall j | 0 <= j < k :: EntryPackable(ids, positions, runtimes, j)
    ensures |ts| == k
  {
    seq(k, j requires 0 <= j < k =>
      assert EntryPackable(ids, positions, runtimes, j);
      SyncTarget(ids[j], GetLegalPosition(positions[j]), runtimes[j]))
  }

  /** Reads a sync-write body back five bytes at a time. */
  function ParseSyncBody(bs: seq<Byte>): Option<seq<SyncTarget>>
    decreases |bs|
  {
    if |bs| == 0 then Some([])
    else if |bs| < 5 then None
    else
      var n := |bs| - 5;
      match ParseSyncBody(bs[..n])
      case None => None
      case Some(front) => Some(front + [EntryOf(bs[n..])])
  }

  function ParseSyncPayload(bs: seq<Byte>): Option<seq<SyncTarget>>
  {
    if |bs| >= 2 && bs[..2] == SYNC_HEADER then ParseSyncBody(bs[2..]) else None
  }

  /** The five bytes of one entry read back as that entry. */
  function EntryOf(bs: seq<Byte>): SyncTarget
    requires |bs| == 5
  {
    SyncTarget(bs[0], (bs[1] as int) * 256 + bs[2] as int, (bs[3] as int) * 256 + bs[4] as int)
  }

  lemma PackBhhDecodes(b: int, h1: int, h2: int)
    requires BhhPackable(b, h1, h2)
    ensures EntryOf(PackBhh(b, h1, h2)) == SyncTarget(b, h1, h2)
  {
    var bs := PackBhh(b, h1, h2);
    assert bs[1..3] == U16BE(h1) && bs[3..5] == U16BE(h2);
  }

  lemma ParseSyncBodySnoc(front: seq<Byte>, entry: seq<Byte>)
    requires |entry| == 5
    ensures ParseSyncBody(front + entry) ==
      match ParseSyncBody(front)
      case None => None
      case Some(ts) => Some(ts + [EntryOf(entry)])
  {
    var bs := front + entry;
    var n := |bs| - 5;
    assert bs[..n] == front;
    assert bs[n..] == entry;
  }

  lemma SyncTargetsSnoc(ids: seq<int>, positions: seq<int>, runtimes: seq<int>, k: nat)
    requires 0 < k <= |ids|
    requires forall j | 0 <= j < k :: EntryPackable(ids, positions, runtimes, j)
    ensures EntryPackable(ids, positions, runtimes, k - 1)
    ensures SyncTargets(ids, positions, runtimes, k) ==
      SyncTargets(ids, positions, runtimes, k - 1) + [SyncTarget(ids[k - 1], GetLegalPosition(positions[k - 1]), runtimes[k - 1])]
  {
    assert EntryPackable(ids, positions, runtimes, k - 1);
  }

  lemma {:induction false} SyncBodyDecodes(ids: seq<int>, positions: seq<int>, runtimes: seq<int>, k: nat)
    requires k <= |ids|
    requires forall j | 0 <= j < k :: EntryPackable(ids, positions, runtimes, j)
    ensures ParseSyncBody(SyncBody(ids, positions, runtimes, k)) == Some(SyncTargets(ids, positions, runtimes, k))
  {
    if k > 0 {
      assert EntryPackable(ids, positions, runtimes, k - 1);
      SyncBodyDecodes(ids, positions, runtimes, k - 1);
      var p := GetLegalPosition(positions[k - 1]);
      var front := SyncBody(ids, positions, runtimes, k - 1);
      var entry := PackBhh(ids[k - 1], p, runtimes[k - 1]);
      assert SyncBody(ids, positions, runtimes, k) == front + entry;
      ParseSyncBodySnoc(front, entry);
      PackBhhDecodes(ids[k - 1], p, runtimes[k - 1]);
      SyncTargetsSnoc(ids, positions, runtimes, k);
    }
  }

  /** A sync write carries every (id, clamped position, runtime) triple, in order. */
  lemma SyncPayloadDecodes(ids: seq<int>, positions: seq<int>, runtimes: seq<int>)
    requires FirstUnpackable(ids, positions, runtimes, 0) == |ids|
    ensures ParseSyncPayload(SyncPayload(ids, positions, runtimes)) == Some(SyncTargets(ids, positions, runtimes, |ids|))
  {
    var bs := SyncPayload(ids, positions, runtimes);
    assert bs[2..] == SyncBody(ids, positions, runtimes, |ids|);
    SyncBodyDecodes(ids, positions, runtimes, |ids|);
  }

  // ---------------------------------------------------------------------
  // One request/response exchange against the scripted receive windows

  /** `retry_ntime`, defaulting to RETRY_NTIME. */
  function RetryBudget(retry: Option<int>): int
  {
    if retry.Some? then retry.value else RETRY_NTIME
  }

  /** How many times the frame is written when each write is followed by one
      receive window and the loop stops at the first reply, n tries at most. */
  function Attempts(rs: seq<Option<Reply>>, n: int): (k: nat)
    ensures k <= Max(0, n)
    decreases Max(0, n)
  {
    if n <= 0 then 0
    else if Next(rs).Some? then 1
    else 1 + Attempts(Drop(rs, 1), n - 1)
  }

  /** The reply that ends the exchange, or None once n tries went unanswered. */
  function Answer(rs: seq<Option<Reply>>, n: int): Option<Reply>
    decreases Max(0, n)
  {
    if n <= 0 then None
    else if Next(rs).Some? then Next(rs)
    else Answer(Drop(rs, 1), n - 1)
  }

  /** A bus that never answers costs exactly n writes and fails. */
  lemma {:induction false} ExchangeSilent(rs: seq<Option<Reply>>, n: int)
    requires forall i: nat | i < n :: At(rs, i).None?
    ensures Answer(rs, n) == None && Attempts(rs, n) == Max(0, n)
  {
    if n > 0 {
      assert At(rs, 0).None?;
      forall i: nat | i < n - 1 ensures At(Drop(rs, 1), i).None? {
        assert At(rs, i + 1).None?;
      }
      ExchangeSilent(Drop(rs, 1), n - 1);
    }
  }

  /** A first reply in window i < n ends the exchange after exactly i + 1 writes. */
  lemma {:induction false} ExchangeAnsweredAt(rs: seq<Option<Reply>>, n: int, i: nat)
    requires i < n && At(rs, i).Some?
    requires forall j: nat | j < i :: At(rs, j).None?
    ensures Answer(rs, n) == At(rs, i) && Attempts(rs, n) == i + 1
  {
    if i > 0 {
      assert At(rs, 0).None?;
      forall j: nat | j < i - 1 ensures At(Drop(rs, 1), j).None? {
        assert At(rs, j + 1).None?;
      }
      ExchangeAnsweredAt(Drop(rs, 1), n - 1, i - 1);
    }
  }

  /** A failed exchange always spends its whole budget. */
  lemma {:induction false} ExchangeFailureSpendsBudget(rs: seq<Option<Reply>>, n: int)
    requires Answer(rs, n).None?
    ensures Attempts(rs, n) == Max(0, n)
    decreases Max(0, n)
  {
    if n > 0 && Next(rs).None? {
      ExchangeFailureSpendsBudget(Drop(rs, 1), n - 1);
    }
  }

  /** A successful exchange consumed at least one and at most |rs| windows. */
  lemma {:induction false} ExchangeAnswerConsumes(rs: seq<Option<Reply>>, n: int)
    requires Answer(rs, n).Some?
    ensures 1 <= Attempts(rs, n) <= |rs|
    decreases Max(0, n)
  {
    if Next(rs).None? {
      ExchangeAnswerConsumes(Drop(rs, 1), n - 1);
    }
  }

  /** The state of the retry loop after i unanswered tries, from the script
      rs and the frames w0 written before: i copies of f were written, i
      windows consumed, and the rest of the exchange runs on what is left. */
  ghost predicate ExchangeAt(rs: seq<Option<Reply>>, n: int, f: Frame, w0: seq<Frame>, i: nat,
                             written: seq<Frame>, replies: seq<Option<Reply>>)
  {
    && replies == Drop(rs, i)
    && written == w0 + Repeat(f, i)
    && Attempts(rs, n) == i + Attempts(Drop(rs, i), n - i)
    && Answer(rs, n) == Answer(Drop(rs, i), n - i)
  }

  /** One more try: a reply ends the exchange, silence goes round again. */
  lemma ExchangeStep(rs: seq<Option<Reply>>, n: int, f: Frame, w0: seq<Frame>, i: nat,
                     written: seq<Frame>, replies: seq<Option<Reply>>)
    requires i < n && ExchangeAt(rs, n, f, w0, i, written, replies)
    ensures Next(replies) == At(rs, i)
    ensures At(rs, i).Some? ==> Attempts(rs, n) == i + 1 && Answer(rs, n) == At(rs, i)
    ensures At(rs, i).None? ==> ExchangeAt(rs, n, f, w0, i + 1, written + [f], Drop(replies, 1))
    ensures written + [f] == w0 + Repeat(f, i + 1)
  {
    RepeatSnoc(f, i);
    DropStep(rs, i);
    var d := Drop(rs, i);
    assert Attempts(d, n - i) == if Next(d).Some? then 1 else 1 + Attempts(Drop(d, 1), n - i - 1);
    assert Answer(d, n - i) == if Next(d).Some? then Next(d) else Answer(Drop(d, 1), n - i - 1);
  }

  // ---------------------------------------------------------------------
  // Diagnostics counters (`_diag_stat`)

  datatype DiagStats = DiagStats(
    waitReq: nat, waitOk: nat, waitFail: nat,
    readReq: nat, readOk: nat, readFail: nat,
    pingReq: nat, pingOk: nat, pingFail: nat,
    totalRetryUsed: nat, lastRspLen: nat, lastError: string)

  const DIAG_ZERO: DiagStats := DiagStats(0, 0, 0, 0, 0, 0, 0, 0, 0, 0, 0, "")

  /** Each bucket's requests split into successes and failures. */
  predicate DiagConsistent(d: DiagStats)
  {
    && d.waitReq == d.waitOk + d.waitFail
    && d.readReq == d.readOk + d.readFail
    && d.pingReq == d.pingOk + d.pingFail
  }

  /** No counter of b is below a's. */
  predicate DiagGrows(a: DiagStats, b: DiagStats)
  {
    && a.waitReq <= b.waitReq && a.waitOk <= b.waitOk && a.waitFail <= b.waitFail
    && a.readReq <= b.readReq && a.readOk <= b.readOk && a.readFail <= b.readFail
    && a.pingReq <= b.pingReq && a.pingOk <= b.pingOk && a.pingFail <= b.pingFail
    && a.totalRetryUsed <= b.totalRetryUsed
  }

  /** The counters after `_diag_record_wait_response` while enabled. */
  function Recorded(d: DiagStats, cmd: int, ok: bool, retryUsed: int, rspLen: int, err: string): DiagStats
  {
    var isRead := cmd == CMD_READ_DATA;
    var isPing := !isRead && cmd == CMD_PING;
    DiagStats(
      d.waitReq + 1,
      if ok then d.waitOk + 1 else d.waitOk,
      if ok then d.waitFail else d.waitFail + 1,
      if isRead then d.readReq + 1 else d.readReq,
      if isRead && ok then d.readOk + 1 else d.readOk,
      if isRead && !ok then d.readFail + 1 else d.readFail,
      if isPing then d.pingReq + 1 else d.pingReq,
      if isPing && ok then d.pingOk + 1 else d.pingOk,
      if isPing && !ok then d.pingFail + 1 else d.pingFail,
      d.totalRetryUsed + Max(0, retryUsed),
      Max(0, rspLen),
      if err != "" then err else d.lastError)
  }

  lemma RecordedKeepsCounts(d: DiagStats, cmd: int, ok: bool, retryUsed: int, rspLen: int, err: string)
    requires DiagConsistent(d)
    ensures var d' := Recorded(d, cmd, ok, retryUsed, rspLen, err);
      && DiagConsistent(d')
      && DiagGrows(d, d')
      && d'.waitReq == d.waitReq + 1
      && d'.totalRetryUsed == d.totalRetryUsed + Max(0, retryUsed)
  {
  }

  /** The counters after one exchange of `send_request` that waited for a reply. */
  function AfterExchange(d: DiagStats, cmd: int, rs: seq<Option<Reply>>, n: int): DiagStats
  {
    var a := Answer(rs, n);
    if a.Some? then Recorded(d, cmd, true, Attempts(rs, n), a.value.rawLen, "")
    else Recorded(d, cmd, false, n, 0, TIMEOUT_ERROR)
  }

  /** total_retry_used grows by exactly the number of frames the exchange wrote. */
  lemma AfterExchangeCountsWrites(d: DiagStats, cmd: int, rs: seq<Option<Reply>>, n: int)
    requires DiagConsistent(d)
    ensures var d' := AfterExchange(d, cmd, rs, n);
      && DiagConsistent(d') && DiagGrows(d, d')
      && d'.totalRetryUsed == d.totalRetryUsed + Attempts(rs, n)
      && (d'.waitOk == d.waitOk + 1 <==> Answer(rs, n).Some?)
  {
    if Answer(rs, n).None? {
      ExchangeFailureSpendsBudget(rs, n);
    }
  }

  // ---------------------------------------------------------------------
  // Named fields

  /** The effect of `write_data_by_name`: no frame for an unknown name,
      struct.error for a value or address the format refuses, else the
      WRITE frame. */
  function WriteEffect(table: FieldTable, id: int, name: Field, value: int): Result<Option<Frame>>
  {
    if name !in table then Ok(None)
    else
      var fs := table[name];
      if !Fits(fs.dtype, value) || !IsByte(fs.address) then Raised(StructError)
      else Ok(Some(Frame(id, CMD_WRITE_DATA, [fs.address] + Pack(fs.dtype, value).value)))
  }

  function Emitted(e: Result<Option<Frame>>): seq<Frame>
  {
    if e.Ok? && e.value.Some? then [e.value.value] else []
  }

  /** What `write_data_by_name` returns: whether a frame went out, or the exception. */
  function WriteReturn(e: Result<Option<Frame>>): Result<bool>
  {
    if e.Raised? then Raised(e.error) else Ok(e.value.Some?)
  }

  /** The decoded value of a read reply, struct.error on a wrong byte count. */
  function DecodeRead(dt: DType, a: Option<Reply>): Result<Option<int>>
  {
    if a.None? then Ok(None)
    else match Unpack(dt, a.value.params)
      case None => Raised(StructError)
      case Some(v) => Ok(Some(v))
  }

  /** The effect of `read_data_by_name` against the script rs. */
  datatype ReadStep = ReadStep(
    result: Result<Option<int>>,
    requests: seq<Frame>,
    rest: seq<Option<Reply>>,
    answer: Option<Reply>,
    asked: bool)

  function ReadByName(table: FieldTable, id: int, name: Field, rs: seq<Option<Reply>>): (s: ReadStep)
    ensures s.answer.Some? ==> s.asked
    ensures !s.asked ==> s.requests == [] && s.rest == rs
    ensures forall i | 0 <= i < |s.requests| :: s.requests[i].servoId == id && s.requests[i].cmd == CMD_READ_DATA
  {
    if name !in table then ReadStep(Ok(None), [], rs, None, false)
    else
      var fs := table[name];
      if !IsByte(fs.address) then ReadStep(Raised(StructError), [], rs, None, false)
      else
        var f := Frame(id, CMD_READ_DATA, [fs.address, Size(fs.dtype)]);
        var k := Attempts(rs, RETRY_NTIME);
        var a := Answer(rs, RETRY_NTIME);
        ReadStep(DecodeRead(fs.dtype, a), Repeat(f, k), Drop(rs, k), a, true)
  }

  /** A read that returned a value consumed at least one receive window. */
  lemma ReadValueConsumes(table: FieldTable, id: int, name: Field, rs: seq<Option<Reply>>)
    requires ReadByName(table, id, name, rs).result.Ok? && ReadByName(table, id, name, rs).result.value.Some?
    ensures |ReadByName(table, id, name, rs).rest| < |rs|
  {
    var s := ReadByName(table, id, name, rs);
    assert s.answer.Some?;
    ExchangeAnswerConsumes(rs, RETRY_NTIME);
  }

  // ---------------------------------------------------------------------
  // `wait` against the scripted receive windows

  /** One poll of `wait`: the distance between the position read and the
      target; arithmetic on a missing position raises TypeError. */
  function PollValue(cur: Result<Option<int>>, target: Option<int>): Result<int>
  {
    if cur.Raised? then Raised(cur.error)
    else if cur.value.None? || target.None? then Raised(TypeError)
    else Ok(Abs(cur.value.value - target.value))
  }

  /** A run of `wait`: how it ends, the frames it writes, the script it
      leaves, every error polled (in order), and the records and counters
      after the reads (before `is_stop` is assigned). */
  datatype WaitRun = WaitRun(
    result: Result<WaitEnd>, requests: seq<Frame>, rest: seq<Option<Reply>>,
    errors: seq<int>, view: map<int, Snapshot>, diag: DiagStats)

  /** `wait` from the script rs once the errors in `seen` were polled: each
      poll reads the current position; an error below the dead area ends it
      Settled, an error value read for the STALL_REPEATS-th time ends it
      Stalled, a read that raises or yields nothing ends it with that
      exception, and anything else polls again. */
  function WaitFrom(table: FieldTable, id: int, target: Option<int>, diagOn: bool,
                    rs: seq<Option<Reply>>, seen: seq<int>, v: map<int, Snapshot>, d: DiagStats): WaitRun
    decreases |rs|
  {
    var s := ReadByName(table, id, CurrentPosition, rs);
    var v' := Synced(v, s.answer);
    var d' := if s.asked && diagOn then AfterExchange(d, CMD_READ_DATA, rs, RETRY_NTIME) else d;
    var e := PollValue(s.result, target);
    if e.Raised? then WaitRun(Raised(e.error), s.requests, s.rest, seen, v', d')
    else match WaitDecision(seen, e.value)
      case Some(end) => WaitRun(Ok(end), s.requests, s.rest, seen + [e.value], v', d')
      case None =>
        ReadValueConsumes(table, id, CurrentPosition, rs);
        var w := WaitFrom(table, id, target, diagOn, s.rest, seen + [e.value], v', d');
        w.(requests := s.requests + w.requests)
  }

  /** A run of `wait` changes the records only through the status bytes
      its reads copy in. */
  lemma {:induction false} WaitKeepsRecords(table: FieldTable, id: int, target: Option<int>, diagOn: bool,
                                            rs: seq<Option<Reply>>, seen: seq<int>, v: map<int, Snapshot>, d: DiagStats)
    ensures var w := WaitFrom(table, id, target, diagOn, rs, seen, v, d);
      SameCores(w.view, v) && FlagsKept(w.view, v, {})
    decreases |rs|
  {
    var s := ReadByName(table, id, CurrentPosition, rs);
    var e := PollValue(s.result, target);
    if e.Ok? && WaitDecision(seen, e.value).None? {
      ReadValueConsumes(table, id, CurrentPosition, rs);
      var v' := Synced(v, s.answer);
      WaitKeepsRecords(table, id, target, diagOn, s.rest, seen + [e.value], v',
                       if s.asked && diagOn then AfterExchange(d, CMD_READ_DATA, rs, RETRY_NTIME) else d);
      AgreementChains(WaitFrom(table, id, target, diagOn, rs, seen, v, d).view, v', v, {}, {});
    }
  }

  /** A run of `wait` writes only READ frames addressed to id, and the only
      exceptions it raises come from the reads and the subtraction. */
  lemma {:induction false} WaitOnlyReads(table: FieldTable, id: int, target: Option<int>, diagOn: bool,
                                         rs: seq<Option<Reply>>, seen: seq<int>, v: map<int, Snapshot>, d: DiagStats)
    ensures var w := WaitFrom(table, id, target, diagOn, rs, seen, v, d);
      && (w.result.Raised? ==> w.result.error == TypeError || w.result.error == StructError)
      && (forall i | 0 <= i < |w.requests| :: w.requests[i].servoId == id && w.requests[i].cmd == CMD_READ_DATA)
    decreases |rs|
  {
    var s := ReadByName(table, id, CurrentPosition, rs);
    var e := PollValue(s.result, target);
    if e.Ok? && WaitDecision(seen, e.value).None? {
      ReadValueConsumes(table, id, CurrentPosition, rs);
      var v' := Synced(v, s.answer);
      var d' := if s.asked && diagOn then AfterExchange(d, CMD_READ_DATA, rs, RETRY_NTIME) else d;
      WaitOnlyReads(table, id, target, diagOn, s.rest, seen + [e.value], v', d');
      var w := WaitFrom(table, id, target, diagOn, s.rest, seen + [e.value], v', d');
      var fs := s.requests + w.requests;
      forall i | 0 <= i < |fs| ensures fs[i].servoId == id && fs[i].cmd == CMD_READ_DATA {
        if i >= |s.requests| {
          assert fs[i] == w.requests[i - |s.requests|];
        }
      }
    }
  }

  /** The errors of a run of `wait` extend `seen`, and a run that ends
      normally ends on the decision its last error takes after the ones
      before it. */
  lemma {:induction false} WaitEndsOnDecision(table: FieldTable, id: int, target: Option<int>, diagOn: bool,
                                              rs: seq<Option<Reply>>, seen: seq<int>, v: map<int, Snapshot>, d: DiagStats)
    ensures var w := WaitFrom(table, id, target, diagOn, rs, seen, v, d);
      && |seen| <= |w.errors| && w.errors[..|seen|] == seen
      && (w.result.Ok? ==> DecidedLast(w.errors, |seen|, w.result.value))
    decreases |rs|
  {
    var s := ReadByName(table, id, CurrentPosition, rs);
    var e := PollValue(s.result, target);
    if e.Ok? {
      var seen' := seen + [e.value];
      assert seen'[..|seen|] == seen;
      if WaitDecision(seen, e.value).None? {
        ReadValueConsumes(table, id, CurrentPosition, rs);
        var v' := Synced(v, s.answer);
        var d' := if s.asked && diagOn then AfterExchange(d, CMD_READ_DATA, rs, RETRY_NTIME) else d;
        WaitEndsOnDecision(table, id, target, diagOn, s.rest, seen', v', d');
        var w := WaitFrom(table, id, target, diagOn, s.rest, seen', v', d');
        assert w.errors[..|seen|] == w.errors[..|seen'|][..|seen|];
      }
    }
  }

  /** errors has more than n entries and its last one takes the decision end. */
  ghost predicate DecidedLast(errors: seq<int>, n: nat, end: WaitEnd)
  {
    n < |errors| && WaitDecision(errors[..|errors| - 1], errors[|errors| - 1]) == Some(end)
  }

  /** How one polled error x ends `wait`, after the errors in seen: Settled
      within the dead area, Stalled when x is then read for the
      STALL_REPEATS-th time, None to poll again. */
  function WaitDecision(seen: seq<int>, x: int): Option<WaitEnd>
  {
    if x < POSITION_DEADAREA then Some(Settled)
    else if multiset(seen + [x])[x] >= STALL_REPEATS then Some(Stalled)
    else None
  }

  /** Every error polled so far is outside the dead area and no error value
      was read STALL_REPEATS times: the state in which `wait` polls again. */
  ghost predicate StillWaiting(errors: seq<int>)
  {
    forall i | 0 <= i < |errors| :: errors[i] >= POSITION_DEADAREA && multiset(errors)[errors[i]] < STALL_REPEATS
  }

  /** One more error that does not end `wait` keeps it waiting. */
  lemma StillWaitingSnoc(seen: seq<int>, x: int)
    requires StillWaiting(seen) && WaitDecision(seen, x).None?
    ensures StillWaiting(seen + [x])
  {
    var s' := seen + [x];
    assert multiset(s') == multiset(seen) + multiset{x};
    forall i | 0 <= i < |s'| ensures s'[i] >= POSITION_DEADAREA && multiset(s')[s'[i]] < STALL_REPEATS {
      if i < |seen| {
        assert s'[i] == seen[i];
      }
    }
  }

  /** A stall is the STALL_REPEATS-th read of its error value, not a later one. */
  lemma StallIsExact(seen: seq<int>, x: int)
    requires StillWaiting(seen) && WaitDecision(seen, x) == Some(Stalled)
    ensures multiset(seen + [x])[x] == STALL_REPEATS
  {
    assert multiset(seen + [x]) == multiset(seen) + multiset{x};
    if x in seen {
      var i :| 0 <= i < |seen| && seen[i] == x;
    }
  }

  /** How a run of `wait` stopped: no error before the last one ended it
      (every earlier one, and every error of a raised run, kept it waiting),
      and a stall is an error value read exactly STALL_REPEATS times. */
  ghost predicate StopsFirst(w: WaitRun)
  {
    && (w.result.Raised? ==> StillWaiting(w.errors))
    && (w.result.Ok? ==> |w.errors| > 0 && StillWaiting(w.errors[..|w.errors| - 1]))
    && (w.result == Ok(Stalled) ==> |w.errors| > 0 && multiset(w.errors)[w.errors[|w.errors| - 1]] == STALL_REPEATS)
  }

  /** `wait` stops at the first poll that settles or stalls. */
  lemma {:induction false} WaitStopsFirst(table: FieldTable, id: int, target: Option<int>, diagOn: bool,
                                          rs: seq<Option<Reply>>, seen: seq<int>, v: map<int, Snapshot>, d: DiagStats)
    requires StillWaiting(seen)
    ensures StopsFirst(WaitFrom(table, id, target, diagOn, rs, seen, v, d))
    decreases |rs|
  {
    var s := ReadByName(table, id, CurrentPosition, rs);
    var e := PollValue(s.result, target);
    if e.Ok? && WaitDecision(seen, e.value).None? {
      var seen' := seen + [e.value];
      var v' := Synced(v, s.answer);
      var d' := if s.asked && diagOn then AfterExchange(d, CMD_READ_DATA, rs, RETRY_NTIME) else d;
      StillWaitingSnoc(seen, e.value);
      ReadValueConsumes(table, id, CurrentPosition, rs);
      WaitStopsFirst(table, id, target, diagOn, s.rest, seen', v', d');
      var w := WaitFrom(table, id, target, diagOn, s.rest, seen', v', d');
      assert WaitFrom(table, id, target, diagOn, rs, seen, v, d) == w.(requests := s.requests + w.requests);
    } else {
      WaitStopsAtOnce(table, id, target, diagOn, rs, seen, v, d);
    }
  }

  /** The case of WaitStopsFirst where the first poll already ends `wait`. */
  lemma WaitStopsAtOnce(table: FieldTable, id: int, target: Option<int>, diagOn: bool,
                        rs: seq<Option<Reply>>, seen: seq<int>, v: map<int, Snapshot>, d: DiagStats)
    requires StillWaiting(seen)
    requires var e := PollValue(ReadByName(table, id, CurrentPosition, rs).result, target);
      e.Raised? || WaitDecision(seen, e.value).Some?
    ensures StopsFirst(WaitFrom(table, id, target, diagOn, rs, seen, v, d))
  {
    var s := ReadByName(table, id, CurrentPosition, rs);
    var e := PollValue(s.result, target);
    if e.Ok? {
      var seen' := seen + [e.value];
      assert seen'[..|seen|] == seen;
      var dec := WaitDecision(seen, e.value);
      if dec == Some(Stalled) {
        StallIsExact(seen, e.value);
      }
    }
  }

  /** When the first poll ends `wait`, the run is that one read. */
  lemma WaitEndsHere(table: FieldTable, id: int, target: Option<int>, diagOn: bool,
                     rs: seq<Option<Reply>>, seen: seq<int>, v: map<int, Snapshot>, d: DiagStats)
    requires var e := PollValue(ReadByName(table, id, CurrentPosition, rs).result, target);
      e.Raised? || WaitDecision(seen, e.value).Some?
    ensures var s := ReadByName(table, id, CurrentPosition, rs);
      var e := PollValue(s.result, target);
      var w := WaitFrom(table, id, target, diagOn, rs, seen, v, d);
      && w.requests == s.requests && w.rest == s.rest && w.view == Synced(v, s.answer)
      && w.diag == (if s.asked && diagOn then AfterExchange(d, CMD_READ_DATA, rs, RETRY_NTIME) else d)
      && w.result == (if e.Raised? then Raised(e.error) else Ok(WaitDecision(seen, e.value).value))
  {
  }

  /** A position read that gets no reply within its retry budget makes the
      subtraction in `wait` raise TypeError, after RETRY_NTIME READ frames. */
  lemma WaitSilentRaises(table: FieldTable, id: int, target: Option<int>, diagOn: bool,
                         rs: seq<Option<Reply>>, seen: seq<int>, v: map<int, Snapshot>, d: DiagStats)
    requires CurrentPosition in table && IsByte(table[CurrentPosition].address)
    requires forall i: nat | i < RETRY_NTIME :: At(rs, i).None?
    ensures var w := WaitFrom(table, id, target, diagOn, rs, seen, v, d);
      && w.result == Raised(TypeError) && |w.requests| == RETRY_NTIME && w.errors == seen
  {
    ExchangeSilent(rs, RETRY_NTIME);
  }

  /** Same ids, and each record has the same online flag and positions. */
  predicate SameCores(a: map<int, Snapshot>, b: map<int, Snapshot>)
  {
    a.Keys == b.Keys && forall k | k in a :: SameCore(a[k], b[k])
  }

  /** The online flag and the two positions of every record, as a map: two
      views have the same cores exactly when this map agrees. */
  function Cores(v: map<int, Snapshot>): (c: map<int, (bool, Option<int>, Option<int>)>)
    ensures c.Keys == v.Keys
  {
    map k | k in v :: (v[k].isOnline, v[k].curPosition, v[k].targetPosition)
  }

  lemma SameCoresAsCores(a: map<int, Snapshot>, b: map<int, Snapshot>)
    ensures SameCores(a, b) <==> Cores(a) == Cores(b)
  {
    if Cores(a) == Cores(b) {
      forall k | k in a ensures SameCore(a[k], b[k]) {
        assert Cores(a)[k] == Cores(b)[k];
      }
    }
    if SameCores(a, b) {
      forall k | k in a ensures Cores(a)[k] == Cores(b)[k] {
        assert SameCore(a[k], b[k]);
      }
      assert Cores(a) == Cores(b);
    }
  }

  /** Outside `except`, no record's `is_stop` changed. */
  predicate FlagsKept(a: map<int, Snapshot>, b: map<int, Snapshot>, except: set<int>)
  {
    a.Keys == b.Keys && forall k | k in a && k !in except :: a[k].stopFlag == b[k].stopFlag
  }

  /** The ids whose records are online. */
  function OnlineIds(v: map<int, Snapshot>): set<int>
  {
    set k | k in v && v[k].isOnline
  }

  /** Records with the same cores have the same online ids. */
  lemma SameCoresOnline(a: map<int, Snapshot>, b: map<int, Snapshot>)
    requires SameCores(a, b)
    ensures OnlineIds(a) == OnlineIds(b)
  {
    forall k ensures k in OnlineIds(a) <==> k in OnlineIds(b) {
      if k in a {
        assert SameCore(a[k], b[k]);
      }
    }
  }

  /** Every record but id's is still there with the same fields, status aside. */
  predicate OthersKept(a: map<int, Snapshot>, b: map<int, Snapshot>, id: int)
  {
    forall k | k in b && k != id :: k in a && SameCore(a[k], b[k]) && a[k].stopFlag == b[k].stopFlag
  }

  lemma OthersKeptChains(a: map<int, Snapshot>, b: map<int, Snapshot>, c: map<int, Snapshot>, id: int)
    requires OthersKept(a, b, id) && OthersKept(b, c, id)
    ensures OthersKept(a, c, id)
  {
  }

  lemma AgreementChains(a: map<int, Snapshot>, b: map<int, Snapshot>, c: map<int, Snapshot>, e1: set<int>, e2: set<int>)
    requires SameCores(a, b) && SameCores(b, c) && FlagsKept(a, b, e1) && FlagsKept(b, c, e2)
    ensures SameCores(a, c) && FlagsKept(a, c, e1 + e2)
  {
  }

  /** The status byte of a reply is copied into the record of the id it names. */
  function Synced(v: map<int, Snapshot>, a: Option<Reply>): (w: map<int, Snapshot>)
    ensures w.Keys == v.Keys
    ensures SameCores(w, v) && FlagsKept(w, v, {})
  {
    if a.Some? && a.value.servoId in v then v[a.value.servoId := v[a.value.servoId].(status := a.value.status)]
    else v
  }

  /** The records of the listed ids with `is_stop` assigned False. */
  function StoppedAll(v: map<int, Snapshot>, ids: seq<int>): (w: map<int, Snapshot>)
    ensures w.Keys == v.Keys
  {
    map k | k in v :: if k in ids then v[k].(stopFlag := Some(false)) else v[k]
  }

  /** The records with `is_stop` of id, if it has a record, assigned flag. */
  function WithStopFlag(v: map<int, Snapshot>, id: int, flag: bool): map<int, Snapshot>
  {
    if id in v then v[id := v[id].(stopFlag := Some(flag))] else v
  }

  lemma WithStopFlagAgrees(v: map<int, Snapshot>, id: int, flag: bool)
    ensures SameCores(WithStopFlag(v, id, flag), v) && FlagsKept(WithStopFlag(v, id, flag), v, {id})
    ensures id in v ==> WithStopFlag(v, id, flag)[id].stopFlag == Some(flag)
  {
  }

  lemma StoppedAllNone(v: map<int, Snapshot>)
    ensures StoppedAll(v, []) == v
  {
  }

  lemma StoppedAllSnoc(v: map<int, Snapshot>, ids: seq<int>, id: int)
    ensures StoppedAll(v, ids + [id]) == WithStopFlag(StoppedAll(v, ids), id, false)
  {
  }

  /** Whether position `i` holds the last occurrence of its id among ids[..p]. */
  ghost predicate LastIn(ids: seq<int>, i: nat, p: nat)
    requires i < p <= |ids|
  {
    forall j | i < j < p :: ids[j] != ids[i]
  }

  /** The ids at the positions among the first |answered| of ids that answered. */
  ghost function AnsweredIds(ids: seq<int>, answered: seq<bool>): (s: set<int>)
    requires |answered| <= |ids|
    ensures forall k | k in s :: exists j | 0 <= j < |answered| :: ids[j] == k
  {
    if |answered| == 0 then {}
    else
      var n := |answered| - 1;
      AnsweredIds(ids, answered[..n]) + if answered[n] then {ids[n]} else {}
  }

  lemma AnsweredIdsSnoc(ids: seq<int>, answered: seq<bool>, a: bool)
    requires |answered| < |ids|
    ensures AnsweredIds(ids, answered + [a]) ==
      AnsweredIds(ids, answered) + if a then {ids[|answered|]} else {}
  {
    assert (answered + [a])[..|answered|] == answered;
  }

  /** The insertion order after the scan passes of the first |answered|
      ids, from the order o: an id that answered and is not listed yet goes
      last, and nothing else moves. */
  ghost function Registered(o: seq<int>, ids: seq<int>, answered: seq<bool>): seq<int>
    requires |answered| <= |ids|
    decreases |answered|
  {
    if |answered| == 0 then o
    else
      var n := |answered| - 1;
      var p := Registered(o, ids, answered[..n]);
      if answered[n] && ids[n] !in p then p + [ids[n]] else p
  }

  lemma RegisteredSnoc(o: seq<int>, ids: seq<int>, answered: seq<bool>, a: bool)
    requires |answered| < |ids|
    ensures var p := Registered(o, ids, answered);
      Registered(o, ids, answered + [a]) == if a && ids[|answered|] !in p then p + [ids[|answered|]] else p
  {
    assert (answered + [a])[..|answered|] == answered;
  }

  /** The scan keeps the order it started from as a prefix, lists exactly
      that order's ids and the ids that answered, and lists none twice. */
  lemma {:induction false} RegisteredLists(o: seq<int>, ids: seq<int>, answered: seq<bool>)
    requires |answered| <= |ids|
    ensures var p := Registered(o, ids, answered);
      && |o| <= |p| && p[..|o|] == o
      && (forall k :: k in p <==> k in o || k in AnsweredIds(ids, answered))
      && (Distinct(o) ==> Distinct(p))
    decreases |answered|
  {
    if |answered| > 0 {
      var n := |answered| - 1;
      RegisteredLists(o, ids, answered[..n]);
      var p := Registered(o, ids, answered[..n]);
      if answered[n] && ids[n] !in p {
        assert (p + [ids[n]])[..|o|] == p[..|o|];
      }
    }
  }

  /** What a scan of the first n ids left in the records v: for the last
      occurrence of each id, an id that answered is online with both
      positions equal to the value read back, and a known id that did not
      answer is offline. */
  ghost predicate ScanOutcome(v: map<int, Snapshot>, ids: seq<int>, n: nat, answered: seq<bool>, readBack: seq<Option<int>>)
    requires n <= |ids| && |answered| == n == |readBack|
  {
    forall i | 0 <= i < n && LastIn(ids, i, n) ::
      && (answered[i] ==> ids[i] in v && v[ids[i]].isOnline
                          && v[ids[i]].curPosition == readBack[i]
                          && v[ids[i]].targetPosition == readBack[i])
      && (!answered[i] && ids[i] in v ==> !v[ids[i]].isOnline)
  }

  /** One id scanned, from records v to records w: a record was added only
      if it answered, every other record kept its fields, an answering id is
      online with both positions equal to the value read back, and a known
      id that did not answer is offline. */
  ghost predicate ScannedOne(v: map<int, Snapshot>, w: map<int, Snapshot>, id: int, a: bool, rb: Option<int>)
  {
    && w.Keys == v.Keys + (if a then {id} else {})
    && OthersKept(w, v, id)
    && (a ==> id in w && w[id].isOnline && w[id].curPosition == rb && w[id].targetPosition == rb)
    && (!a && id in w ==> !w[id].isOnline)
  }

  /** The loop invariant of `servo_scan` after n ids, starting from the ids keys0. */
  ghost predicate ScanState(v: map<int, Snapshot>, keys0: set<int>, ids: seq<int>, n: nat,
                            answered: seq<bool>, readBack: seq<Option<int>>)
    requires n <= |ids| && |answered| == n == |readBack|
  {
    v.Keys == keys0 + AnsweredIds(ids, answered) && ScanOutcome(v, ids, n, answered, readBack)
  }

  /** One more id scanned keeps the loop invariant. */
  lemma ScanStateStep(v: map<int, Snapshot>, w: map<int, Snapshot>, keys0: set<int>, ids: seq<int>, i: nat,
                      answered: seq<bool>, readBack: seq<Option<int>>, a: bool, rb: Option<int>)
    requires i < |ids| && |answered| == i == |readBack|
    requires ScanState(v, keys0, ids, i, answered, readBack)
    requires ScannedOne(v, w, ids[i], a, rb)
    ensures ScanState(w, keys0, ids, i + 1, answered + [a], readBack + [rb])
  {
    AnsweredIdsSnoc(ids, answered, a);
    var ans', rbs' := answered + [a], readBack + [rb];
    forall j | 0 <= j < i + 1 && LastIn(ids, j, i + 1)
      ensures ans'[j] ==> ids[j] in w && w[ids[j]].isOnline
                          && w[ids[j]].curPosition == rbs'[j] && w[ids[j]].targetPosition == rbs'[j]
      ensures !ans'[j] && ids[j] in w ==> !w[ids[j]].isOnline
    {
      if j < i {
        assert ids[j] != ids[i];
        assert LastIn(ids, j, i);
        assert ans'[j] == answered[j] && rbs'[j] == readBack[j];
      }
    }
  }

  // ---------------------------------------------------------------------
  // `servo_scan` against the scripted receive windows

  /** One scan pass, or a part of one: how it ended, whether the ping was
      answered, the position read back, the frames written, the script
      left and the counters. */
  datatype ScanStep = ScanStep(result: Result<()>, answered: bool, readBack: Option<int>,
                               requests: seq<Frame>, rest: seq<Option<Reply>>, diag: DiagStats)

  /** `get_position` in a scan pass: the value read back, or the exception. */
  function ScanRead(table: FieldTable, id: int, diagOn: bool, rs: seq<Option<Reply>>, d: DiagStats): ScanStep
  {
    var s := ReadByName(table, id, CurrentPosition, rs);
    var d' := if s.asked && diagOn then AfterExchange(d, CMD_READ_DATA, rs, RETRY_NTIME) else d;
    if s.result.Raised? then ScanStep(Raised(s.result.error), true, None, s.requests, s.rest, d')
    else ScanStep(Ok(()), true, s.result.value, s.requests, s.rest, d')
  }

  /** The pass for an id that answered: `set_motor_mode`, then the read. */
  function AdoptWith(table: FieldTable, motorMode: int, id: int, diagOn: bool, rs: seq<Option<Reply>>, d: DiagStats): ScanStep
  {
    var e := WriteEffect(table, id, MotorMode, motorMode);
    if e.Raised? then ScanStep(Raised(e.error), true, None, [], rs, d)
    else
      var t := ScanRead(table, id, diagOn, rs, d);
      t.(requests := Emitted(e) + t.requests)
  }

  /** One whole pass: the ping with PING_RETRY tries, then, if it was
      answered, the adoption. */
  function ScanPass(table: FieldTable, motorMode: int, id: int, diagOn: bool, rs: seq<Option<Reply>>, d: DiagStats): ScanStep
  {
    var k := Attempts(rs, PING_RETRY);
    var ping := Repeat(Frame(id, CMD_PING, []), k);
    var d1 := if diagOn then AfterExchange(d, CMD_PING, rs, PING_RETRY) else d;
    if Answer(rs, PING_RETRY).None? then ScanStep(Ok(()), false, None, ping, Drop(rs, k), d1)
    else
      var t := AdoptWith(table, motorMode, id, diagOn, Drop(rs, k), d1);
      t.(requests := ping + t.requests)
  }

  /** A scan of a list of ids: whether every pass finished, what each
      finished pass saw, the frames, the script left and the counters. */
  datatype ScanRun = ScanRun(ok: bool, answered: seq<bool>, readBack: seq<Option<int>>,
                             requests: seq<Frame>, rest: seq<Option<Reply>>, diag: DiagStats)

  /** `servo_scan` of ids: the passes in order, until one raises. */
  function ScanFrom(table: FieldTable, motorMode: int, ids: seq<int>, diagOn: bool, rs: seq<Option<Reply>>, d: DiagStats): (run: ScanRun)
    ensures |run.answered| == |run.readBack| <= |ids|
    ensures run.ok <==> |run.answered| == |ids|
    decreases |ids|
  {
    if |ids| == 0 then ScanRun(true, [], [], [], rs, d)
    else
      var st := ScanPass(table, motorMode, ids[0], diagOn, rs, d);
      if st.result.Raised? then ScanRun(false, [], [], st.requests, st.rest, st.diag)
      else
        var t := ScanFrom(table, motorMode, ids[1..], diagOn, st.rest, st.diag);
        ScanRun(t.ok, [st.answered] + t.answered, [st.readBack] + t.readBack, st.requests + t.requests, t.rest, t.diag)
  }

  /** The scan run of all ids, seen after the passes that made answered and
      readBack and wrote `written` (w0 before them), with t still to come. */
  ghost predicate ScanAt(run: ScanRun, answered: seq<bool>, readBack: seq<Option<int>>,
                         w0: seq<Frame>, written: seq<Frame>, t: ScanRun)
  {
    && run.ok == t.ok && run.answered == answered + t.answered && run.readBack == readBack + t.readBack
    && run.rest == t.rest && run.diag == t.diag && w0 + run.requests == written + t.requests
  }

  /** A finished pass moves the loop's view of the run on by one id. */
  lemma ScanAtStep(run: ScanRun, answered: seq<bool>, readBack: seq<Option<int>>,
                   w0: seq<Frame>, written: seq<Frame>, t: ScanRun, t': ScanRun, st: ScanStep)
    requires ScanAt(run, answered, readBack, w0, written, t)
    requires t == ScanRun(t'.ok, [st.answered] + t'.answered, [st.readBack] + t'.readBack,
                          st.requests + t'.requests, t'.rest, t'.diag)
    ensures ScanAt(run, answered + [st.answered], readBack + [st.readBack], w0, written + st.requests, t')
  {
    assert answered + t.answered == answered + [st.answered] + t'.answered;
    assert readBack + t.readBack == readBack + [st.readBack] + t'.readBack;
    assert written + t.requests == written + st.requests + t'.requests;
  }

  /** The scan from position i on is the pass at ids[i], then, unless it
      raised, the scan from i + 1 on. */
  lemma ScanFromNext(table: FieldTable, motorMode: int, ids: seq<int>, i: nat, diagOn: bool,
                     rs: seq<Option<Reply>>, d: DiagStats)
    requires i < |ids|
    ensures var st := ScanPass(table, motorMode, ids[i], diagOn, rs, d);
      var t := ScanFrom(table, motorMode, ids[i..], diagOn, rs, d);
      var t' := ScanFrom(table, motorMode, ids[i + 1..], diagOn, st.rest, st.diag);
      && (st.result.Raised? ==> t == ScanRun(false, [], [], st.requests, st.rest, st.diag))
      && (st.result.Ok? ==>
            t == ScanRun(t'.ok, [st.answered] + t'.answered, [st.readBack] + t'.readBack,
                         st.requests + t'.requests, t'.rest, t'.diag))
  {
    assert ids[i..][0] == ids[i] && ids[i..][1..] == ids[i + 1..];
  }

  /** One more pass, seen from the loop: a raised pass ends the run there,
      a finished one moves the loop on by its answer, its read-back value
      and its frames. */
  lemma ScanAtNext(run: ScanRun, answered: seq<bool>, readBack: seq<Option<int>>, w0: seq<Frame>, written: seq<Frame>,
                   table: FieldTable, motorMode: int, ids: seq<int>, i: nat, diagOn: bool, rs: seq<Option<Reply>>, d: DiagStats)
    requires i < |ids| && ScanAt(run, answered, readBack, w0, written, ScanFrom(table, motorMode, ids[i..], diagOn, rs, d))
    ensures var st := ScanPass(table, motorMode, ids[i], diagOn, rs, d);
      && (st.result.Raised? ==>
            && !run.ok && run.answered == answered && run.readBack == readBack
            && w0 + run.requests == written + st.requests && run.rest == st.rest && run.diag == st.diag)
      && (st.result.Ok? ==>
            ScanAt(run, answered + [st.answered], readBack + [st.readBack], w0, written + st.requests,
                   ScanFrom(table, motorMode, ids[i + 1..], diagOn, st.rest, st.diag)))
  {
    var st := ScanPass(table, motorMode, ids[i], diagOn, rs, d);
    ScanFromNext(table, motorMode, ids, i, diagOn, rs, d);
    if st.result.Raised? {
      ScanAtRaised(run, answered, readBack, w0, written, st);
    } else {
      ScanAtStep(run, answered, readBack, w0, written, ScanFrom(table, motorMode, ids[i..], diagOn, rs, d),
                 ScanFrom(table, motorMode, ids[i + 1..], diagOn, st.rest, st.diag), st);
    }
  }

  /** A pass that raised ends the scan where the loop stands. */
  lemma ScanAtRaised(run: ScanRun, answered: seq<bool>, readBack: seq<Option<int>>,
                     w0: seq<Frame>, written: seq<Frame>, st: ScanStep)
    requires ScanAt(run, answered, readBack, w0, written, ScanRun(false, [], [], st.requests, st.rest, st.diag))
    ensures !run.ok && run.answered == answered && run.readBack == readBack
    ensures w0 + run.requests == written + st.requests && run.rest == st.rest && run.diag == st.diag
  {
    assert answered + [] == answered && readBack + [] == readBack;
  }

  /** Past the last id, the run is what the loop has seen. */
  lemma ScanAtDone(run: ScanRun, answered: seq<bool>, readBack: seq<Option<int>>,
                   w0: seq<Frame>, written: seq<Frame>, rs: seq<Option<Reply>>, d: DiagStats)
    requires ScanAt(run, answered, readBack, w0, written, ScanRun(true, [], [], [], rs, d))
    ensures run.ok && run.answered == answered && run.readBack == readBack
    ensures w0 + run.requests == written && run.rest == rs && run.diag == d
  {
    assert answered + [] == answered && readBack + [] == readBack && written + [] == written;
  }

  /** One pass on a silent bus: the ping goes unanswered after PING_RETRY
      tries, and the script left is still silent. */
  lemma PassSilent(table: FieldTable, motorMode: int, id: int, diagOn: bool, rs: seq<Option<Reply>>, d: DiagStats)
    requires forall i | 0 <= i < |rs| :: rs[i].None?
    ensures var st := ScanPass(table, motorMode, id, diagOn, rs, d);
      && st.result.Ok? && !st.answered && st.requests == Repeat(Frame(id, CMD_PING, []), PING_RETRY)
      && forall i | 0 <= i < |st.rest| :: st.rest[i].None?
  {
    ExchangeSilent(rs, PING_RETRY);
    var rs1 := Drop(rs, PING_RETRY);
    forall i | 0 <= i < |rs1| ensures rs1[i].None? {
      assert rs1[i] == rs[PING_RETRY + i];
    }
  }

  /** A bus that never answers: every pass finishes with its ping
      unanswered after PING_RETRY tries, so the scan finishes, nothing
      answered and no record is added. */
  lemma {:induction false} ScanSilent(table: FieldTable, motorMode: int, ids: seq<int>, diagOn: bool,
                                      rs: seq<Option<Reply>>, d: DiagStats)
    requires forall i | 0 <= i < |rs| :: rs[i].None?
    ensures var run := ScanFrom(table, motorMode, ids, diagOn, rs, d);
      && run.ok && (forall i | 0 <= i < |ids| :: !run.answered[i])
      && |run.requests| == PING_RETRY * |ids|
      && AnsweredIds(ids, run.answered) == {}
    decreases |ids|
  {
    var run := ScanFrom(table, motorMode, ids, diagOn, rs, d);
    if |ids| > 0 {
      PassSilent(table, motorMode, ids[0], diagOn, rs, d);
      var st := ScanPass(table, motorMode, ids[0], diagOn, rs, d);
      ScanSilent(table, motorMode, ids[1..], diagOn, st.rest, st.diag);
      var t := ScanFrom(table, motorMode, ids[1..], diagOn, st.rest, st.diag);
      assert run == ScanRun(t.ok, [false] + t.answered, [st.readBack] + t.readBack, st.requests + t.requests, t.rest, t.diag);
    }
    NoneAnswered(ids, run.answered);
  }

  lemma {:induction false} NoneAnswered(ids: seq<int>, answered: seq<bool>)
    requires |answered| <= |ids| && forall i | 0 <= i < |answered| :: !answered[i]
    ensures AnsweredIds(ids, answered) == {}
    decreases |answered|
  {
    if |answered| > 0 {
      NoneAnswered(ids, answered[..|answered| - 1]);
    }
  }

  datatype WaitEnd = Settled | Stalled

  /** The `angle_error_dict` of `wait` counts each error value polled. */
  ghost predicate Counted(counts: map<int, nat>, seen: seq<int>)
  {
    && (forall x | x in counts :: counts[x] == multiset(seen)[x])
    && (forall i | 0 <= i < |seen| :: seen[i] in counts)
  }

  lemma CountedStep(counts: map<int, nat>, seen: seq<int>, x: int)
    requires Counted(counts, seen)
    ensures var n := if x in counts then counts[x] + 1 else 1;
      && n == multiset(seen + [x])[x]
      && Counted(counts[x := n], seen + [x])
  {
    var s' := seen + [x];
    assert multiset(s') == multiset(seen) + multiset{x};
    if x !in counts {
      assert x !in seen;
    }
    forall i | 0 <= i < |s'| ensures s'[i] in counts[x := if x in counts then counts[x] + 1 else 1] {
      if i < |seen| {
        assert s'[i] == seen[i];
      }
    }
  }

  /** The loop state of `wait`: the run ahead from the current state is
      what is left of the whole run, and the frames already written
      followed by it are the frames of the whole run. */
  ghost predicate WaitAt(run: WaitRun, w: WaitRun, w0: seq<Frame>, written: seq<Frame>)
  {
    run == w.(requests := run.requests) && w0 + run.requests == written + w.requests
  }

  lemma WaitStep(run: WaitRun, w: WaitRun, w': WaitRun, step: seq<Frame>, w0: seq<Frame>, written: seq<Frame>, written': seq<Frame>)
    requires WaitAt(run, w, w0, written)
    requires w == w'.(requests := step + w'.requests) && written' == written + step
    ensures WaitAt(run, w', w0, written')
  {
    assert written + w.requests == written + step + w'.requests;
  }

  /** A run of `wait_all`: how it ends, the frames it writes, the script it
      leaves, and the records and counters afterwards. */
  datatype WaitAllRun = WaitAllRun(
    result: Result<()>, requests: seq<Frame>, rest: seq<Option<Reply>>,
    view: map<int, Snapshot>, diag: DiagStats)

  /** `wait_all` over the ids in insertion order, from the script rs: each
      id whose record is online is waited for as WaitFrom says, from the
      target its record holds then, with `is_stop` assigned True when that
      wait ends normally; the first exception ends the run. */
  function WaitAllFrom(table: FieldTable, diagOn: bool, ids: seq<int>,
                       rs: seq<Option<Reply>>, v: map<int, Snapshot>, d: DiagStats): WaitAllRun
    decreases |ids|
  {
    if |ids| == 0 then WaitAllRun(Ok(()), [], rs, v, d)
    else if ids[0] !in v then WaitAllRun(Raised(KeyError), [], rs, v, d)
    else if !v[ids[0]].isOnline then WaitAllFrom(table, diagOn, ids[1..], rs, v, d)
    else
      var w := WaitFrom(table, ids[0], v[ids[0]].targetPosition, diagOn, rs, [], v, d);
      if w.result.Raised? then WaitAllRun(Raised(w.result.error), w.requests, w.rest, w.view, w.diag)
      else
        var n := WaitAllFrom(table, diagOn, ids[1..], w.rest, WithStopFlag(w.view, ids[0], true), w.diag);
        n.(requests := w.requests + n.requests)
  }

  /** The run of `wait_all` from position i of ids: an offline id is
      skipped, and an online one is waited for, then the rest follows. */
  lemma WaitAllNext(table: FieldTable, diagOn: bool, ids: seq<int>, i: nat,
                    rs: seq<Option<Reply>>, v: map<int, Snapshot>, d: DiagStats)
    requires i < |ids| && ids[i] in v
    ensures var n := WaitAllFrom(table, diagOn, ids[i..], rs, v, d);
      var id := ids[i];
      var w := WaitFrom(table, id, v[id].targetPosition, diagOn, rs, [], v, d);
      && (!v[id].isOnline ==> n == WaitAllFrom(table, diagOn, ids[i + 1..], rs, v, d))
      && (v[id].isOnline && w.result.Raised? ==>
            n == WaitAllRun(Raised(w.result.error), w.requests, w.rest, w.view, w.diag))
      && (v[id].isOnline && w.result.Ok? ==>
            var m := WaitAllFrom(table, diagOn, ids[i + 1..], w.rest, WithStopFlag(w.view, id, true), w.diag);
            n == m.(requests := w.requests + m.requests))
  {
    assert ids[i..][1..] == ids[i + 1..];
  }

  /** The loop state of `wait_all`: the run ahead is what is left of the
      whole run, and the frames written followed by it are the whole run's. */
  ghost predicate WaitAllAt(run: WaitAllRun, n: WaitAllRun, w0: seq<Frame>, written: seq<Frame>)
  {
    run == n.(requests := run.requests) && w0 + run.requests == written + n.requests
  }

  lemma WaitAllStep(run: WaitAllRun, n: WaitAllRun, n': WaitAllRun, step: seq<Frame>,
                    w0: seq<Frame>, written: seq<Frame>, written': seq<Frame>)
    requires WaitAllAt(run, n, w0, written)
    requires n == n'.(requests := step + n'.requests) && written' == written + step
    ensures WaitAllAt(run, n', w0, written')
  {
    ConcatAssoc(written, step, n'.requests);
  }

  /** A run of `wait_all` keeps every record's online flag and positions,
      changes only the `is_stop` of online records and only to True, and,
      when it ends normally, has set it True on every online id it went
      through. */
  lemma {:induction false} WaitAllKeepsRecords(table: FieldTable, diagOn: bool, ids: seq<int>,
                                               rs: seq<Option<Reply>>, v: map<int, Snapshot>, d: DiagStats)
    ensures var run := WaitAllFrom(table, diagOn, ids, rs, v, d);
      && SameCores(run.view, v) && FlagsKept(run.view, v, OnlineIds(v))
      && (forall k | k in run.view :: run.view[k].stopFlag in {v[k].stopFlag, Some(true)})
      && (run.result.Ok? ==> forall k | k in ids && k in OnlineIds(v) :: run.view[k].stopFlag == Some(true))
    decreases |ids|
  {
    if |ids| > 0 && ids[0] in v {
      var id := ids[0];
      var w := WaitFrom(table, id, v[id].targetPosition, diagOn, rs, [], v, d);
      WaitAllNext(table, diagOn, ids, 0, rs, v, d);
      assert ids[0..] == ids;
      if !v[id].isOnline {
        WaitAllKeepsRecords(table, diagOn, ids[1..], rs, v, d);
      } else if w.result.Ok? {
        WaitKeepsRecords(table, id, v[id].targetPosition, diagOn, rs, [], v, d);
        var v1 := WithStopFlag(w.view, id, true);
        WithStopFlagAgrees(w.view, id, true);
        AgreementChains(v1, w.view, v, {id}, {});
        SameCoresOnline(v1, v);
        WaitAllKeepsRecords(table, diagOn, ids[1..], w.rest, v1, w.diag);
        var run := WaitAllFrom(table, diagOn, ids[1..], w.rest, v1, w.diag);
        AgreementChains(run.view, v1, v, OnlineIds(v), {id});
        assert OnlineIds(v) + {id} == OnlineIds(v);
      } else {
        WaitKeepsRecords(table, id, v[id].targetPosition, diagOn, rs, [], v, d);
      }
    }
  }

  /** A run of `wait_all` over listed ids sends only READ frames, each to
      an online id of the list, and raises only what `wait` raises. */
  lemma {:induction false} WaitAllOnlyReads(table: FieldTable, diagOn: bool, ids: seq<int>,
                                            rs: seq<Option<Reply>>, v: map<int, Snapshot>, d: DiagStats)
    requires forall k | k in ids :: k in v
    ensures var run := WaitAllFrom(table, diagOn, ids, rs, v, d);
      && (run.result.Raised? ==> run.result.error == TypeError || run.result.error == StructError)
      && (forall i | 0 <= i < |run.requests| ::
            run.requests[i].cmd == CMD_READ_DATA && run.requests[i].servoId in ids
            && run.requests[i].servoId in OnlineIds(v))
    decreases |ids|
  {
    if |ids| > 0 {
      var id := ids[0];
      assert id in ids && ids[0..] == ids && forall k | k in ids[1..] :: k in ids;
      WaitAllNext(table, diagOn, ids, 0, rs, v, d);
      if !v[id].isOnline {
        WaitAllOnlyReads(table, diagOn, ids[1..], rs, v, d);
      } else {
        var w := WaitFrom(table, id, v[id].targetPosition, diagOn, rs, [], v, d);
        WaitOnlyReads(table, id, v[id].targetPosition, diagOn, rs, [], v, d);
        if w.result.Ok? {
          var v1 := WithStopFlag(w.view, id, true);
          WaitKeepsRecords(table, id, v[id].targetPosition, diagOn, rs, [], v, d);
          WithStopFlagAgrees(w.view, id, true);
          AgreementChains(v1, w.view, v, {id}, {});
          SameCoresOnline(v1, v);
          WaitAllOnlyReads(table, diagOn, ids[1..], w.rest, v1, w.diag);
          var m := WaitAllFrom(table, diagOn, ids[1..], w.rest, v1, w.diag);
          var fs := w.requests + m.requests;
          forall i | 0 <= i < |fs|
            ensures fs[i].cmd == CMD_READ_DATA && fs[i].servoId in ids && fs[i].servoId in OnlineIds(v)
          {
            if i >= |w.requests| {
              assert fs[i] == m.requests[i - |w.requests|];
            }
          }
        }
      }
    }
  }

  /** With no online record among the ids, `wait_all` sends nothing and
      changes nothing. */
  lemma {:induction false} WaitAllOffline(table: FieldTable, diagOn: bool, ids: seq<int>,
                                          rs: seq<Option<Reply>>, v: map<int, Snapshot>, d: DiagStats)
    requires forall i | 0 <= i < |ids| :: ids[i] in v && !v[ids[i]].isOnline
    ensures WaitAllFrom(table, diagOn, ids, rs, v, d) == WaitAllRun(Ok(()), [], rs, v, d)
    decreases |ids|
  {
    if |ids| > 0 {
      assert ids[0..] == ids;
      WaitAllNext(table, diagOn, ids, 0, rs, v, d);
      WaitAllOffline(table, diagOn, ids[1..], rs, v, d);
    }
  }

  /** No two ids share one record object. */
  ghost predicate Injective(servos: map<int, UartServoInfo>)
  {
    forall a, b | a in servos && b in servos && a != b :: servos[a] != servos[b]
  }

  predicate Distinct(s: seq<int>)
  {
    forall i, j | 0 <= i < j < |s| :: s[i] != s[j]
  }

  /** The insertion order lists exactly the ids of the dict. */
  ghost predicate Listed(servos: map<int, UartServoInfo>, order: seq<int>)
  {
    forall id :: id in servos <==> id in order
  }

  /** Every record carries the id it is filed under. */
  predicate KeyedById(servos: map<int, UartServoInfo>)
  {
    forall id | id in servos :: servos[id].servoId == id
  }

  class UartServoManager {
    const port: Port
    const table: FieldTable
    /** `SERVO_ID_BRODCAST` */
    const broadcastId: int
    /** `MOTOR_MODE_SERVO` */
    const motorModeServo: int
    /** `TORQUE_ENABLE` and `TORQUE_DISABLE` */
    const torqueOn: int
    const torqueOff: int

    /** `servo_info_dict`: the records, and the order they were inserted in. */
    var servos: map<int, UartServoInfo>
    var order: seq<int>
    var diagEnabled: bool
    var diag: DiagStats

    ghost predicate Valid()
      reads this
    {
      && Injective(servos)
      && Distinct(order)
      && Listed(servos, order)
      && KeyedById(servos)
      && diag.waitReq == diag.waitOk + diag.waitFail
      && diag.readReq == diag.readOk + diag.readFail
      && diag.pingReq == diag.pingOk + diag.pingFail
    }

    /** A value snapshot of every record. */
    ghost function View(): (v: map<int, Snapshot>)
      reads this`servos, servos.Values
      ensures v.Keys == servos.Keys
    {
      map id | id in servos :: servos[id].State()
    }

    twostate predicate Kept()
      reads this
    {
      servos == old(servos) && order == old(order) && diagEnabled == old(diagEnabled)
    }

    /** Nothing was written or received and the counters did not move. */
    twostate predicate BusQuiet()
      reads this, port
    {
      port.written == old(port.written) && port.replies == old(port.replies) && diag == old(diag)
    }

    /** Exactly f was written, without waiting for a reply. */
    twostate predicate BusSent(f: Frame)
      reads this, port
    {
      port.written == old(port.written) + [f] && port.replies == old(port.replies) && diag == old(diag)
    }

    /** Exactly the frames fs were written, without waiting for a reply. */
    twostate predicate BusWrote(fs: seq<Frame>)
      reads this, port
    {
      port.written == old(port.written) + fs && port.replies == old(port.replies) && diag == old(diag)
    }

    /** One exchange of f with a budget of n tries. */
    twostate predicate BusExchanged(f: Frame, n: int)
      reads this, port
    {
      var rs := old(port.replies);
      var k := Attempts(rs, n);
      && port.written == old(port.written) + Repeat(f, k)
      && port.replies == Drop(rs, k)
      && diag == (if diagEnabled then AfterExchange(old(diag), f.cmd, rs, n) else old(diag))
    }

    /** The effect of one `read_data_by_name` call. */
    twostate predicate ReadOutcome(id: int, name: Field, new r: Result<Option<int>>)
      reads this, port, servos.Values
    {
      var rs := old(port.replies);
      var s := ReadByName(table, id, name, rs);
      && r == s.result
      && port.written == old(port.written) + s.requests
      && port.replies == s.rest
      && View() == Synced(old(View()), s.answer)
      && diag == (if s.asked && diagEnabled then AfterExchange(old(diag), CMD_READ_DATA, rs, RETRY_NTIME) else old(diag))
    }

    /** One run of `wait` on the known id: the result, the frames, the
        replies left, the counters and the records are those of WaitFrom
        on the script, with `is_stop` set when the run ended normally. */
    twostate predicate WaitOutcome(id: int, new r: Result<WaitEnd>)
      reads this, port, servos.Values
    {
      && id in old(servos)
      && WaitRan(WaitFrom(table, id, old(View())[id].targetPosition, diagEnabled, old(port.replies), [], old(View()), old(diag)), id, r)
    }

    /** The run w accounts for the frames written, the replies left, the
        counters, the records and the result r. */
    twostate predicate WaitRan(w: WaitRun, id: int, new r: Result<WaitEnd>)
      reads this, port, servos.Values
    {
      && r == w.result
      && port.written == old(port.written) + w.requests && port.replies == w.rest && diag == w.diag
      && View() == (if r.Ok? then WithStopFlag(w.view, id, true) else w.view)
    }

    /** A scan pass, or part of one, ran as st says: its result, the frames
        written, the script left and the counters. */
    twostate predicate ScanRan(st: ScanStep, new r: Result<()>)
      reads this, port
    {
      r == st.result && port.written == old(port.written) + st.requests && port.replies == st.rest && diag == st.diag
    }

    /** The effect of one `write_data_by_name` call. */
    twostate predicate WriteOutcome(id: int, name: Field, value: int, new r: Result<bool>)
      reads this, port, servos.Values
    {
      var e := WriteEffect(table, id, name, value);
      && r == WriteReturn(e)
      && port.written == old(port.written) + Emitted(e)
      && port.replies == old(port.replies)
      && View() == old(View())
      && diag == old(diag)
    }

    /** `__init__` up to its final call: the scan of the initial id list is
        the caller's next call, `ServoScan`, so that its outcome is visible. */
    constructor (port: Port, table: FieldTable, broadcastId: int, motorModeServo: int, torqueOn: int, torqueOff: int)
      ensures Valid()
      ensures this.port == port && this.table == table && this.broadcastId == broadcastId
      ensures this.motorModeServo == motorModeServo && this.torqueOn == torqueOn && this.torqueOff == torqueOff
      ensures servos == map[] && order == [] && !diagEnabled && diag == DIAG_ZERO
    {
      this.port := port;
      this.table := table;
      this.broadcastId := broadcastId;
      this.motorModeServo := motorModeServo;
      this.torqueOn := torqueOn;
      this.torqueOff := torqueOff;
      servos := map[];
      order := [];
      diagEnabled := false;
      diag := DIAG_ZERO;
    }

    /** `enable_diagnostics` (the log tag and interval only shape log lines). */
    method EnableDiagnostics(enabled: bool)
      requires Valid()
      modifies this`diagEnabled
      ensures Valid() && diagEnabled == enabled
    {
      diagEnabled := enabled;
    }

    /** `get_diagnostics_snapshot`: reading the counters leaves them as they are. */
    function DiagnosticsSnapshot(): (d: DiagStats)
      reads this
      requires Valid()
      ensures DiagConsistent(d)
    {
      diag
    }

    /** `_diag_record_wait_response` */
    method RecordWaitResponse(cmd: int, ok: bool, retryUsed: int, rspLen: int, err: string)
      requires Valid()
      modifies this`diag
      ensures Valid()
      ensures diag == if diagEnabled then Recorded(old(diag), cmd, ok, retryUsed, rspLen, err) else old(diag)
    {
      if !diagEnabled {
        return;
      }
      var st := diag;
      st := st.(waitReq := st.waitReq + 1);
      if ok {
        st := st.(waitOk := st.waitOk + 1);
      } else {
        st := st.(waitFail := st.waitFail + 1);
      }
      if cmd == CMD_READ_DATA {
        st := st.(readReq := st.readReq + 1);
        if ok {
          st := st.(readOk := st.readOk + 1);
        } else {
          st := st.(readFail := st.readFail + 1);
        }
      } else if cmd == CMD_PING {
        st := st.(pingReq := st.pingReq + 1);
        if ok {
          st := st.(pingOk := st.pingOk + 1);
        } else {
          st := st.(pingFail := st.pingFail + 1);
        }
      }
      st := st.(totalRetryUsed := st.totalRetryUsed + Max(0, retryUsed));
      st := st.(lastRspLen := Max(0, rspLen));
      if err != "" {
        st := st.(lastError := err);
      }
      diag := st;
    }

    /** `receive_response`: one receive window; a reply's status byte is
        copied into the record of the id the reply names, if there is one.
        The reply is not checked against the request. */
    method ReceiveResponse() returns (r: Option<Reply>)
      requires Valid()
      modifies port, servos.Values
      ensures Valid()
      ensures r == Next(old(port.replies)) && port.replies == Drop(old(port.replies), 1)
      ensures port.written == old(port.written)
      ensures View() == Synced(old(View()), r)
    {
      ghost var v0 := View();
      r := port.ReceiveWindow();
      if r.Some? && r.value.servoId in servos {
        var info := servos[r.value.servoId];
        info.status := r.value.status;
        assert forall k | k in servos && k != r.value.servoId :: servos[k] != info;
        assert View() == v0[r.value.servoId := v0[r.value.servoId].(status := r.value.status)];
      }
    }

    /** The retry loop of `send_request`: write f, then wait one receive
        window, until a reply arrives or n writes went unanswered. */
    method Exchange(f: Frame, n: int) returns (reply: Option<Reply>, tries: int)
      requires Valid()
      modifies port, servos.Values
      ensures Valid() && Kept() && diag == old(diag)
      ensures var rs := old(port.replies);
        && reply == Answer(rs, n)
        && tries == Attempts(rs, n)
        && port.written == old(port.written) + Repeat(f, Attempts(rs, n))
        && port.replies == Drop(rs, Attempts(rs, n))
      ensures View() == Synced(old(View()), reply)
    {
      ghost var rs := port.replies;
      ghost var v0 := View();
      var i := 0;
      while i < n
        invariant 0 <= i <= Max(0, n)
        invariant ExchangeAt(rs, n, f, old(port.written), i, port.written, port.replies)
        invariant Valid() && Kept() && View() == v0
      {
        ExchangeStep(rs, n, f, old(port.written), i, port.written, port.replies);
        port.Write(f);
        var r := ReceiveResponse();
        if r.Some? {
          return r, i + 1;
        }
        i := i + 1;
      }
      reply, tries := None, i;
    }

    /** `send_request` */
    method SendRequest(id: int, cmd: int, params: seq<Byte>, waitResponse: bool, retry: Option<int>)
      returns (ok: bool, reply: Option<Reply>)
      requires Valid()
      modifies this`diag, port, servos.Values
      ensures Valid() && Kept()
      ensures !waitResponse ==>
        ok && reply == None && BusSent(Frame(id, cmd, params)) && View() == old(View())
      ensures waitResponse ==>
        var n := RetryBudget(retry);
        && reply == Answer(old(port.replies), n)
        && ok == reply.Some?
        && BusExchanged(Frame(id, cmd, params), n)
        && View() == Synced(old(View()), reply)
    {
      var f := Frame(id, cmd, params);
      if !waitResponse {
        port.Write(f);
        return true, None;
      }
      var n := if retry.Some? then retry.value else RETRY_NTIME;
      ghost var rs := port.replies;
      var tries;
      reply, tries := Exchange(f, n);
      if reply.Some? {
        RecordWaitResponse(cmd, true, tries, reply.value.rawLen, "");
        return true, reply;
      }
      ExchangeFailureSpendsBudget(rs, n);
      RecordWaitResponse(cmd, false, n, 0, TIMEOUT_ERROR);
      ok := false;
    }

    /** Assign `is_stop` of the record of id, if there is one. */
    method SetStopFlag(id: int, flag: bool)
      requires Valid()
      modifies servos.Values
      ensures Valid() && Kept() && View() == WithStopFlag(old(View()), id, flag)
      ensures BusQuiet()
    {
      if id in servos {
        ghost var v0 := View();
        var info := servos[id];
        info.stopFlag := Some(flag);
        assert forall k | k in servos && k != id :: servos[k] != info;
        assert View() == v0[id := v0[id].(stopFlag := Some(flag))];
      }
    }

    /** `info.move(p)` and `info.is_stop = False` on the record of id, if any. */
    method RetargetRecord(id: int, p: int)
      requires Valid()
      modifies servos.Values
      ensures Valid() && Kept()
      ensures View() == if id in servos
        then old(View())[id := old(View())[id].(targetPosition := Some(p), stopFlag := Some(false))]
        else old(View())
    {
      if id in servos {
        ghost var v0 := View();
        var info := servos[id];
        info.Move(Some(p));
        info.stopFlag := Some(false);
        assert forall k | k in servos && k != id :: servos[k] != info;
        assert View() == v0[id := v0[id].(targetPosition := Some(p), stopFlag := Some(false))];
      }
    }

    /** `is_online = False` on the record of id, if any. */
    method MarkOffline(id: int)
      requires Valid()
      modifies servos.Values
      ensures Valid() && Kept()
      ensures View() == if id in servos then old(View())[id := old(View())[id].(isOnline := false)] else old(View())
      ensures BusQuiet()
    {
      if id in servos {
        ghost var v0 := View();
        var info := servos[id];
        info.isOnline := false;
        assert forall k | k in servos && k != id :: servos[k] != info;
        assert View() == v0[id := v0[id].(isOnline := false)];
      }
    }

    /** File a fresh online record under an id the dict already has. */
    method InstallOnline(id: int)
      requires Valid() && id in servos
      modifies this`servos
      ensures Valid() && order == old(order) && diagEnabled == old(diagEnabled) && diag == old(diag)
      ensures servos.Keys == old(servos).Keys && fresh(servos[id])
      ensures forall k | k in servos && k != id :: servos[k] == old(servos)[k]
      ensures View() == old(View())[id := Initial(id).(isOnline := true)]
      ensures forall o | o in servos.Values :: o in old(servos.Values) || fresh(o)
      ensures port.written == old(port.written) && port.replies == old(port.replies)
    {
      ghost var v0 := View();
      var info := new UartServoInfo(id);
      info.isOnline := true;
      MapUpdateValues(servos, id, info);
      servos := servos[id := info];
      assert View() == v0[id := Initial(id).(isOnline := true)];
    }

    /** `update(p)` then `move(p)` on the record of id. */
    method SeedPosition(id: int, p: Option<int>)
      requires Valid() && id in servos
      modifies servos.Values
      ensures Valid() && Kept()
      ensures View() == old(View())[id := old(View())[id].(curPosition := p, targetPosition := p)]
      ensures BusQuiet()
    {
      ghost var v0 := View();
      var info := servos[id];
      info.Update(p);
      info.Move(p);
      assert forall k | k in servos && k != id :: servos[k] != info;
      assert View() == v0[id := v0[id].(curPosition := p, targetPosition := p)];
    }

    /** `find_servo`: ping the address 254 and report the id that answers. */
    method FindServo() returns (found: bool, id: Option<int>)
      requires Valid()
      modifies this`diag, port, servos.Values
      ensures Valid() && Kept()
      ensures var a := Answer(old(port.replies), PING_RETRY);
        && found == a.Some?
        && id == (if found then Some(a.value.servoId) else None)
        && BusExchanged(Frame(FIND_SERVO_ID, CMD_PING, []), PING_RETRY)
        && View() == Synced(old(View()), a)
    {
      var ok, reply := SendRequest(FIND_SERVO_ID, CMD_PING, [], true, Some(PING_RETRY));
      if ok {
        return true, Some(reply.value.servoId);
      }
      return false, None;
    }

    /** `ping`: a record is created only for an id that answers and has none yet. */
    method Ping(id: int) returns (ok: bool)
      requires Valid()
      modifies this, port, servos.Values
      ensures Valid() && diagEnabled == old(diagEnabled)
      ensures var a := Answer(old(port.replies), PING_RETRY);
        && ok == a.Some?
        && BusExchanged(Frame(id, CMD_PING, []), PING_RETRY)
        && (forall k | k in old(servos) :: k in servos && servos[k] == old(servos)[k])
        && (if ok && id !in old(servos) then
              && servos.Keys == old(servos).Keys + {id}
              && order == old(order) + [id]
              && fresh(servos[id])
              && View() == Synced(old(View()), a)[id := Initial(id)]
            else
              servos == old(servos) && order == old(order) && View() == Synced(old(View()), a))
      ensures forall o | o in servos.Values :: o in old(servos.Values) || fresh(o)
      ensures servos.Keys == old(servos).Keys + (if ok then {id} else {})
      ensures OthersKept(View(), old(View()), id)
    {
      var reply;
      ghost var v0 := View();
      ok, reply := SendRequest(id, CMD_PING, [], true, Some(PING_RETRY));
      ghost var v1 := View();
      assert OthersKept(v1, v0, id);
      if ok && id !in servos {
        AddRecord(id);
        OthersKeptChains(View(), v1, v0, id);
      }
    }

    /** File a fresh record, offline and with no positions, under a new id. */
    method AddRecord(id: int)
      requires Valid() && id !in servos
      modifies this`servos, this`order
      ensures Valid() && diag == old(diag) && diagEnabled == old(diagEnabled)
      ensures servos.Keys == old(servos).Keys + {id} && order == old(order) + [id]
      ensures fresh(servos[id]) && forall k | k in old(servos) :: servos[k] == old(servos)[k]
      ensures View() == old(View())[id := Initial(id)]
      ensures OthersKept(View(), old(View()), id)
      ensures forall o | o in servos.Values :: o in old(servos.Values) || fresh(o)
    {
      ghost var v1 := View();
      var info := new UartServoInfo(id);
      MapUpdateValues(servos, id, info);
      servos := servos[id := info];
      order := order + [id];
      assert View() == v1[id := Initial(id)];
    }

    /** `read_data` */
    method ReadData(id: int, address: int, count: int) returns (r: Result<Option<seq<Byte>>>)
      requires Valid()
      modifies this`diag, port, servos.Values
      ensures Valid() && Kept()
      ensures !(IsByte(address) && IsByte(count)) ==>
        r == Raised(StructError) && BusQuiet() && View() == old(View())
      ensures IsByte(address) && IsByte(count) ==>
        var a := Answer(old(port.replies), RETRY_NTIME);
        && r == Ok(if a.Some? then Some(a.value.params) else None)
        && BusExchanged(Frame(id, CMD_READ_DATA, [address, count]), RETRY_NTIME)
        && View() == Synced(old(View()), a)
    {
      if !(IsByte(address) && IsByte(count)) {
        return Raised(StructError);
      }
      var ok, reply := SendRequest(id, CMD_READ_DATA, [address, count], true, None);
      if ok {
        return Ok(Some(reply.value.params));
      }
      return Ok(None);
    }

    /** `write_data`: fire and forget. */
    method WriteData(id: int, address: int, params: seq<Byte>) returns (r: Result<bool>)
      requires Valid()
      modifies this`diag, port, servos.Values
      ensures Valid() && Kept() && View() == old(View())
      ensures !IsByte(address) ==> r == Raised(StructError) && BusQuiet()
      ensures IsByte(address) ==> r == Ok(true) && BusSent(Frame(id, CMD_WRITE_DATA, [address] + params))
    {
      if !IsByte(address) {
        return Raised(StructError);
      }
      var _, _ := SendRequest(id, CMD_WRITE_DATA, [address] + params, false, None);
      return Ok(true);
    }

    /** `read_data_by_name` */
    method ReadDataByName(id: int, name: Field) returns (r: Result<Option<int>>)
      requires Valid()
      modifies this`diag, port, servos.Values
      ensures Valid() && Kept()
      ensures ReadOutcome(id, name, r)
    {
      if name !in table {
        return Ok(None);
      }
      var fs := table[name];
      var raw := ReadData(id, fs.address, Size(fs.dtype));
      if raw.Raised? {
        return Raised(raw.error);
      }
      if raw.value.None? {
        return Ok(None);
      }
      var v := Unpack(fs.dtype, raw.value.value);
      if v.None? {
        return Raised(StructError);
      }
      return Ok(Some(v.value));
    }

    /** `write_data_by_name`; the result says whether a frame went out. */
    method WriteDataByName(id: int, name: Field, value: int) returns (r: Result<bool>)
      requires Valid()
      modifies this`diag, port, servos.Values
      ensures Valid() && Kept()
      ensures WriteOutcome(id, name, value, r)
    {
      if name !in table {
        return Ok(false);
      }
      var fs := table[name];
      var bytes := Pack(fs.dtype, value);
      if bytes.None? {
        return Raised(StructError);
      }
      var w := WriteData(id, fs.address, bytes.value);
      if w.Raised? {
        return Raised(w.error);
      }
      return Ok(true);
    }

    /** `async_set_position`: stage a timed move with REG_WRITE. */
    method AsyncSetPosition(id: int, position: int, runtime: int) returns (r: Result<bool>)
      requires Valid()
      modifies this`diag, port, servos.Values
      ensures Valid() && Kept()
      ensures View() == StoppedAll(old(View()), [id])
      ensures TargetPosition !in table ==> r == Raised(KeyError) && BusQuiet()
      ensures TargetPosition in table ==>
        var address := table[TargetPosition].address;
        var p := GetLegalPosition(position);
        if BhhPackable(address, p, runtime) then
          r == Ok(true) && BusSent(Frame(id, CMD_REG_WRITE, PackBhh(address, p, runtime)))
        else
          r == Raised(StructError) && BusQuiet()
    {
      SetStopFlag(id, false);
      assert [id] == [] + [id];
      StoppedAllSnoc(old(View()), [], id);
      var p := GetLegalPosition(position);
      if TargetPosition !in table {
        return Raised(KeyError);
      }
      var address := table[TargetPosition].address;
      if !BhhPackable(address, p, runtime) {
        return Raised(StructError);
      }
      var _, _ := SendRequest(id, CMD_REG_WRITE, PackBhh(address, p, runtime), false, None);
      return Ok(true);
    }

    /** `async_action`: release every staged move with one broadcast ACTION. */
    method AsyncAction() returns (r: bool)
      requires Valid()
      modifies this`diag, port, servos.Values
      ensures Valid() && Kept() && View() == old(View())
      ensures r && BusSent(Frame(broadcastId, CMD_ACTION, []))
    {
      var _, _ := SendRequest(broadcastId, CMD_ACTION, [], false, None);
      return true;
    }

    /** `sync_set_position`: one broadcast SYNC_WRITE frame carrying every
        (id, clamped position, runtime) triple. An entry that cannot be
        built raises and nothing is sent, but the records of the ids up to
        and including it have `is_stop` assigned already. */
    method SyncSetPosition(ids: seq<int>, positions: seq<int>, runtimes: seq<int>) returns (r: Result<()>)
      requires Valid()
      modifies this`diag, port, servos.Values
      ensures Valid() && Kept()
      ensures var bad := FirstUnpackable(ids, positions, runtimes, 0);
        && (r.Ok? <==> bad == |ids|)
        && View() == StoppedAll(old(View()), if bad == |ids| then ids else ids[..bad + 1])
        && (r.Ok? ==> BusSent(Frame(broadcastId, CMD_SYNC_WRITE, SyncPayload(ids, positions, runtimes))))
        && (r.Raised? ==> r.error == EntryError(positions, runtimes, bad) && BusQuiet())
    {
      var params := SYNC_HEADER;
      ghost var v0 := View();
      var i := 0;
      while i < |ids|
        invariant 0 <= i <= |ids|
        invariant SyncProgress(ids, positions, runtimes, i, params)
        invariant View() == StoppedAll(v0, ids[..i])
        invariant Valid() && Kept() && BusQuiet()
      {
        var id := ids[i];
        SetStopFlag(id, false);
        assert ids[..i + 1] == ids[..i] + [id];
        StoppedAllSnoc(v0, ids[..i], id);
        if !EntryPackable(ids, positions, runtimes, i) {
          SyncProgressStops(ids, positions, runtimes, i, params);
          return Raised(EntryError(positions, runtimes, i));
        }
        SyncProgressStep(ids, positions, runtimes, i, params);
        params := params + PackBhh(id, GetLegalPosition(positions[i]), runtimes[i]);
        i := i + 1;
      }
      assert ids[..|ids|] == ids;
      SyncProgressDone(ids, positions, runtimes, params);
      var _, _ := SendRequest(broadcastId, CMD_SYNC_WRITE, params, false, None);
      r := Ok(());
    }

    /** `reset`: restore factory settings. */
    method Reset(id: int)
      requires Valid()
      modifies this`diag, port, servos.Values
      ensures Valid() && Kept() && View() == old(View())
      ensures BusSent(Frame(id, CMD_RESET, []))
    {
      var _, _ := SendRequest(id, CMD_RESET, [], false, None);
    }

    /** `set_position_time`: one WRITE of (clamped position, runtime) to the
        target-position field; the runtime defaults to 300 ms. */
    method SetPositionTime(id: int, position: int, runtimeMs: Option<int>, timeMs: Option<int>) returns (r: Result<bool>)
      requires Valid()
      modifies this`diag, port, servos.Values
      ensures Valid() && Kept() && View() == old(View())
      ensures var runtime := if runtimeMs.Some? then runtimeMs.value else if timeMs.Some? then timeMs.value else 300;
        var p := GetLegalPosition(position);
        if TargetPosition !in table then r == Raised(KeyError) && BusQuiet()
        else if BhhPackable(table[TargetPosition].address, p, runtime) then
          r == Ok(true) && BusSent(Frame(id, CMD_WRITE_DATA, PackBhh(table[TargetPosition].address, p, runtime)))
        else r == Raised(StructError) && BusQuiet()
    {
      var p := GetLegalPosition(position);
      var runtime := if runtimeMs.Some? then runtimeMs.value else if timeMs.Some? then timeMs.value else 300;
      if TargetPosition !in table {
        return Raised(KeyError);
      }
      var address := table[TargetPosition].address;
      if !BhhPackable(address, p, runtime) {
        return Raised(StructError);
      }
      var _, _ := SendRequest(id, CMD_WRITE_DATA, PackBhh(address, p, runtime), false, None);
      return Ok(true);
    }

    /** `set_runtime_ms` */
    method SetRuntimeMs(id: int, runtime: int) returns (r: Result<bool>)
      requires Valid()
      modifies this`diag, port, servos.Values
      ensures Valid() && Kept() && WriteOutcome(id, RuntimeMs, runtime, r)
    {
      r := WriteDataByName(id, RuntimeMs, runtime);
    }

    /** `get_target_position` */
    method GetTargetPosition(id: int) returns (r: Result<Option<int>>)
      requires Valid()
      modifies this`diag, port, servos.Values
      ensures Valid() && Kept() && ReadOutcome(id, TargetPosition, r)
    {
      r := ReadDataByName(id, TargetPosition);
    }

    /** `get_position` */
    method GetPosition(id: int) returns (r: Result<Option<int>>)
      requires Valid()
      modifies this`diag, port, servos.Values
      ensures Valid() && Kept() && ReadOutcome(id, CurrentPosition, r)
      ensures SameCores(View(), old(View())) && FlagsKept(View(), old(View()), {})
    {
      r := ReadDataByName(id, CurrentPosition);
    }

    /** `get_velocity` */
    method GetVelocity(id: int) returns (r: Result<Option<int>>)
      requires Valid()
      modifies this`diag, port, servos.Values
      ensures Valid() && Kept() && ReadOutcome(id, CurrentVelocity, r)
    {
      r := ReadDataByName(id, CurrentVelocity);
    }

    /** `get_temperature` */
    method GetTemperature(id: int) returns (r: Result<Option<int>>)
      requires Valid()
      modifies this`diag, port, servos.Values
      ensures Valid() && Kept() && ReadOutcome(id, CurrentTemperature, r)
    {
      r := ReadDataByName(id, CurrentTemperature);
    }

    /** `get_voltage` */
    method GetVoltage(id: int) returns (r: Result<Option<int>>)
      requires Valid()
      modifies this`diag, port, servos.Values
      ensures Valid() && Kept() && ReadOutcome(id, CurrentVoltage, r)
    {
      r := ReadDataByName(id, CurrentVoltage);
    }

    /** `set_motor_mode` */
    method SetMotorMode(id: int, mode: int) returns (r: Result<bool>)
      requires Valid()
      modifies this`diag, port, servos.Values
      ensures Valid() && Kept() && WriteOutcome(id, MotorMode, mode, r)
    {
      r := WriteDataByName(id, MotorMode, mode);
    }

    /** `torque_enable` */
    method TorqueEnable(id: int, enable: bool) returns (r: Result<bool>)
      requires Valid()
      modifies this`diag, port, servos.Values
      ensures Valid() && Kept() && WriteOutcome(id, Field.TorqueEnable, if enable then torqueOn else torqueOff, r)
    {
      var value := if enable then torqueOn else torqueOff;
      r := WriteDataByName(id, Field.TorqueEnable, value);
    }

    /** `torque_enable_all`: the same write to the broadcast address. */
    method TorqueEnableAll(enable: bool) returns (r: Result<bool>)
      requires Valid()
      modifies this`diag, port, servos.Values
      ensures Valid() && Kept()
      ensures WriteOutcome(broadcastId, Field.TorqueEnable, if enable then torqueOn else torqueOff, r)
    {
      var value := if enable then torqueOn else torqueOff;
      r := WriteDataByName(broadcastId, Field.TorqueEnable, value);
    }

    /** `set_torque_upperb` */
    method SetTorqueUpperb(id: int, upper: int) returns (r: Result<bool>)
      requires Valid()
      modifies this`diag, port, servos.Values
      ensures Valid() && Kept() && WriteOutcome(id, TorqueUpperb, upper, r)
    {
      r := WriteDataByName(id, TorqueUpperb, upper);
    }

    /** `dc_stop` */
    method DcStop(id: int) returns (r: Result<bool>)
      requires Valid()
      modifies this`diag, port, servos.Values
      ensures Valid() && Kept() && WriteOutcome(id, MotorSpeed, 0, r)
    {
      r := WriteDataByName(id, MotorSpeed, 0);
    }

    /** `dc_rotate`: the direction write, then the speed clamped to 0..100;
        an exception in the first write skips the second. */
    method DcRotate(id: int, direction: int, pwm: int) returns (r: Result<bool>)
      requires Valid()
      modifies this`diag, port, servos.Values
      ensures Valid() && Kept() && View() == old(View()) && port.replies == old(port.replies) && diag == old(diag)
      ensures var speed := Min(100, Max(pwm, 0));
        var e1 := WriteEffect(table, id, MotorDir, direction);
        var e2 := WriteEffect(table, id, MotorSpeed, speed);
        if e1.Raised? then r == Raised(e1.error) && port.written == old(port.written)
        else r == WriteReturn(e2) && port.written == old(port.written) + Emitted(e1) + Emitted(e2)
    {
      var speed := Min(100, Max(pwm, 0));
      var w := WriteDataByName(id, MotorDir, direction);
      if w.Raised? {
        return w;
      }
      r := WriteDataByName(id, MotorSpeed, speed);
    }

    /** `set_position`: one WRITE of the clamped position by name; the record,
        if any, takes it as its target and gets `is_stop` assigned False.
        With isWait the call then blocks in `wait`, which raises KeyError
        for an id without a record after the write went out. */
    method SetPosition(id: int, position: int, isWait: bool) returns (r: Result<()>)
      requires Valid()
      modifies this, port, servos.Values
      ensures Valid() && Kept()
      ensures var p := GetLegalPosition(position);
        var e := WriteEffect(table, id, TargetPosition, p);
        var v1 := if id in old(servos)
                  then old(View())[id := old(View())[id].(targetPosition := Some(p), stopFlag := Some(false))]
                  else old(View());
        && (e.Raised? ==> r == Raised(e.error) && BusQuiet() && View() == old(View()))
        && (e.Ok? && !isWait ==>
              r == Ok(()) && BusWrote(Emitted(e)) && View() == v1)
        && (e.Ok? && isWait && id !in old(servos) ==>
              r == Raised(KeyError) && BusWrote(Emitted(e)) && View() == v1)
        && (e.Ok? && isWait && id in old(servos) ==>
              var w := WaitFrom(table, id, Some(p), diagEnabled, old(port.replies), [], v1, old(diag));
              && r == (if w.result.Raised? then Raised(w.result.error) else Ok(()))
              && port.written == old(port.written) + Emitted(e) + w.requests
              && port.replies == w.rest && diag == w.diag
              && View() == (if w.result.Ok? then WithStopFlag(w.view, id, true) else w.view))
        && (e.Ok? && isWait && r.Ok? ==>
              id in servos && View()[id].targetPosition == Some(p) && View()[id].stopFlag == Some(true))
    {
      var p := GetLegalPosition(position);
      var w := WriteDataByName(id, TargetPosition, p);
      if w.Raised? {
        return Raised(w.error);
      }
      RetargetRecord(id, p);
      if isWait {
        var end := Wait(id);
        if end.Raised? {
          return Raised(end.error);
        }
      }
      return Ok(());
    }

    /** One poll of `wait`: the distance between the position read back and
        the record's target. A read that returns nothing, or a record with
        no target, makes the subtraction raise TypeError. */
    method PollError(id: int) returns (r: Result<int>)
      requires Valid() && id in servos
      modifies this`diag, port, servos.Values
      ensures Valid() && Kept()
      ensures var rs := old(port.replies);
        var s := ReadByName(table, id, CurrentPosition, rs);
        && r == PollValue(s.result, old(View())[id].targetPosition)
        && port.written == old(port.written) + s.requests && port.replies == s.rest
        && View() == Synced(old(View()), s.answer)
        && diag == (if s.asked && diagEnabled then AfterExchange(old(diag), CMD_READ_DATA, rs, RETRY_NTIME) else old(diag))
      ensures r.Ok? ==> |port.replies| < |old(port.replies)|
    {
      var target := servos[id].targetPosition;
      ghost var rs := port.replies;
      var cur := GetPosition(id);
      if cur.Raised? {
        return Raised(cur.error);
      }
      if cur.value.None? || target.None? {
        return Raised(TypeError);
      }
      ReadValueConsumes(table, id, CurrentPosition, rs);
      r := Ok(Abs(cur.value.value - target.value));
    }

    /** `wait`: poll the position until it is within POSITION_DEADAREA of the
        target, or until one error value has been read STALL_REPEATS times;
        either way `is_stop` is assigned True. The run is WaitFrom of the
        script; an unknown id raises KeyError before anything is sent. */
    method Wait(id: int) returns (r: Result<WaitEnd>)
      requires Valid()
      modifies this`diag, port, servos.Values
      ensures Valid() && Kept()
      ensures id !in servos ==> r == Raised(KeyError) && BusQuiet() && View() == old(View())
      ensures id in servos ==> WaitOutcome(id, r)
      ensures r == Raised(KeyError) <==> id !in servos
      ensures SameCores(View(), old(View())) && FlagsKept(View(), old(View()), if r.Ok? then {id} else {})
      ensures r.Ok? ==> id in servos && View()[id].stopFlag == Some(true)
    {
      if id !in servos {
        return Raised(KeyError);
      }
      ghost var v0, rs0, d0 := View(), port.replies, diag;
      ghost var target := v0[id].targetPosition;
      WaitKeepsRecords(table, id, target, diagEnabled, rs0, [], v0, d0);
      WaitOnlyReads(table, id, target, diagEnabled, rs0, [], v0, d0);
      r := WaitKnown(id);
      ghost var w := WaitFrom(table, id, target, diagEnabled, rs0, [], v0, d0);
      if r.Ok? {
        WithStopFlagAgrees(w.view, id, true);
        AgreementChains(View(), w.view, v0, {id}, {});
      }
    }

    /** The poll loop of `wait` on a known id: the run is WaitFrom of the
        script, and `is_stop` is set when the loop ends by settling or
        stalling. */
    method WaitKnown(id: int) returns (r: Result<WaitEnd>)
      requires Valid() && id in servos
      modifies this`diag, port, servos.Values
      ensures Valid() && Kept()
      ensures WaitOutcome(id, r)
    {
      ghost var target := View()[id].targetPosition;
      ghost var run := WaitFrom(table, id, target, diagEnabled, port.replies, [], View(), diag);
      assert run == WaitFrom(table, id, old(View())[id].targetPosition, diagEnabled, old(port.replies), [], old(View()), old(diag));
      ghost var seen: seq<int> := [];
      var counts: map<int, nat> := map[];
      var end: WaitEnd;
      while true
        invariant Valid() && Kept() && id in servos && View()[id].targetPosition == target
        invariant Counted(counts, seen)
        invariant WaitAt(run, WaitFrom(table, id, target, diagEnabled, port.replies, seen, View(), diag),
                         old(port.written), port.written)
        decreases |port.replies|
      {
        ghost var v, d, rs, wr := View(), diag, port.replies, port.written;
        ghost var w := WaitFrom(table, id, target, diagEnabled, rs, seen, v, d);
        var e := PollError(id);
        if e.Raised? {
          WaitEndsHere(table, id, target, diagEnabled, rs, seen, v, d);
          assert run.result == Raised(e.error) && View() == run.view;
          assert port.written == old(port.written) + run.requests && port.replies == run.rest && diag == run.diag;
          r := Raised(e.error);
          assert WaitRan(run, id, r);
          return;
        }
        var angleError := e.value;
        ghost var seen' := seen + [angleError];
        if angleError < POSITION_DEADAREA {
          WaitEndsHere(table, id, target, diagEnabled, rs, seen, v, d);
          assert run.result == Ok(Settled);
          end := Settled;
          break;
        }
        var n: nat := if angleError in counts then counts[angleError] + 1 else 1;
        CountedStep(counts, seen, angleError);
        counts := counts[angleError := n];
        if n >= STALL_REPEATS {
          WaitEndsHere(table, id, target, diagEnabled, rs, seen, v, d);
          assert run.result == Ok(Stalled);
          end := Stalled;
          break;
        }
        WaitStep(run, w, WaitFrom(table, id, target, diagEnabled, port.replies, seen', View(), diag),
                 ReadByName(table, id, CurrentPosition, rs).requests, old(port.written), wr, port.written);
        seen := seen';
      }
      assert run.result == Ok(end) && View() == run.view;
      assert port.written == old(port.written) + run.requests && port.replies == run.rest && diag == run.diag;
      SetStopFlag(id, true);
      r := Ok(end);
      assert WaitRan(run, id, r);
    }

    /** `wait_all`: wait for every online servo, in insertion order; the run
        is WaitAllFrom of the script, and an exception from one wait ends it. */
    method WaitAll() returns (r: Result<()>)
      requires Valid()
      modifies this`diag, port, servos.Values
      ensures Valid() && Kept()
      ensures var run := WaitAllFrom(table, diagEnabled, order, old(port.replies), old(View()), old(diag));
        && r == run.result
        && port.written == old(port.written) + run.requests && port.replies == run.rest
        && diag == run.diag && View() == run.view
      ensures SameCores(View(), old(View())) && FlagsKept(View(), old(View()), OnlineIds(old(View())))
      ensures r.Ok? ==> forall k | k in OnlineIds(old(View())) :: View()[k].stopFlag == Some(true)
    {
      ghost var run := WaitAllFrom(table, diagEnabled, order, port.replies, View(), diag);
      WaitAllKeepsRecords(table, diagEnabled, order, port.replies, View(), diag);
      var i := 0;
      while i < |order|
        invariant 0 <= i <= |order|
        invariant Valid() && Kept()
        invariant WaitAllAt(run, WaitAllFrom(table, diagEnabled, order[i..], port.replies, View(), diag),
                            old(port.written), port.written)
      {
        var id := order[i];
        ghost var rs, v, d, wr := port.replies, View(), diag, port.written;
        WaitAllNext(table, diagEnabled, order, i, rs, v, d);
        if servos[id].isOnline {
          var end := Wait(id);
          ghost var w := WaitFrom(table, id, v[id].targetPosition, diagEnabled, rs, [], v, d);
          if end.Raised? {
            return Raised(end.error);
          }
          WaitAllStep(run, WaitAllFrom(table, diagEnabled, order[i..], rs, v, d),
                      WaitAllFrom(table, diagEnabled, order[i + 1..], port.replies, View(), diag),
                      w.requests, old(port.written), wr, port.written);
        }
        i := i + 1;
      }
      assert order[i..] == [];
      r := Ok(());
    }

    /** The part of `servo_scan`'s loop body for an id that answered the
        ping: switch it to servo mode, then adopt it with `Seed`. */
    method Adopt(id: int) returns (r: Result<()>)
      requires Valid() && id in servos
      modifies this`servos, this`diag, port, servos.Values
      ensures Valid() && order == old(order) && diagEnabled == old(diagEnabled)
      ensures servos.Keys == old(servos).Keys
      ensures forall o | o in servos.Values :: o in old(servos.Values) || fresh(o)
      ensures OthersKept(View(), old(View()), id)
      ensures var st := AdoptWith(table, motorModeServo, id, diagEnabled, old(port.replies), old(diag));
        && ScanRan(st, r)
        && (r.Ok? ==> View()[id].isOnline && View()[id].curPosition == st.readBack && View()[id].targetPosition == st.readBack)
    {
      ghost var rs, d := port.replies, diag;
      ghost var e := WriteEffect(table, id, MotorMode, motorModeServo);
      ghost var st := AdoptWith(table, motorModeServo, id, diagEnabled, rs, d);
      var mode := SetMotorMode(id, motorModeServo);
      if mode.Raised? {
        assert st == ScanStep(Raised(mode.error), true, None, [], rs, d);
        r := Raised(mode.error);
        assert ScanRan(st, r);
        return;
      }
      ghost var t := ScanRead(table, id, diagEnabled, rs, d);
      assert st == t.(requests := Emitted(e) + t.requests);
      ghost var v0, w1 := View(), port.written;
      assert w1 == old(port.written) + Emitted(e) && port.replies == rs && diag == d;
      r := Seed(id);
      OthersKeptChains(View(), v0, old(View()), id);
      ConcatAssoc(old(port.written), Emitted(e), t.requests);
      assert ScanRan(st, r);
    }

    /** File a fresh online record under id and seed it with the position
        read back; a raised read leaves the fresh record unseeded. */
    method Seed(id: int) returns (r: Result<()>)
      requires Valid() && id in servos
      modifies this`servos, this`diag, port, servos.Values
      ensures Valid() && order == old(order) && diagEnabled == old(diagEnabled)
      ensures servos.Keys == old(servos).Keys
      ensures forall o | o in servos.Values :: o in old(servos.Values) || fresh(o)
      ensures OthersKept(View(), old(View()), id)
      ensures var st := ScanRead(table, id, diagEnabled, old(port.replies), old(diag));
        && ScanRan(st, r)
        && (r.Ok? ==> View()[id].isOnline && View()[id].curPosition == st.readBack && View()[id].targetPosition == st.readBack)
    {
      ghost var v0 := View();
      InstallOnline(id);
      ghost var v1 := View();
      assert OthersKept(v1, v0, id);
      r := ReadBack(id);
      OthersKeptChains(View(), v1, v0, id);
    }

    /** `get_position` on an online record, then `update` and `move` with
        the value read. */
    method ReadBack(id: int) returns (r: Result<()>)
      requires Valid() && id in servos && View()[id].isOnline
      modifies this`diag, port, servos.Values
      ensures Valid() && Kept()
      ensures OthersKept(View(), old(View()), id)
      ensures var st := ScanRead(table, id, diagEnabled, old(port.replies), old(diag));
        && ScanRan(st, r)
        && (r.Ok? ==> View()[id].isOnline && View()[id].curPosition == st.readBack && View()[id].targetPosition == st.readBack)
    {
      ghost var v1 := View();
      var position := GetPosition(id);
      ghost var v2 := View();
      assert OthersKept(v2, v1, id);
      if position.Raised? {
        return Raised(position.error);
      }
      SeedPosition(id, position.value);
      assert OthersKept(View(), v2, id);
      OthersKeptChains(View(), v2, v1, id);
      r := Ok(());
    }

    /** One pass of `servo_scan`'s loop body for one id. */
    method ScanOne(id: int) returns (r: Result<()>)
      requires Valid()
      modifies this, port, servos.Values
      ensures Valid() && diagEnabled == old(diagEnabled)
      ensures forall o | o in servos.Values :: o in old(servos.Values) || fresh(o)
      ensures var st := ScanPass(table, motorModeServo, id, diagEnabled, old(port.replies), old(diag));
        && ScanRan(st, r)
        && st.answered == Answer(old(port.replies), PING_RETRY).Some?
        && (r.Ok? ==> ScannedOne(old(View()), View(), id, st.answered, st.readBack))
        && (r.Raised? ==> st.answered && servos.Keys == old(servos).Keys + {id})
        && order == if st.answered && id !in old(order) then old(order) + [id] else old(order)
    {
      ghost var rs, d := port.replies, diag;
      var pinged := Ping(id);
      ghost var v, w1, rs1, d1 := View(), port.written, port.replies, diag;
      if pinged {
        r := Adopt(id);
        ghost var t := AdoptWith(table, motorModeServo, id, diagEnabled, rs1, d1);
        ConcatAssoc(old(port.written), Repeat(Frame(id, CMD_PING, []), Attempts(rs, PING_RETRY)), t.requests);
      } else {
        MarkOffline(id);
        r := Ok(());
      }
      assert OthersKept(View(), v, id);
      OthersKeptChains(View(), v, old(View()), id);
    }

    /** `servo_scan`: ping each id in order; an id that answers gets a fresh
        online record seeded with the position read back, a known id that
        does not answer goes offline, and no record is ever removed. An
        exception from the mode write or the position read ends the scan
        (ok is false) at the first id whose pass raised, whose record is
        then already filed. The run is ScanFrom of the script. */
    method ServoScan(ids: seq<int>) returns (ok: bool)
      requires Valid()
      modifies this, port, servos.Values
      ensures Valid() && diagEnabled == old(diagEnabled)
      ensures var run := ScanFrom(table, motorModeServo, ids, diagEnabled, old(port.replies), old(diag));
        && ok == run.ok
        && port.written == old(port.written) + run.requests && port.replies == run.rest && diag == run.diag
        && (ok ==> servos.Keys == old(servos).Keys + AnsweredIds(ids, run.answered)
                   && ScanOutcome(View(), ids, |ids|, run.answered, run.readBack))
        && (!ok ==> servos.Keys == old(servos).Keys + AnsweredIds(ids, run.answered) + {ids[|run.answered|]})
        && order == Registered(old(order), ids, if ok then run.answered else run.answered + [true])
    {
      ghost var run := ScanFrom(table, motorModeServo, ids, diagEnabled, port.replies, diag);
      ghost var answered: seq<bool>, readBack: seq<Option<int>> := [], [];
      ghost var keys0 := servos.Keys;
      var i := 0;
      while i < |ids|
        invariant 0 <= i <= |ids| && |answered| == i && |readBack| == i
        invariant Valid() && diagEnabled == old(diagEnabled)
        invariant forall o | o in servos.Values :: o in old(servos.Values) || fresh(o)
        invariant ScanState(View(), keys0, ids, i, answered, readBack)
        invariant order == Registered(old(order), ids, answered)
        invariant ScanAt(run, answered, readBack, old(port.written), port.written,
                         ScanFrom(table, motorModeServo, ids[i..], diagEnabled, port.replies, diag))
      {
        var step;
        ghost var a, rb;
        step, a, rb := ScanNext(run, answered, readBack, old(port.written), keys0, old(order), ids, i);
        if step.Raised? {
          return false;
        }
        answered := answered + [a];
        readBack := readBack + [rb];
        i := i + 1;
      }
      assert ids[i..] == [];
      ScanAtDone(run, answered, readBack, old(port.written), port.written, port.replies, diag);
      ok := true;
    }

    /** One turn of `servo_scan`'s loop, for ids[i]: the loop invariant
        moves on past ids[i], or the scan ends here with the pass's error. */
    method ScanNext(ghost run: ScanRun, ghost answered: seq<bool>, ghost readBack: seq<Option<int>>,
                    ghost w0: seq<Frame>, ghost keys0: set<int>, ghost o0: seq<int>, ids: seq<int>, i: nat)
      returns (r: Result<()>, ghost a: bool, ghost rb: Option<int>)
      requires Valid() && i < |ids| && |answered| == i == |readBack|
      requires ScanState(View(), keys0, ids, i, answered, readBack)
      requires order == Registered(o0, ids, answered)
      requires ScanAt(run, answered, readBack, w0, port.written,
                      ScanFrom(table, motorModeServo, ids[i..], diagEnabled, port.replies, diag))
      modifies this, port, servos.Values
      ensures Valid() && diagEnabled == old(diagEnabled)
      ensures forall o | o in servos.Values :: o in old(servos.Values) || fresh(o)
      ensures r.Raised? ==>
        && !run.ok && run.answered == answered && run.readBack == readBack
        && w0 + run.requests == port.written && run.rest == port.replies && run.diag == diag
        && servos.Keys == keys0 + AnsweredIds(ids, answered) + {ids[i]}
      ensures order == Registered(o0, ids, answered + [a]) && (r.Raised? ==> a)
      ensures r.Ok? ==>
        && ScanState(View(), keys0, ids, i + 1, answered + [a], readBack + [rb])
        && ScanAt(run, answered + [a], readBack + [rb], w0, port.written,
                  ScanFrom(table, motorModeServo, ids[i + 1..], diagEnabled, port.replies, diag))
    {
      ghost var v, rs, d, wr := View(), port.replies, diag, port.written;
      ghost var st := ScanPass(table, motorModeServo, ids[i], diagEnabled, rs, d);
      ScanAtNext(run, answered, readBack, w0, wr, table, motorModeServo, ids, i, diagEnabled, rs, d);
      r := ScanOne(ids[i]);
      a, rb := st.answered, st.readBack;
      RegisteredSnoc(o0, ids, answered, a);
      if r.Ok? {
        ScanStateStep(v, View(), keys0, ids, i, answered, readBack, st.answered, st.readBack);
      }
    }
  }
}
