/** Byte-level building blocks of the servo bus: the big-endian `struct`
    codes the session layer packs its parameters with, the static field
    table, the command codes, and the abstract request and reply frames.

    The frame codec itself (marker bytes, length field, checksum) belongs to
    `Packet` and `PacketBuffer`, which are not part of this model: a request
    is recorded as the (id, command, parameters) triple handed to
    `Packet.pack`, and a reply as the tuple `Packet.unpack` returns. */
module Wire {
  import opened PyBase

  type Byte = b: int | 0 <= b < 256

  predicate IsByte(x: int) { 0 <= x < 256 }
  predicate IsU16(x: int) { 0 <= x < 65536 }

  /** struct '>H' */
  function U16BE(x: int): (bs: seq<Byte>)
    requires IsU16(x)
    ensures |bs| == 2 && (bs[0] as int) * 256 + bs[1] as int == x
  {
    [x / 256, x % 256]
  }

  /** The struct format codes the field table uses: 'B', 'b', 'H', 'h'. */
  datatype DType = U8 | I8 | U16 | I16

  /** `struct.calcsize`; also the byte count `read_data_by_name` asks for. */
  function Size(dt: DType): nat
  {
    match dt
    case U8 => 1
    case I8 => 1
    case U16 => 2
    case I16 => 2
  }

  /** The values `struct.pack` accepts for a format code. */
  predicate Fits(dt: DType, v: int)
  {
    match dt
    case U8 => 0 <= v < 256
    case I8 => -128 <= v < 128
    case U16 => 0 <= v < 65536
    case I16 => -32768 <= v < 32768
  }

  /** `struct.pack('>' + code, v)`; None where Python raises struct.error. */
  function Pack(dt: DType, v: int): (r: Option<seq<Byte>>)
    ensures r.Some? <==> Fits(dt, v)
    ensures r.Some? ==> |r.value| == Size(dt)
  {
    if !Fits(dt, v) then None
    else match dt
      case U8 => Some([v])
      case I8 => Some([if v < 0 then v + 256 else v])
      case U16 => Some(U16BE(v))
      case I16 => Some(U16BE(if v < 0 then v + 65536 else v))
  }

  /** `struct.unpack('>' + code, bs)[0]`; None where Python raises struct.error
      because the byte count is wrong. */
  function Unpack(dt: DType, bs: seq<Byte>): (r: Option<int>)
    ensures r.Some? <==> |bs| == Size(dt)
    ensures r.Some? ==> Fits(dt, r.value)
  {
    if |bs| != Size(dt) then None
    else match dt
      case U8 => Some(bs[0] as int)
      case I8 => Some(if bs[0] >= 128 then bs[0] as int - 256 else bs[0] as int)
      case U16 => Some((bs[0] as int) * 256 + bs[1] as int)
      case I16 =>
        var u := (bs[0] as int) * 256 + bs[1] as int;
        Some(if u >= 32768 then u - 65536 else u)
  }

  lemma PackThenUnpack(dt: DType, v: int)
    requires Fits(dt, v)
    ensures Unpack(dt, Pack(dt, v).value) == Some(v)
  {
  }

  lemma UnpackThenPack(dt: DType, bs: seq<Byte>)
    requires |bs| == Size(dt)
    ensures Pack(dt, Unpack(dt, bs).value) == Some(bs)
  {
    var v := Unpack(dt, bs).value;
    match dt
    case U8 =>
      assert [v] == bs;
    case I8 =>
      assert [if v < 0 then v + 256 else v] == bs;
    case U16 =>
      assert U16BE(v) == bs;
    case I16 =>
      assert U16BE(if v < 0 then v + 65536 else v) == bs;
  }

  /** The named fields of the servo's memory table that the core addresses. */
  datatype Field =
    | TargetPosition | CurrentPosition | CurrentVelocity | RuntimeMs
    | MotorMode | MotorDir | MotorSpeed | TorqueEnable | TorqueUpperb
    | CurrentTemperature | CurrentVoltage

  /** A table entry: register address and struct code. */
  datatype FieldSpec = FieldSpec(address: int, dtype: DType)

  /** `UART_SERVO_DATA_TABLE`; given, since its contents are not part of this model. */
  type FieldTable = map<Field, FieldSpec>

  // Command codes (services/uart_servo.py:106-112).
  const CMD_PING: int := 0x01
  const CMD_READ_DATA: int := 0x02
  const CMD_WRITE_DATA: int := 0x03
  const CMD_REG_WRITE: int := 0x04
  const CMD_ACTION: int := 0x05
  const CMD_RESET: int := 0x06
  const CMD_SYNC_WRITE: int := 0x83

  /** A request as handed to `Packet.pack(servo_id, cmd_type, param_bytes)`. */
  datatype Frame = Frame(servoId: int, cmd: int, params: seq<Byte>)

  /** A validated reply as returned by `Packet.unpack`, with the length of
      the raw packet it came from. */
  datatype Reply = Reply(servoId: int, dataSize: int, status: int, params: seq<Byte>, rawLen: nat)
}
