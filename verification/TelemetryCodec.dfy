/**
 * The server's codec: packages/telemetry-codec/src/index.ts. A JavaScript number
 * is a real; NaN and the infinities are not modelled.
 */
module TelemetryCodec {
  import opened Bytes
  import opened Options

  const PAYLOAD_LENGTH := 13
  const PAYLOAD_VERSION: Byte := 1

  datatype SensorsPresent = SensorsPresent(pm: bool, env: bool)

  datatype DecodedPayload = DecodedPayload(
    pm25: real, pm10: real, temperature: real, humidity: real, pressure: real, batteryMv: real,
    version: Option<Byte>, sensorsPresent: Option<SensorsPresent>)

  function DecodeUplink(bytes: seq<Byte>): Result<DecodedPayload> {
    if |bytes| < PAYLOAD_LENGTH then Throws
    else
      var flags := bytes[12];
      var version := flags % 0x10;
      if version > PAYLOAD_VERSION then Throws
      else
        Ok(DecodedPayload(
             ReadLe16(bytes, 0) as real / 10.0,
             ReadLe16(bytes, 2) as real / 10.0,
             ToI16(ReadLe16(bytes, 4)) as real / 100.0,
             ReadLe16(bytes, 6) as real / 100.0,
             ReadLe16(bytes, 8) as real,
             ReadLe16(bytes, 10) as real,
             Some(version),
             Some(if version == 0 then SensorsPresent(true, true)
                  else SensorsPresent(flags / 0x10 % 2 != 0, flags / 0x20 % 2 != 0))))
  }

  /** The little-endian word at `i`, unsigned and signed. */
  function Unsigned(b: seq<Byte>, i: nat): int
    requires i + 1 < |b|
  {
    b[i] as int + 256 * b[i + 1] as int
  }

  function SignedWord(b: seq<Byte>, i: nat): int
    requires i + 1 < |b|
  {
    if b[i + 1] < 128 then Unsigned(b, i) else Unsigned(b, i) - 65536
  }

  /** What the decoder makes of any bytes; version 0 is taken to have all sensors. */
  lemma UplinkByteByByte(b: seq<Byte>)
    ensures DecodeUplink(b).Ok? <==> |b| >= 13 && b[12] % 16 <= 1
    ensures DecodeUplink(b).Ok? ==>
      DecodeUplink(b).value == DecodedPayload(
        Unsigned(b, 0) as real / 10.0, Unsigned(b, 2) as real / 10.0, SignedWord(b, 4) as real / 100.0,
        Unsigned(b, 6) as real / 100.0, Unsigned(b, 8) as real, Unsigned(b, 10) as real,
        Some(b[12] % 16),
        Some(if b[12] % 16 == 0 then SensorsPresent(true, true)
             else SensorsPresent(b[12] / 16 % 2 == 1, b[12] / 32 % 2 == 1)))
  {
  }

  /** `Math.round`: to the nearest integer, halves upwards. */
  function MathRound(v: real): int {
    (v + 0.5).Floor
  }

  function WireU16(v: real): U16 {
    var r := MathRound(v);
    var capped := if r < 65535 then r else 65535;
    if 0 > capped then 0 else capped
  }

  function WireI16(v: real): I16 {
    var r := MathRound(v);
    var capped := if r < 32767 then r else 32767;
    if -32768 > capped then -32768 else capped
  }

  function PresenceBits(p: SensorsPresent): Byte {
    (if p.pm then 0x10 else 0) + (if p.env then 0x20 else 0)
  }

  function EncodedUplink(p: DecodedPayload): (b: seq<Byte>)
    ensures |b| == PAYLOAD_LENGTH
  {
    SixWords(WireU16(p.pm25 * 10.0), WireU16(p.pm10 * 10.0), ToU16(WireI16(p.temperature * 100.0)),
             WireU16(p.humidity * 100.0), WireU16(p.pressure), WireU16(p.batteryMv),
             PAYLOAD_VERSION + PresenceBits(p.sensorsPresent.GetOr(SensorsPresent(true, true))))
  }

  /** The last byte: version 1 and the presence bits, all of them unless told otherwise. */
  lemma LastByteOfUplink(p: DecodedPayload)
    ensures EncodedUplink(p)[12] ==
      match p.sensorsPresent
      case None => 0x31
      case Some(s) => 1 + (if s.pm then 0x10 else 0) + (if s.env then 0x20 else 0)
  {
  }

  /** `encodeUplink` */
  method EncodeUplink(p: DecodedPayload) returns (bytes: array<Byte>)
    ensures fresh(bytes) && bytes[..] == EncodedUplink(p)
  {
    bytes := new Byte[PAYLOAD_LENGTH];
    PutU16(bytes, 0, WireU16(p.pm25 * 10.0));
    PutU16(bytes, 2, WireU16(p.pm10 * 10.0));
    PutU16(bytes, 4, ToU16(WireI16(p.temperature * 100.0)));
    PutU16(bytes, 6, WireU16(p.humidity * 100.0));
    PutU16(bytes, 8, WireU16(p.pressure));
    PutU16(bytes, 10, WireU16(p.batteryMv));
    bytes[12] := PAYLOAD_VERSION + PresenceBits(p.sensorsPresent.GetOr(SensorsPresent(true, true)));
  }

  // ---------------------------- Downlink config ----------------------------

  const OP_SET_INTERVAL: Byte := 0x01
  const OP_SET_PM_OFFSET: Byte := 0x02
  const OP_SET_TEMP_OFFSET: Byte := 0x03

  datatype DownlinkCommand =
    | SetInterval(seconds: real)
    | SetPmOffset(offsetX10: real)
    | SetTempOffset(offsetX100: real)

  /** `checkRange` accepts `value`. */
  predicate InRange(value: real, min: int, max: int) {
    value.Floor as real == value && min as real <= value <= max as real
  }

  /** `assertDownlinkInRange` does not throw. */
  predicate DownlinkInRange(cmd: DownlinkCommand) {
    match cmd
    case SetInterval(v) => InRange(v, 120, 21600)
    case SetPmOffset(v) => InRange(v, -500, 500)
    case SetTempOffset(v) => InRange(v, -1000, 1000)
  }

  /** `value` fits the two-byte argument of its command. */
  predicate Representable(cmd: DownlinkCommand) {
    match cmd
    case SetInterval(v) => InRange(v, 0, 0xffff)
    case SetPmOffset(v) => InRange(v, -0x8000, 0x7fff)
    case SetTempOffset(v) => InRange(v, -0x8000, 0x7fff)
  }

  function WithArgument(op: Byte, arg: U16): (b: seq<Byte>)
    ensures |b| == 3
  {
    [op, arg % 0x100, arg / 0x100]
  }

  /** The bytes on the wire for any command whose argument fits. */
  function Wire(cmd: DownlinkCommand): (b: seq<Byte>)
    requires Representable(cmd)
    ensures |b| == 3
  {
    match cmd
    case SetInterval(v) => WithArgument(OP_SET_INTERVAL, v.Floor)
    case SetPmOffset(v) => WithArgument(OP_SET_PM_OFFSET, ToU16(v.Floor))
    case SetTempOffset(v) => WithArgument(OP_SET_TEMP_OFFSET, ToU16(v.Floor))
  }

  function EncodedDownlink(cmd: DownlinkCommand): Result<seq<Byte>> {
    if DownlinkInRange(cmd) then Ok(Wire(cmd)) else Throws
  }

  /** `encodeDownlink` */
  method EncodeDownlink(cmd: DownlinkCommand) returns (r: Result<seq<Byte>>)
    ensures r == EncodedDownlink(cmd)
  {
    if !DownlinkInRange(cmd) {
      return Throws;
    }
    var bytes := new Byte[3];
    match cmd {
      case SetInterval(v) =>
        bytes[0] := OP_SET_INTERVAL;
        PutU16(bytes, 1, v.Floor);
      case SetPmOffset(v) =>
        bytes[0] := OP_SET_PM_OFFSET;
        PutU16(bytes, 1, ToU16(v.Floor));
      case SetTempOffset(v) =>
        bytes[0] := OP_SET_TEMP_OFFSET;
        PutU16(bytes, 1, ToU16(v.Floor));
    }
    assert bytes[..] == Wire(cmd);
    return Ok(bytes[..]);
  }

  function DecodeDownlink(bytes: seq<Byte>): Result<DownlinkCommand> {
    if |bytes| < 3 then Throws
    else if bytes[0] == OP_SET_INTERVAL then Ok(SetInterval(ReadLe16(bytes, 1) as real))
    else if bytes[0] == OP_SET_PM_OFFSET then Ok(SetPmOffset(ToI16(ReadLe16(bytes, 1)) as real))
    else if bytes[0] == OP_SET_TEMP_OFFSET then Ok(SetTempOffset(ToI16(ReadLe16(bytes, 1)) as real))
    else Throws
  }

  // ----------------------------- Config report -----------------------------

  const CONFIG_REPORT_FPORT: Byte := 11
  const CONFIG_REPORT_LENGTH := 9
  const CONFIG_REPORT_VERSION: Byte := 1
  const RESULT_MALFORMED: Byte := 3

  datatype ConfigReport = ConfigReport(
    lastResult: Byte, lastCommand: Byte, intervalS: U16, pmOffsetX10: I16, tempOffsetX100: I16)

  function DecodeConfigReport(bytes: seq<Byte>): Result<ConfigReport> {
    if |bytes| < CONFIG_REPORT_LENGTH then Throws
    else if bytes[0] != CONFIG_REPORT_VERSION then Throws
    else if bytes[1] > RESULT_MALFORMED then Throws
    else Ok(ConfigReport(bytes[1], bytes[2], ReadLe16(bytes, 3), ToI16(ReadLe16(bytes, 5)), ToI16(ReadLe16(bytes, 7))))
  }

  /** `encodeConfigReport`, used by tests and tooling. */
  function EncodedConfigReport(r: ConfigReport): seq<Byte> {
    [CONFIG_REPORT_VERSION, r.lastResult, r.lastCommand] +
    ThreeWords(r.intervalS, ToU16(r.pmOffsetX10), ToU16(r.tempOffsetX100))
  }
}
