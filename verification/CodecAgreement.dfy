/**
 * The firmware's C and the server's TypeScript speak the same wire format.
 */
module CodecAgreement {
  import opened Bytes
  import opened Options
  import opened Downlink
  import opened NodeState
  import opened Payload
  import T = TelemetryCodec

  // ------------------------------- Downlinks -------------------------------

  /** The config a command stands for, in the server's terms. */
  function With(cfg: Config, cmd: T.DownlinkCommand): Config
    requires T.Representable(cmd)
  {
    match cmd
    case SetInterval(v) => cfg.(sampleIntervalS := v.Floor)
    case SetPmOffset(v) => cfg.(pmOffsetX10 := v.Floor)
    case SetTempOffset(v) => cfg.(tempOffsetX100 := v.Floor)
  }

  /** What the wire carries is what the node is asked for, for every representable value. */
  lemma WireIsUnderstood(cmd: T.DownlinkCommand, cfg: Config)
    requires T.Representable(cmd)
    ensures Requested(T.Wire(cmd), cfg) == Some(With(cfg, cmd))
    ensures T.DecodeDownlink(T.Wire(cmd)) == Ok(cmd)
  {
    match cmd {
      case SetInterval(v) => assert ReadLe16(T.Wire(cmd), 1) == v.Floor;
      case SetPmOffset(v) => assert ReadLe16(T.Wire(cmd), 1) == ToU16(v.Floor);
      case SetTempOffset(v) => assert ReadLe16(T.Wire(cmd), 1) == ToU16(v.Floor);
    }
  }

  /** The server refuses exactly what cannot be sent or would be rejected by the node. */
  lemma EncoderAcceptsWhatTheNodeApplies(cmd: T.DownlinkCommand, cfg: Config)
    requires ConfigValid(cfg)
    ensures T.EncodedDownlink(cmd).Ok? <==> T.Representable(cmd) && Judge(T.Wire(cmd), cfg) == Applied
    ensures T.EncodedDownlink(cmd).Ok? ==> ConfigAfter(T.EncodedDownlink(cmd).value, cfg) == With(cfg, cmd)
    ensures T.EncodedDownlink(cmd).Ok? ==> T.DecodeDownlink(T.EncodedDownlink(cmd).value) == Ok(cmd)
  {
    if T.Representable(cmd) {
      WireIsUnderstood(cmd, cfg);
    }
  }

  /** Over all byte strings, "unknown to the server" and "malformed to the node" coincide. */
  lemma DecoderThrowsOnMalformed(bytes: seq<Byte>, cfg: Config)
    ensures T.DecodeDownlink(bytes).Throws? <==> Judge(bytes, cfg) == Malformed
    ensures T.DecodeDownlink(bytes).Ok? ==>
      var cmd := T.DecodeDownlink(bytes).value;
      T.Representable(cmd) && Requested(bytes, cfg) == Some(With(cfg, cmd)) && T.Wire(cmd) == bytes[..3]
  {
    if T.DecodeDownlink(bytes).Ok? {
      WordSplits(bytes[1], bytes[2]);
      var arg := ReadLe16(bytes, 1);
      assert (arg as real).Floor == arg;
      assert (ToI16(arg) as real).Floor == ToI16(arg);
    }
  }

  /** What a config report says of a command: 3 for bytes that are none, 2 if out of range, else 1. */
  function VerdictCode(bytes: seq<Byte>): int {
    match T.DecodeDownlink(bytes)
    case Throws => 3
    case Ok(cmd) => if T.DownlinkInRange(cmd) then 1 else 2
  }

  /** The config that the bytes leave in force, as the server reads them. */
  function Told(bytes: seq<Byte>, cfg: Config): Config {
    match T.DecodeDownlink(bytes)
    case Throws => cfg
    case Ok(cmd) => if T.DownlinkInRange(cmd) then With(cfg, cmd) else cfg
  }

  /** The node's result code is what the server would have said of the bytes, and it does what it says. */
  lemma VerdictsAgree(bytes: seq<Byte>, cfg: Config)
    requires ConfigValid(cfg)
    ensures ResultCode(Judge(bytes, cfg)) == VerdictCode(bytes)
    ensures ConfigAfter(bytes, cfg) == Told(bytes, cfg)
  {
    DecoderThrowsOnMalformed(bytes, cfg);
    if T.DecodeDownlink(bytes).Ok? {
      var arg := ReadLe16(bytes, 1);
      assert (arg as real).Floor == arg && (ToI16(arg) as real).Floor == ToI16(arg);
    }
  }

  // -------------------------------- Reports --------------------------------

  /** The report of a state, as the server reads it. */
  function ReportOf(st: State): T.ConfigReport {
    T.ConfigReport(st.lastResult, st.lastCmd, st.cfg.sampleIntervalS, st.cfg.pmOffsetX10, st.cfg.tempOffsetX100)
  }

  lemma ReportIsUnderstood(st: State)
    ensures T.EncodedConfigReport(ReportOf(st)) == st.Report()
    ensures T.DecodeConfigReport(st.Report()) ==
      if st.lastResult <= RESULT_MALFORMED then Ok(ReportOf(st)) else Throws
  {
    ThreeWordsRead([REPORT_VERSION, st.lastResult, st.lastCmd],
                   st.cfg.sampleIntervalS, ToU16(st.cfg.pmOffsetX10), ToU16(st.cfg.tempOffsetX100));
  }

  // -------------------------------- Uplinks --------------------------------

  /** A 13-byte version-1 payload with no presence bit beyond the two known ones. */
  predicate Canonical(b: seq<Byte>) {
    |b| == PAYLOAD_LEN && b[12] in {0x01, 0x11, 0x21, 0x31}
  }

  /** Each scaled field of a decoded payload goes back to the word it came from. */
  lemma WordsSurvive(u: U16, i: I16)
    ensures T.WireU16(u as real / 10.0 * 10.0) == u
    ensures T.WireU16(u as real / 100.0 * 100.0) == u
    ensures T.WireU16(u as real) == u
    ensures T.WireI16(i as real / 100.0 * 100.0) == i
  {
    assert u as real / 10.0 * 10.0 == u as real;
    assert u as real / 100.0 * 100.0 == u as real;
    assert i as real / 100.0 * 100.0 == i as real;
    assert (u as real + 0.5).Floor == u;
    assert (i as real + 0.5).Floor == i;
  }

  lemma CanonicalComesBack(b: seq<Byte>)
    requires Canonical(b)
    ensures T.DecodeUplink(b).Ok? && T.EncodedUplink(T.DecodeUplink(b).value) == b
  {
    var d := T.DecodeUplink(b).value;
    WordsSurvive(ReadLe16(b, 0), 0);
    WordsSurvive(ReadLe16(b, 2), 0);
    WordsSurvive(0, ToI16(ReadLe16(b, 4)));
    WordsSurvive(ReadLe16(b, 6), 0);
    WordsSurvive(ReadLe16(b, 8), 0);
    WordsSurvive(ReadLe16(b, 10), 0);
    SixWordsDetermine(b);
  }

  lemma EncodingIsCanonical(p: T.DecodedPayload)
    ensures Canonical(T.EncodedUplink(p))
  {
  }

  /** A payload that decodes is encoded back to itself if and only if it is canonical. */
  lemma EncodeUndoesDecode(b: seq<Byte>)
    ensures Canonical(b) ==> T.DecodeUplink(b).Ok?
    ensures T.DecodeUplink(b).Ok? ==> (T.EncodedUplink(T.DecodeUplink(b).value) == b <==> Canonical(b))
  {
    hide T.DecodeUplink, T.EncodedUplink, Canonical;
    if Canonical(b) {
      CanonicalComesBack(b);
    }
    if T.DecodeUplink(b).Ok? {
      EncodingIsCanonical(T.DecodeUplink(b).value);
    }
  }

  /** `x` limited to the range of a wire field. */
  function Saturated(x: real, lo: real, hi: real): real {
    if x < lo then lo else if x > hi then hi else x
  }

  /** `got` is `x` limited to the wire range, off by at most half a wire step. */
  predicate Within(got: real, x: real, lo: real, hi: real, half: real) {
    -half <= got - Saturated(x, lo, hi) <= half
  }

  lemma ClampIsNearest(v: real)
    ensures Within(ClampU16(v) as real, v, 0.0, 65535.0, 0.5)
    ensures Within(ClampI16(v) as real, v, -32768.0, 32767.0, 0.5)
  {
  }

  /** What the server decodes from a firmware payload, field by field. */
  lemma DecodeOfFirmwareReading(r: Reading)
    ensures T.DecodeUplink(Encoded(r)).Ok?
    ensures
      var d := T.DecodeUplink(Encoded(r)).value;
      && Within(d.pm25, r.pm25, 0.0, 6553.5, 0.05)
      && Within(d.pm10, r.pm10, 0.0, 6553.5, 0.05)
      && Within(d.temperature, r.temperature, -327.68, 327.67, 0.005)
      && Within(d.humidity, r.humidity, 0.0, 655.35, 0.005)
      && Within(d.pressure, r.pressure, 0.0, 65535.0, 0.5)
      && d.batteryMv == r.batteryMv as real
      && d.version == Some(1)
      && d.sensorsPresent == Some(T.SensorsPresent(HasPm(r.present), HasEnv(r.present)))
  {
    var b := Encoded(r);
    FirmwareWords(r);
    ClampIsNearest(r.pm25 * 10.0);
    ClampIsNearest(r.pm10 * 10.0);
    ClampIsNearest(r.temperature * 100.0);
    ClampIsNearest(r.humidity * 100.0);
    ClampIsNearest(r.pressure);
  }

  lemma FirmwareWords(r: Reading)
    ensures
      var b := Encoded(r);
      && ReadLe16(b, 0) == ClampU16(r.pm25 * 10.0)
      && ReadLe16(b, 2) == ClampU16(r.pm10 * 10.0)
      && ToI16(ReadLe16(b, 4)) == ClampI16(r.temperature * 100.0)
      && ReadLe16(b, 6) == ClampU16(r.humidity * 100.0)
      && ReadLe16(b, 8) == ClampU16(r.pressure)
      && ReadLe16(b, 10) == r.batteryMv
      && b[12] == 1 + r.present / 0x10 * 0x10
  {
    SixWordsRead(ClampU16(r.pm25 * 10.0), ClampU16(r.pm10 * 10.0), ToU16(ClampI16(r.temperature * 100.0)),
                 ClampU16(r.humidity * 100.0), ClampU16(r.pressure), r.batteryMv,
                 PAYLOAD_VERSION + r.present / 0x10 * 0x10);
  }

  /** A value half-way between two integers, below zero and inside the int16 range. */
  predicate NegativeHalf(v: real) {
    -32768.0 < v < 0.0 && (v + 0.5).Floor as real == v + 0.5
  }

  lemma RoundingsAgree(v: real)
    ensures ClampU16(v) == T.WireU16(v)
    ensures ClampI16(v) == T.WireI16(v) <==> !NegativeHalf(v)
  {
  }

  /** The reading as the server-side encoder takes it. */
  function AsPayload(r: Reading): T.DecodedPayload {
    T.DecodedPayload(r.pm25, r.pm10, r.temperature, r.humidity, r.pressure, r.batteryMv as real, None,
                     Some(T.SensorsPresent(HasPm(r.present), HasEnv(r.present))))
  }

  /** The two encoders give the same 13 bytes, except where lroundf and Math.round part. */
  lemma EncodersAgree(r: Reading)
    requires r.present in {0x00, 0x10, 0x20, 0x30}
    ensures T.EncodedUplink(AsPayload(r)) == Encoded(r) <==> !NegativeHalf(r.temperature * 100.0)
  {
    hide SixWords, ClampU16, ClampI16, T.WireU16, T.WireI16, NegativeHalf;
    RoundingsAgree(r.pm25 * 10.0);
    RoundingsAgree(r.pm10 * 10.0);
    RoundingsAgree(r.temperature * 100.0);
    RoundingsAgree(r.humidity * 100.0);
    RoundingsAgree(r.pressure);
    WordsSurvive(r.batteryMv, 0);
    FirmwareWords(r);
    var p := AsPayload(r);
    SixWordsRead(T.WireU16(p.pm25 * 10.0), T.WireU16(p.pm10 * 10.0), ToU16(T.WireI16(p.temperature * 100.0)),
                 T.WireU16(p.humidity * 100.0), T.WireU16(p.pressure), T.WireU16(p.batteryMv),
                 T.PAYLOAD_VERSION + T.PresenceBits(p.sensorsPresent.value));
  }

  /** At -0.005 degrees the node sends -0.01 and the server-side encoder sends 0. */
  lemma EncodersPartAtAHalf(r: Reading)
    requires r.present in {0x00, 0x10, 0x20, 0x30} && r.temperature == -0.005
    ensures ClampI16(r.temperature * 100.0) == -1 && T.WireI16(r.temperature * 100.0) == 0
    ensures T.EncodedUplink(AsPayload(r)) != Encoded(r)
  {
    assert r.temperature * 100.0 == -0.5 && NegativeHalf(-0.5);
    EncodersAgree(r);
  }
}
