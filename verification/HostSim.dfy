/**
 * The host build of the node, firmware/sim/main.c: one process per wake and one per
 * downlink, with a one-line text file in place of RTC RAM and NVS.
 */
module HostSim {
  import opened Bytes
  import opened Options
  import opened Downlink
  import opened NodeState
  import opened Payload
  import opened HostText
  import Base64

  const DOWNLINK_BUFFER := 242

  // ------------------------------ The state file ------------------------------

  /** `load_state`; None is a cold boot: no file, or one that does not parse. */
  function LoadState(file: Option<string>): Option<State> {
    if file.None? || ScanMany(file.value, 6).None? then None
    else
      var v := ScanMany(file.value, 6).value;
      var cfg := Config(v[0] % 0x1_0000, ToI16(v[1] % 0x1_0000), ToI16(v[2] % 0x1_0000));
      Some(State(Fresh(Some(cfg)).cfg, v[3] % 0x100, v[4] % 0x100, v[5] % 0x100))
  }

  /** `save_state` */
  function SaveState(st: State): string {
    Line([st.cfg.sampleIntervalS, st.cfg.pmOffsetX10, st.cfg.tempOffsetX100, st.reportPending, st.lastCmd, st.lastResult])
  }

  /** A saved state is read back, except that a config out of range becomes the defaults. */
  lemma LoadUndoesSave(st: State)
    ensures LoadState(Some(SaveState(st))) == Some(st.(cfg := if ConfigValid(st.cfg) then st.cfg else DEFAULT_CONFIG))
    ensures LoadState(Some(SaveState(st))) == Some(st) <==> ConfigValid(st.cfg)
  {
    hide ScanMany, Line;
    var ns: seq<int> := [st.cfg.sampleIntervalS, st.cfg.pmOffsetX10, st.cfg.tempOffsetX100,
                         st.reportPending, st.lastCmd, st.lastResult];
    ScanUndoesLine(ns);
    WrapIsIdentity(st.cfg.pmOffsetX10);
    WrapIsIdentity(st.cfg.tempOffsetX100);
  }

  lemma WrapIsIdentity(v: I16)
    ensures ToI16(v as int % 0x1_0000) == v
  {
  }

  // --------------------------------- One wake ---------------------------------

  datatype Printed = Printed(fport: Byte, b64: string, sleepS: nat)

  /** The state a wake starts from, and whether it is a cold boot. */
  function HostBoot(file: Option<string>, boot: bool): (State, bool) {
    match LoadState(file)
    case None => (Fresh(None), true)
    case Some(st) => if boot then (Fresh(Some(st.cfg)), true) else (st, false)
  }

  function StateAfterWake(file: Option<string>, boot: bool): State {
    var (st, cold) := HostBoot(file, boot);
    if st.ReportDue() then st.(reportPending := 0)
    else if cold then st.(reportPending := 1)
    else st
  }

  function WakePrints(file: Option<string>, boot: bool, hal: Hal): Printed {
    var (st, _) := HostBoot(file, boot);
    var sleepS := StateAfterWake(file, boot).SleepS();
    if st.ReportDue() then Printed(REPORT_FPORT, Base64.Encode(st.Report()), sleepS)
    else Printed(DATA_FPORT, Base64.Encode(ReadingPayload(st.cfg, hal)), sleepS)
  }

  // ------------------------------- One downlink -------------------------------

  datatype Delivered = Delivered(result: Byte, cfg: Config, sleepS: nat) | Refused

  function StateAfterDownlink(file: Option<string>, data: seq<Byte>, fport: Byte): State {
    var st := match LoadState(file)
              case None => Fresh(None)
              case Some(loaded) => loaded;
    AfterDownlink(st, fport, data)
  }

  function DeliveryPrints(file: Option<string>, hex: string, fport: Byte): Delivered {
    match ParsedHex(hex, DOWNLINK_BUFFER)
    case None => Refused
    case Some(data) =>
      var st := StateAfterDownlink(file, data, fport);
      Delivered(st.lastResult, st.cfg, st.SleepS())
  }

  /** What `--downlink` refuses: an odd or too long string, or one that does not scan pair by pair. */
  lemma RefusedIff(file: Option<string>, hex: string, fport: Byte)
    ensures DeliveryPrints(file, hex, fport).Refused? <==>
      !(&& |hex| % 2 == 0
        && |hex| <= 484
        && forall k :: 0 <= k < |hex| / 2 ==> PairScans(hex[2 * k..]))
  {
    ParsedIff(hex, DOWNLINK_BUFFER);
    hide ParsedHex, PairScans;
  }

  /** An empty downlink is a command too, and a malformed one: it is reported with no opcode. */
  lemma EmptyDownlink(file: Option<string>)
    ensures
      var st := StateAfterDownlink(file, [], 10);
      && st.reportPending == 1 && st.lastCmd == 0 && st.lastResult == 3
      && DeliveryPrints(file, "", 10) == Delivered(3, st.cfg, 120)
  {
    hide LoadState;
  }

  /** A buffer that holds a text and its terminator prints as that text. */
  lemma PrintedText(buffer: seq<char>, text: string)
    requires |text| < |buffer| && buffer[..|text|] == text && buffer[|text|] == '\0' && '\0' !in text
    ensures CString(buffer) == text
  {
    CStringStops(text, buffer[|text|..]);
    assert buffer == text + buffer[|text|..];
  }

  /** The state file, and the two commands that work on it. */
  class HostNode {
    var file: Option<string>

    constructor (text: Option<string>)
      ensures file == text
    {
      file := text;
    }

    /** `load_state` into a struct; -1 is false. */
    method Load(st: NodeStruct) returns (ok: bool)
      modifies st, st.cfg
      ensures ok == LoadState(file).Some?
      ensures ok ==> st.Value() == LoadState(file).value
    {
      if file.None? {
        return false;
      }
      var scanned := ScanMany(file.value, 6);
      if scanned.None? {
        return false;
      }
      var v := scanned.value;
      st.Init(Some(Config(v[0] % 0x1_0000, ToI16(v[1] % 0x1_0000), ToI16(v[2] % 0x1_0000))));
      st.reportPending := v[3] % 0x100;
      st.lastCmd := v[4] % 0x100;
      st.lastResult := v[5] % 0x100;
      return true;
    }

    /** `save_state` */
    method Save(st: NodeStruct)
      modifies this
      ensures file == Some(SaveState(st.Value()))
    {
      file := Some(SaveState(st.Value()));
    }

    /** The state a wake process starts with; true if it counts as a cold boot. */
    method Boot(st: NodeStruct, boot: bool) returns (coldBoot: bool)
      modifies st, st.cfg
      ensures (st.Value(), coldBoot) == HostBoot(file, boot)
    {
      var loaded := Load(st);
      coldBoot := !loaded;
      if coldBoot {
        st.Init(None);
      } else if boot {
        st.Init(Some(st.cfg.Value()));
        coldBoot := true;
      }
    }

    /** `base64_encode` into a buffer of 32 characters, printed with `%s`. */
    static method Base64Text(payload: array<Byte>, len: nat) returns (text: string)
      requires len in {REPORT_LEN, PAYLOAD_LEN} && len <= payload.Length
      ensures text == Base64.Encode(payload[..len])
    {
      var b64 := new char[32];
      Base64.Base64Encode(payload, len, b64);
      Base64.NoNul(payload[..len]);
      PrintedText(b64[..], Base64.Encode(payload[..len]));
      text := CString(b64[..]);
    }

    /** `main` with `--state`: one wake. */
    method Wake(boot: bool, hal: Hal) returns (printed: Printed)
      modifies this
      ensures file == Some(SaveState(StateAfterWake(old(file), boot)))
      ensures printed == WakePrints(old(file), boot, hal)
    {
      hide HostBoot, Base64.Encode;
      var st := new NodeStruct();
      var coldBoot := Boot(st, boot);
      var payload := new Byte[PAYLOAD_LEN];
      var len, upPort;
      if st.reportPending != 0 {
        st.EncodeReport(payload);
        st.ReportDone();
        len, upPort := REPORT_LEN, REPORT_FPORT;
      } else {
        var reading := new ReadingStruct();
        var _ := reading.Sample(hal);
        reading.Calibrate(st.cfg);
        reading.Encode(payload);
        assert payload[..PAYLOAD_LEN] == payload[..];
        len, upPort := PAYLOAD_LEN, DATA_FPORT;
        if coldBoot {
          st.RequestReport();
        }
      }
      var b64 := Base64Text(payload, len);
      Save(st);
      printed := Printed(upPort, b64, if st.reportPending != 0 then REPORT_DELAY_S else st.cfg.sampleIntervalS);
    }

    /** `deliver_downlink` */
    method DeliverDownlink(hex: string, fport: Byte) returns (printed: Delivered)
      modifies this
      ensures printed == DeliveryPrints(old(file), hex, fport)
      ensures file ==
        match ParsedHex(hex, DOWNLINK_BUFFER)
        case Some(data) => Some(SaveState(StateAfterDownlink(old(file), data, fport)))
        case None => old(file)
    {
      var st := new NodeStruct();
      var loaded := Load(st);
      if !loaded {
        st.Init(None);
      }
      var buf := new Byte[DOWNLINK_BUFFER];
      var len := ParseHex(hex, buf, DOWNLINK_BUFFER);
      if len < 0 {
        return Refused;
      }
      var _ := st.OnDownlink(fport, buf, len);
      Save(st);
      printed := Delivered(st.lastResult, st.cfg.Value(),
                           if st.reportPending != 0 then REPORT_DELAY_S else st.cfg.sampleIntervalS);
    }
  }
}
