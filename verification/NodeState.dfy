/**
 * Remote configuration on the node: firmware/core/aq_config.{h,c}, except the
 * calibration of a reading, which is in Payload.dfy.
 */
module NodeState {
  import opened Bytes
  import opened Options
  import opened Downlink

  const REPORT_FPORT: Byte := 11
  const REPORT_LEN := 9
  const REPORT_VERSION: Byte := 1
  const REPORT_DELAY_S := 120

  const RESULT_NONE: Byte := 0
  const RESULT_APPLIED: Byte := 1
  const RESULT_OUT_OF_RANGE: Byte := 2
  const RESULT_MALFORMED: Byte := 3

  datatype State = State(cfg: Config, reportPending: Byte, lastCmd: Byte, lastResult: Byte) {
    /** What every state of a running node satisfies. */
    predicate Valid() {
      ConfigValid(cfg) && lastResult <= RESULT_MALFORMED
    }

    predicate ReportDue() {
      reportPending != 0
    }

    function SleepS(): nat {
      if ReportDue() then REPORT_DELAY_S else cfg.sampleIntervalS
    }

    /** The config report for this state. */
    function Report(): (b: seq<Byte>)
      ensures |b| == REPORT_LEN
    {
      [REPORT_VERSION, lastResult, lastCmd] +
      ThreeWords(cfg.sampleIntervalS, ToU16(cfg.pmOffsetX10), ToU16(cfg.tempOffsetX100))
    }
  }

  /** A node that starts from a stored config, or from the defaults. */
  function Fresh(stored: Option<Config>): (st: State)
    ensures st.Valid()
  {
    var cfg := if stored.Some? && ConfigValid(stored.value) then stored.value else DEFAULT_CONFIG;
    State(cfg, 0, 0, RESULT_NONE)
  }

  function ResultCode(v: Verdict): Byte {
    match v
    case Applied => RESULT_APPLIED
    case OutOfRange => RESULT_OUT_OF_RANGE
    case Malformed => RESULT_MALFORMED
  }

  /** The state after a downlink; only the config port is listened to. */
  function AfterDownlink(st: State, fport: Byte, buf: seq<Byte>): (next: State)
    ensures st.Valid() ==> next.Valid()
    ensures fport != DOWNLINK_FPORT ==> next == st
  {
    if fport != DOWNLINK_FPORT then st
    else State(ConfigAfter(buf, st.cfg), 1, if buf == [] then 0 else buf[0], ResultCode(Judge(buf, st.cfg)))
  }

  /** `aq_node_state_t`, updated in place; the config struct is embedded in it. */
  class NodeStruct {
    const cfg: ConfigStruct
    var reportPending: Byte
    var lastCmd: Byte
    var lastResult: Byte

    constructor ()
      ensures fresh(cfg)
    {
      cfg := new ConfigStruct(DEFAULT_CONFIG);
      reportPending, lastCmd, lastResult := 0, 0, 0;
    }

    function Value(): State
      reads this, cfg
    {
      State(cfg.Value(), reportPending, lastCmd, lastResult)
    }

    /** `aq_state_init`; None is the null pointer. */
    method Init(stored: Option<Config>)
      modifies this, cfg
      ensures Value() == Fresh(stored)
    {
      if stored.Some? && ConfigValid(stored.value) {
        cfg.Assign(stored.value);
      } else {
        cfg.Init();
      }
      reportPending := 0;
      lastCmd := 0;
      lastResult := RESULT_NONE;
    }

    /** `aq_state_on_downlink` */
    method OnDownlink(fport: Byte, buf: array?<Byte>, len: nat) returns (changed: bool)
      requires buf != null ==> len <= buf.Length
      modifies this, cfg
      ensures Value() == AfterDownlink(old(Value()), fport, old(Given(buf, len)))
      ensures changed == (Value().cfg != old(Value().cfg))
    {
      if fport != DOWNLINK_FPORT {
        return false;
      }
      var before := cfg.Value();
      var rc := cfg.Apply(buf, len);
      lastCmd := if buf != null && len > 0 then buf[0] else 0;
      lastResult :=
        if rc == Applied then RESULT_APPLIED
        else if rc == OutOfRange then RESULT_OUT_OF_RANGE
        else RESULT_MALFORMED;
      reportPending := 1;
      return before.sampleIntervalS != cfg.sampleIntervalS ||
             before.pmOffsetX10 != cfg.pmOffsetX10 ||
             before.tempOffsetX100 != cfg.tempOffsetX100;
    }

    /** `aq_state_request_report` */
    method RequestReport()
      modifies this`reportPending
      ensures Value() == old(Value()).(reportPending := 1)
    {
      reportPending := 1;
    }

    /** `aq_state_report_done` */
    method ReportDone()
      modifies this`reportPending
      ensures Value() == old(Value()).(reportPending := 0)
    {
      reportPending := 0;
    }

    /** `aq_config_report_encode` */
    method EncodeReport(out: array<Byte>)
      requires out.Length >= REPORT_LEN
      modifies out
      ensures out[..REPORT_LEN] == Value().Report()
    {
      out[0] := REPORT_VERSION;
      out[1] := lastResult;
      out[2] := lastCmd;
      PutU16(out, 3, cfg.sampleIntervalS);
      PutU16(out, 5, ToU16(cfg.pmOffsetX10));
      PutU16(out, 7, ToU16(cfg.tempOffsetX100));
    }
  }
}
