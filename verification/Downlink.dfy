/** Config commands on the node: firmware/core/aq_downlink.{h,c}. */
module Downlink {
  import opened Bytes
  import opened Options

  const DOWNLINK_FPORT: Byte := 10

  const CMD_SET_INTERVAL: Byte := 0x01
  const CMD_SET_PM_OFFSET: Byte := 0x02
  const CMD_SET_TEMP_OFFSET: Byte := 0x03

  const INTERVAL_MIN_S := 120
  const INTERVAL_MAX_S := 21600
  const PM_OFFSET_MAX_X10 := 500
  const TEMP_OFFSET_MAX_X100 := 1000

  datatype Config = Config(sampleIntervalS: U16, pmOffsetX10: I16, tempOffsetX100: I16)

  const DEFAULT_CONFIG := Config(300, 0, 0)

  predicate ConfigValid(c: Config) {
    && INTERVAL_MIN_S <= c.sampleIntervalS <= INTERVAL_MAX_S
    && -PM_OFFSET_MAX_X10 <= c.pmOffsetX10 <= PM_OFFSET_MAX_X10
    && -TEMP_OFFSET_MAX_X100 <= c.tempOffsetX100 <= TEMP_OFFSET_MAX_X100
  }

  datatype Verdict = Applied | OutOfRange | Malformed

  /** The config that a command asks for, or None when the bytes are no command. */
  function Requested(buf: seq<Byte>, cfg: Config): Option<Config> {
    if |buf| < 3 then None
    else if buf[0] == CMD_SET_INTERVAL then Some(cfg.(sampleIntervalS := ReadLe16(buf, 1)))
    else if buf[0] == CMD_SET_PM_OFFSET then Some(cfg.(pmOffsetX10 := ToI16(ReadLe16(buf, 1))))
    else if buf[0] == CMD_SET_TEMP_OFFSET then Some(cfg.(tempOffsetX100 := ToI16(ReadLe16(buf, 1))))
    else None
  }

  function Judge(buf: seq<Byte>, cfg: Config): Verdict {
    match Requested(buf, cfg)
    case None => Malformed
    case Some(next) => if ConfigValid(next) then Applied else OutOfRange
  }

  /** The config in force after a command: the requested one, or the old one untouched. */
  function ConfigAfter(buf: seq<Byte>, cfg: Config): (next: Config)
    ensures ConfigValid(cfg) ==> ConfigValid(next)
    ensures Judge(buf, cfg) != Applied ==> next == cfg
  {
    if Judge(buf, cfg) == Applied then Requested(buf, cfg).value else cfg
  }

  /** The bytes a (pointer, length) pair denotes; a null pointer denotes none. */
  function Given(buf: array?<Byte>, len: nat): seq<Byte>
    requires buf != null ==> len <= buf.Length
    reads buf
  {
    if buf == null then [] else buf[..len]
  }

  /** `aq_config_t`, updated in place. */
  class ConfigStruct {
    var sampleIntervalS: U16
    var pmOffsetX10: I16
    var tempOffsetX100: I16

    constructor (c: Config)
      ensures Value() == c
    {
      sampleIntervalS, pmOffsetX10, tempOffsetX100 := c.sampleIntervalS, c.pmOffsetX10, c.tempOffsetX100;
    }

    function Value(): Config
      reads this
    {
      Config(sampleIntervalS, pmOffsetX10, tempOffsetX100)
    }

    /** Struct assignment. */
    method Assign(c: Config)
      modifies this
      ensures Value() == c
    {
      sampleIntervalS, pmOffsetX10, tempOffsetX100 := c.sampleIntervalS, c.pmOffsetX10, c.tempOffsetX100;
    }

    /** `aq_config_init` */
    method Init()
      modifies this
      ensures Value() == DEFAULT_CONFIG
    {
      sampleIntervalS := 300;
      pmOffsetX10 := 0;
      tempOffsetX100 := 0;
    }

    /** `aq_downlink_apply`: change a copy, check it, commit it. */
    method Apply(buf: array?<Byte>, len: nat) returns (rc: Verdict)
      requires buf != null ==> len <= buf.Length
      modifies this
      ensures rc == Judge(old(Given(buf, len)), old(Value()))
      ensures Value() == ConfigAfter(old(Given(buf, len)), old(Value()))
    {
      if buf == null || len < 3 {
        return Malformed;
      }
      var next := Value();
      var arg := buf[1] as int + 0x100 * buf[2] as int;
      if buf[0] == CMD_SET_INTERVAL {
        next := next.(sampleIntervalS := arg);
      } else if buf[0] == CMD_SET_PM_OFFSET {
        next := next.(pmOffsetX10 := ToI16(arg));
      } else if buf[0] == CMD_SET_TEMP_OFFSET {
        next := next.(tempOffsetX100 := ToI16(arg));
      } else {
        return Malformed;
      }
      if !ConfigValid(next) {
        return OutOfRange;
      }
      Assign(next);
      return Applied;
    }
  }
}
