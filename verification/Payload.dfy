/**
 * A reading on its way to the radio: sampling (firmware/core/aq_node.c),
 * calibration (aq_config.c) and the 13-byte payload (aq_payload.{h,c}).
 * Floats are exact reals.
 */
module Payload {
  import opened Bytes
  import opened Options
  import opened Downlink

  const DATA_FPORT: Byte := 2
  const PAYLOAD_LEN := 13
  const PAYLOAD_VERSION: Byte := 1
  const PRESENT_PM: Byte := 0x10
  const PRESENT_ENV: Byte := 0x20

  /** What the sensor drivers answer on one wake; None is a failed read. */
  datatype Hal = Hal(pm: Option<(real, real)>, env: Option<(real, real, real)>, batteryMv: U16)

  datatype Reading = Reading(
    pm25: real, pm10: real, temperature: real, humidity: real, pressure: real,
    batteryMv: U16, present: Byte)

  /** The bit tests `present & AQ_PRESENT_PM` and `present & AQ_PRESENT_ENV`. */
  predicate HasPm(flags: Byte) {
    flags / 0x10 % 2 == 1
  }

  predicate HasEnv(flags: Byte) {
    flags / 0x20 % 2 == 1
  }

  function Sampled(hal: Hal): Reading {
    var (pm25, pm10) := hal.pm.GetOr((0.0, 0.0));
    var (t, h, p) := hal.env.GetOr((0.0, 0.0, 0.0));
    Reading(pm25, pm10, t, h, p, hal.batteryMv,
            (if hal.pm.Some? then PRESENT_PM else 0) + (if hal.env.Some? then PRESENT_ENV else 0))
  }

  function Calibrated(cfg: Config, r: Reading): Reading {
    var pm25 := r.pm25 + cfg.pmOffsetX10 as real / 10.0;
    r.(pm25 := if !HasPm(r.present) then r.pm25 else if pm25 < 0.0 then 0.0 else pm25,
       temperature := if HasEnv(r.present) then r.temperature + cfg.tempOffsetX100 as real / 100.0 else r.temperature)
  }

  /** `lroundf`: to the nearest integer, halves away from zero. */
  function Lround(v: real): int {
    if v >= 0.0 then (v + 0.5).Floor else -((-v + 0.5).Floor)
  }

  function ClampU16(v: real): U16 {
    if v < 0.0 then 0 else if v > 65535.0 then 65535 else Lround(v)
  }

  function ClampI16(v: real): I16 {
    if v < -32768.0 then -32768 else if v > 32767.0 then 32767 else Lround(v)
  }

  /** The firmware's payload for a reading. */
  function Encoded(r: Reading): (b: seq<Byte>)
    ensures |b| == PAYLOAD_LEN
  {
    SixWords(ClampU16(r.pm25 * 10.0), ClampU16(r.pm10 * 10.0), ToU16(ClampI16(r.temperature * 100.0)),
             ClampU16(r.humidity * 100.0), ClampU16(r.pressure), r.batteryMv,
             PAYLOAD_VERSION + r.present / 0x10 * 0x10)
  }

  /** The payload of a reading wake: sampled, calibrated, encoded. */
  function ReadingPayload(cfg: Config, hal: Hal): (b: seq<Byte>)
    ensures |b| == PAYLOAD_LEN
  {
    Encoded(Calibrated(cfg, Sampled(hal)))
  }

  /** `aq_reading_t`, filled and corrected in place. */
  class ReadingStruct {
    var pm25: real
    var pm10: real
    var temperature: real
    var humidity: real
    var pressure: real
    var batteryMv: U16
    var present: Byte

    constructor ()
    {
    }

    function Value(): Reading
      reads this
    {
      Reading(pm25, pm10, temperature, humidity, pressure, batteryMv, present)
    }

    /** `aq_sample`: a failed sensor does not silence the others. */
    method Sample(hal: Hal) returns (ok: bool)
      modifies this
      ensures Value() == Sampled(hal)
      ensures ok == (hal.pm.Some? || hal.env.Some?)
    {
      present := 0;
      if hal.pm.Some? {
        pm25, pm10 := hal.pm.value.0, hal.pm.value.1;
        present := present + PRESENT_PM;
      } else {
        pm25 := 0.0;
        pm10 := 0.0;
      }
      if hal.env.Some? {
        temperature, humidity, pressure := hal.env.value.0, hal.env.value.1, hal.env.value.2;
        present := present + PRESENT_ENV;
      } else {
        temperature := 0.0;
        humidity := 0.0;
        pressure := 0.0;
      }
      batteryMv := hal.batteryMv;
      return present != 0;
    }

    /** `aq_config_calibrate` */
    method Calibrate(cfg: ConfigStruct)
      modifies this
      ensures Value() == Calibrated(cfg.Value(), old(Value()))
    {
      if HasPm(present) {
        pm25 := pm25 + cfg.pmOffsetX10 as real / 10.0;
        if pm25 < 0.0 {
          pm25 := 0.0;
        }
      }
      if HasEnv(present) {
        temperature := temperature + cfg.tempOffsetX100 as real / 100.0;
      }
    }

    /** `aq_payload_encode` */
    method Encode(out: array<Byte>)
      requires out.Length == PAYLOAD_LEN
      modifies out
      ensures out[..] == Encoded(Value())
    {
      PutU16(out, 0, ClampU16(pm25 * 10.0));
      PutU16(out, 2, ClampU16(pm10 * 10.0));
      PutU16(out, 4, ToU16(ClampI16(temperature * 100.0)));
      PutU16(out, 6, ClampU16(humidity * 100.0));
      PutU16(out, 8, ClampU16(pressure));
      PutU16(out, 10, batteryMv);
      out[12] := PAYLOAD_VERSION + present / 0x10 * 0x10;
    }
  }
}
