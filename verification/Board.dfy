/**
 * One wake of the node: `app_main` and its helpers in firmware/src/main.cpp, with
 * the receive buffer of firmware/adapters/esp32/lora_esp32.cpp.
 */
module Board {
  import opened Bytes
  import opened Options
  import opened Downlink
  import opened NodeState
  import opened Payload
  import opened ConfigStore

  const DOWNLINK_MAX := 242

  datatype Frame = Frame(fport: Byte, data: seq<Byte>)
  datatype Uplink = Uplink(fport: Byte, payload: seq<Byte>)

  /** How the radio call ends: not sent, or sent and a frame heard in RX1/RX2 or not. */
  datatype Radio = SendFailed | Sent(down: Option<Frame>)

  /** Everything one wake does not decide itself. */
  datatype WakeEnv = WakeEnv(load: LoadEnv, hal: Hal, radio: Radio, save: SaveEnv)

  /** What outlives a wake: RTC RAM (None once power was cut) and NVS. */
  datatype Memory = Memory(ram: Option<State>, blob: Blob)

  datatype Access = LoadAccess(ok: bool) | SaveAccess(ok: bool)

  /** What the receive buffer holds after the call: no empty frame, at most 242 bytes. */
  function Heard(radio: Radio): Option<Frame> {
    if radio.SendFailed? || radio.down.None? || radio.down.value.data == [] then None
    else
      var d := radio.down.value;
      Some(d.(data := if |d.data| > DOWNLINK_MAX then d.data[..DOWNLINK_MAX] else d.data))
  }

  datatype Booted = Booted(st: State, blob: Blob, cold: bool)

  function Boot(mem: Memory, load: LoadEnv): Booted {
    match mem.ram
    case Some(st) => Booted(st, mem.blob, false)
    case None => Booted(Fresh(Loaded(mem.blob, load)), load.mount.Leaves(mem.blob), true)
  }

  /** The uplink a wake builds: the pending report, or else a reading. */
  function Built(st: State, hal: Hal): Uplink {
    if st.ReportDue() then Uplink(REPORT_FPORT, st.Report())
    else Uplink(DATA_FPORT, ReadingPayload(st.cfg, hal))
  }

  /** The report bookkeeping before any downlink is looked at. */
  function Listening(b: Booted): State {
    b.st.(reportPending := if !b.st.ReportDue() && b.cold then 1 else 0)
  }

  function Received(st: State, down: Option<Frame>): State {
    if down.None? then st else AfterDownlink(st, down.value.fport, down.value.data)
  }

  /** A wake writes flash exactly when the downlink changed the config. */
  predicate Saves(mem: Memory, env: WakeEnv) {
    var st := Listening(Boot(mem, env.load));
    Received(st, Heard(env.radio)).cfg != st.cfg
  }

  function MemoryAfter(mem: Memory, env: WakeEnv): Memory {
    var b := Boot(mem, env.load);
    var st := Received(Listening(b), Heard(env.radio));
    Memory(Some(st), if Saves(mem, env) then BlobAfterSave(b.blob, st.cfg, env.save) else b.blob)
  }

  function UplinkOf(mem: Memory, env: WakeEnv): Uplink {
    Built(Boot(mem, env.load).st, env.hal)
  }

  function SleepAfter(mem: Memory, env: WakeEnv): nat {
    MemoryAfter(mem, env).ram.value.SleepS()
  }

  /** The flash accesses of a wake, in order. */
  function Accesses(mem: Memory, env: WakeEnv): seq<Access> {
    (if mem.ram.None? then [LoadAccess(LoadOk(env.load))] else []) +
    (if Saves(mem, env) then [SaveAccess(SaveOk(env.save))] else [])
  }

  /** `aq_lorawan_downlink_t`: a static buffer, reused by every wake. */
  class DownlinkBuffer {
    var received: bool
    var fport: Byte
    const data: array<Byte>
    var len: nat

    constructor ()
      ensures Valid() && fresh(data)
    {
      data := new Byte[DOWNLINK_MAX];
      received, fport, len := false, 0, 0;
    }

    predicate Valid()
      reads this
    {
      data.Length == DOWNLINK_MAX && len <= DOWNLINK_MAX
    }

    function Contents(): Option<Frame>
      requires Valid()
      reads this, data
    {
      if received then Some(Frame(fport, data[..len])) else None
    }

    /** `lorawan_send`, as far as the buffer goes: nothing of an earlier wake stays. */
    method LorawanSend(radio: Radio)
      requires Valid()
      modifies this, data
      ensures Valid() && Contents() == Heard(radio)
    {
      received := false;
      len := 0;
      if radio.SendFailed? {
        return;
      }
      if radio.down.Some? && |radio.down.value.data| > 0 {
        var rx := radio.down.value.data;
        var rxLen := |rx|;
        if rxLen > DOWNLINK_MAX {
          rxLen := DOWNLINK_MAX;
        }
        forall i | 0 <= i < rxLen {
          data[i] := rx[i];
        }
        len := rxLen;
        fport := radio.down.value.fport;
        received := true;
        assert data[..len] == if |rx| > DOWNLINK_MAX then rx[..DOWNLINK_MAX] else rx;
      }
    }
  }

  class Board {
    const state: NodeStruct
    var haveState: bool
    const flash: FlashCell
    const down: DownlinkBuffer

    constructor (blob: Blob)
      ensures Valid() && fresh(state) && fresh(state.cfg) && fresh(flash) && fresh(down) && fresh(down.data)
      ensures Value() == Memory(None, blob)
    {
      state := new NodeStruct();
      flash := new FlashCell(blob);
      down := new DownlinkBuffer();
      haveState := false;
    }

    predicate Valid()
      reads this, down
    {
      down.Valid()
    }

    function Value(): Memory
      reads this, state, state.cfg, flash
    {
      Memory(if haveState then Some(state.Value()) else None, flash.blob)
    }

    /** Power goes: RTC RAM is re-initialised on the next boot. */
    method PowerCut()
      requires Valid()
      modifies this`haveState
      ensures Valid() && Value() == Memory(None, old(Value()).blob)
    {
      haveState := false;
    }

    /** `send_reading` */
    method SendReading(hal: Hal, radio: Radio) returns (up: Uplink)
      requires Valid()
      modifies down, down.data
      ensures Valid() && down.Contents() == Heard(radio)
      ensures up == Uplink(DATA_FPORT, ReadingPayload(state.cfg.Value(), hal))
    {
      var reading := new ReadingStruct();
      var _ := reading.Sample(hal);
      reading.Calibrate(state.cfg);
      var payload := new Byte[PAYLOAD_LEN];
      reading.Encode(payload);
      down.LorawanSend(radio);
      up := Uplink(DATA_FPORT, payload[..]);
    }

    /** `send_report` */
    method SendReport(radio: Radio) returns (up: Uplink)
      requires Valid()
      modifies state`reportPending, down, down.data
      ensures Valid() && down.Contents() == Heard(radio)
      ensures up == Uplink(REPORT_FPORT, old(state.Value()).Report())
      ensures state.Value() == old(state.Value()).(reportPending := 0)
    {
      var report := new Byte[REPORT_LEN];
      state.EncodeReport(report);
      assert report[..] == report[..REPORT_LEN];
      state.ReportDone();
      down.LorawanSend(radio);
      up := Uplink(REPORT_FPORT, report[..]);
    }

    /** `handle_downlink` */
    method HandleDownlink(save: SaveEnv)
      requires Valid()
      modifies state, state.cfg, flash
      ensures Valid() && state.Value() == Received(old(state.Value()), old(down.Contents()))
      ensures flash.blob ==
        if state.cfg.Value() != old(state.cfg.Value()) then BlobAfterSave(old(flash.blob), state.cfg.Value(), save)
        else old(flash.blob)
    {
      if !down.received {
        return;
      }
      var changed := state.OnDownlink(down.fport, down.data, down.len);
      if down.fport != DOWNLINK_FPORT {
        return;
      }
      if changed {
        var _ := flash.Save(state.cfg.Value(), save);
      }
    }

    /** `app_main`, up to the start of deep sleep. */
    method Wake(env: WakeEnv) returns (up: Uplink, sleepS: nat)
      requires Valid()
      modifies this`haveState, state, state.cfg, flash, down, down.data
      ensures Valid()
      ensures Value() == MemoryAfter(old(Value()), env)
      ensures up == UplinkOf(old(Value()), env)
      ensures sleepS == SleepAfter(old(Value()), env)
    {
      var coldBoot := !haveState;
      if coldBoot {
        var stored := flash.Load(env.load);
        state.Init(stored);
        haveState := true;
      }
      assert Boot(old(Value()), env.load) == Booted(state.Value(), flash.blob, coldBoot);
      if state.reportPending != 0 {
        up := SendReport(env.radio);
      } else {
        up := SendReading(env.hal, env.radio);
        if coldBoot {
          state.RequestReport();
        }
      }
      assert state.Value() == Listening(Boot(old(Value()), env.load));
      HandleDownlink(env.save);
      sleepS := if state.reportPending != 0 then REPORT_DELAY_S else state.cfg.sampleIntervalS;
    }
  }
}
