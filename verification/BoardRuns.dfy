/**
 * What every run of the node keeps: any number of wakes, with any downlinks, radio
 * and flash failures, and power cuts between wakes or in the middle of one.
 */
module BoardRuns {
  import opened Bytes
  import opened Options
  import opened Downlink
  import opened NodeState
  import opened ConfigStore
  import opened Board
  import opened CodecAgreement
  import T = TelemetryCodec

  /** Where power goes during a wake; a cut save leaves any of the three records. */
  datatype Cut = BeforeSend | AfterSend | InSave(left: Left)

  datatype Event = Wake(env: WakeEnv) | CutWake(env: WakeEnv, cut: Cut) | PowerCut

  /**
   * The node's memory, and the history the claims are about: the flash accesses and
   * the sleeps since the last cold boot, and the states reports were ever built from.
   */
  datatype Run = Run(mem: Memory, log: seq<Access>, sleeps: seq<nat>, reports: seq<State>)

  function BlobAfterCut(mem: Memory, env: WakeEnv, cut: Cut): Blob {
    match cut
    case InSave(left) => MemoryAfter(mem, env.(save := env.save.(write := Refused(left)))).blob
    case _ => Boot(mem, env.load).blob
  }

  function ReportsOf(mem: Memory, env: WakeEnv): seq<State> {
    var st := Boot(mem, env.load).st;
    if st.ReportDue() then [st] else []
  }

  function Step(run: Run, e: Event): Run {
    match e
    case PowerCut => run.(mem := Memory(None, run.mem.blob))
    case CutWake(env, cut) =>
      run.(mem := Memory(None, BlobAfterCut(run.mem, env, cut)),
           reports := run.reports + if cut.BeforeSend? then [] else ReportsOf(run.mem, env))
    case Wake(env) =>
      var cold := run.mem.ram.None?;
      Run(MemoryAfter(run.mem, env),
          (if cold then [] else run.log) + Accesses(run.mem, env),
          (if cold then [] else run.sleeps) + [SleepAfter(run.mem, env)],
          run.reports + ReportsOf(run.mem, env))
  }

  /** The run of a board first powered on with `blob` in its flash, whatever that is. */
  function After(blob: Blob, events: seq<Event>): Run {
    if events == [] then Run(Memory(None, blob), [], [], [])
    else Step(After(blob, events[..|events| - 1]), events[|events| - 1])
  }

  // ------------------------------- Invariants -------------------------------

  predicate AllSleepsInRange(sleeps: seq<nat>) {
    forall i :: 0 <= i < |sleeps| ==> INTERVAL_MIN_S <= sleeps[i] <= INTERVAL_MAX_S
  }

  predicate Inv(run: Run) {
    && AllSleepsInRange(run.sleeps)
    && (forall i :: 0 <= i < |run.reports| ==> run.reports[i].Valid())
    && (run.mem.ram.Some? ==>
          var st := run.mem.ram.value;
          && st.Valid()
          && run.log != []
          && run.sleeps != []
          && run.sleeps[|run.sleeps| - 1] == st.SleepS()
          && (run.log[|run.log| - 1].ok ==> Restored(run.mem.blob) == st.cfg)
          && (!st.ReportDue() ==> run.reports != [] && run.reports[|run.reports| - 1].Report() == st.Report()))
  }

  lemma BootIsValid(mem: Memory, load: LoadEnv)
    requires mem.ram.Some? ==> mem.ram.value.Valid()
    ensures Boot(mem, load).st.Valid()
    ensures mem.ram.None? && LoadOk(load) ==> Restored(Boot(mem, load).blob) == Boot(mem, load).st.cfg
  {
  }

  lemma WakeKeepsInv(run: Run, env: WakeEnv)
    requires Inv(run)
    ensures Inv(Step(run, Wake(env)))
  {
    var next := Step(run, Wake(env));
    BootIsValid(run.mem, env.load);
    RestoreUndoesRecord(next.mem.ram.value.cfg);
    if !Saves(run.mem, env) && run.mem.ram.Some? {
      assert next.log == run.log;
    }
  }

  lemma {:induction false} EveryRunKeepsInv(blob: Blob, events: seq<Event>)
    ensures Inv(After(blob, events))
  {
    if events != [] {
      var n := |events| - 1;
      EveryRunKeepsInv(blob, events[..n]);
      var run := After(blob, events[..n]);
      match events[n]
      case Wake(env) => WakeKeepsInv(run, env);
      case CutWake(env, _) => BootIsValid(run.mem, env.load);
      case PowerCut =>
    }
  }

  /** A running node always holds a config within the accepted ranges. */
  lemma {:induction false} ConfigAlwaysValid(blob: Blob, events: seq<Event>)
    ensures After(blob, events).mem.ram.Some? ==> After(blob, events).mem.ram.value.Valid()
  {
    EveryRunKeepsInv(blob, events);
  }

  /** A node asleep with no report pending has told its server what it runs. */
  lemma {:induction false} LastReportIsCurrent(blob: Blob, events: seq<Event>)
    requires After(blob, events).mem.ram.Some? && !After(blob, events).mem.ram.value.ReportDue()
    ensures
      var run := After(blob, events);
      run.reports != [] && run.reports[|run.reports| - 1].Report() == run.mem.ram.value.Report()
  {
    EveryRunKeepsInv(blob, events);
  }

  // ------------------------------- Durability -------------------------------

  /** If the last flash access since the cold boot worked, flash holds the config in force. */
  lemma {:induction false} Durability(blob: Blob, events: seq<Event>)
    requires After(blob, events).mem.ram.Some?
    ensures
      var run := After(blob, events);
      run.log != [] && (run.log[|run.log| - 1].ok ==> Restored(run.mem.blob) == run.mem.ram.value.cfg)
  {
    EveryRunKeepsInv(blob, events);
  }

  /** So a power cut, and a cold boot that can mount and read the store, change no setting. */
  lemma {:induction false} PowerCutChangesNoSetting(blob: Blob, events: seq<Event>, env: WakeEnv)
    requires After(blob, events).mem.ram.Some?
    requires After(blob, events).log != [] ==> After(blob, events).log[|After(blob, events).log| - 1].ok
    requires env.load == LoadEnv(Mounted, true) && Heard(env.radio).None?
    ensures
      var run := After(blob, events);
      var again := Step(Step(run, PowerCut), Wake(env));
      again.mem.ram.value.cfg == run.mem.ram.value.cfg && again.mem.blob == run.mem.blob
  {
    EveryRunKeepsInv(blob, events);
  }

  /**
   * A power cut in the middle of a save, on a store that mounts without being erased,
   * leaves the record from before, the whole new one or none, and RAM in any case is
   * gone; a cut at any other moment of the wake leaves flash as the boot did.
   */
  lemma CutWakeLeaves(run: Run, env: WakeEnv, cut: Cut)
    ensures
      var (b, mem') := (Boot(run.mem, env.load), Step(run, CutWake(env, cut)).mem);
      && mem'.ram == None
      && (!cut.InSave? || !Saves(run.mem, env) ==> mem'.blob == b.blob)
      && (cut.InSave? && Saves(run.mem, env) && env.save.mount == Mounted ==>
            mem'.blob ==
              if cut.left == OldRecord then b.blob
              else if cut.left == NewRecord then Some(Record(MemoryAfter(run.mem, env).ram.value.cfg))
              else None)
  {
    hide Record, Heard, Loaded;
  }

  /** A wake that hears no command, a rejected one, or one for the very config in force. */
  predicate Redundant(cfg: Config, env: WakeEnv) {
    var d := Heard(env.radio);
    d.Some? && d.value.fport == DOWNLINK_FPORT ==>
      Judge(d.value.data, cfg) != Applied || Requested(d.value.data, cfg) == Some(cfg)
  }

  function Wakes(mem: Memory, envs: seq<WakeEnv>): Memory
    decreases |envs|
  {
    if envs == [] then mem else Wakes(MemoryAfter(mem, envs[0]), envs[1..])
  }

  /**
   * The converse does not repair itself: while a node stays powered, no number of
   * repetitions of the command in force writes to flash, so a setting whose save
   * failed stays unsaved and a power cut reverts it.
   */
  lemma {:induction false} RepeatingACommandNeverSavesIt(mem: Memory, envs: seq<WakeEnv>)
    requires mem.ram.Some?
    requires forall i :: 0 <= i < |envs| ==> Redundant(mem.ram.value.cfg, envs[i])
    ensures
      var later := Wakes(mem, envs);
      later.ram.Some? && later.ram.value.cfg == mem.ram.value.cfg && later.blob == mem.blob
    decreases |envs|
  {
    if envs != [] {
      assert Redundant(mem.ram.value.cfg, envs[0]);
      var next := MemoryAfter(mem, envs[0]);
      RepeatingACommandNeverSavesIt(next, envs[1..]);
    }
  }

  /** What a save that left an older record, or nothing, leaves for a cold boot to find. */
  function LeftFor(blob: Blob, save: SaveEnv): Config {
    var mounted := save.mount.Leaves(blob);
    Restored(if save.mount.Ok() && save.write == Refused(NoRecord) then None else mounted)
  }

  /** After it a cold boot would find `cfg`, the config it was to save over `blob`. */
  predicate SaveKeeps(blob: Blob, cfg: Config, save: SaveEnv) {
    || SaveOk(save)
    || (save.mount.Ok() && save.write == Refused(NewRecord))
    || LeftFor(blob, save) == cfg
  }

  /**
   * When the config in force would survive a power cut at the end of a wake, for every
   * memory it starts with, in step or not. If it saves: exactly if the save worked, or
   * failed after leaving the new record, or what it left in its place means that config.
   * If it does not save: exactly if what the boot left in flash means it.
   */
  lemma SettingSurvivesIff(mem: Memory, env: WakeEnv)
    requires mem.ram.Some? ==> mem.ram.value.Valid()
    ensures
      var (b, mem') := (Boot(mem, env.load), MemoryAfter(mem, env));
      Restored(mem'.blob) == mem'.ram.value.cfg <==>
        if Saves(mem, env) then SaveKeeps(b.blob, mem'.ram.value.cfg, env.save) else Restored(b.blob) == b.st.cfg
  {
    BootIsValid(mem, env.load);
    RestoreUndoesRecord(MemoryAfter(mem, env).ram.value.cfg);
    hide Record, Restored, Heard;
  }

  /**
   * A cold boot without a command leaves them in step if and only if it could read the
   * store, or the store was erased, or holds the defaults anyway.
   */
  lemma ColdBootInStepIff(blob: Blob, env: WakeEnv)
    requires Heard(env.radio).None?
    ensures
      var mem := MemoryAfter(Memory(None, blob), env);
      Restored(mem.blob) == mem.ram.value.cfg <==>
        LoadOk(env.load) || env.load.mount.Leaves(blob).None? || Restored(blob) == DEFAULT_CONFIG
  {
  }

  /**
   * So a boot that fails to read runs on defaults over a good record, with no failed
   * save to show for it, and the next power cut brings the old setting back.
   */
  lemma FailedReadComesBack(env: WakeEnv, env': WakeEnv, mount: Mount)
    requires Heard(env.radio).None? && Heard(env'.radio).None?
    requires mount in {Mounted, Failed} && env.load == LoadEnv(mount, false) && env'.load == LoadEnv(Mounted, true)
    ensures
      var blob := Some(Record(Config(600, 0, 0)));
      var run := After(blob, [Wake(env)]);
      var again := Step(Step(run, PowerCut), Wake(env'));
      && run.mem.ram.value.cfg.sampleIntervalS == 300
      && again.mem.ram.value.cfg.sampleIntervalS == 600
  {
    var blob := Some(Record(Config(600, 0, 0)));
    assert [Wake(env)][..0] == [];
    assert After(blob, [Wake(env)]) == Step(After(blob, []), Wake(env));
    RestoreUndoesRecord(Config(600, 0, 0));
  }

  /** An interval of 600 s whose save fails is lost at the next power cut. */
  lemma FailedSaveLosesTheSetting(hal: Payload.Hal)
    ensures
      var command := Frame(DOWNLINK_FPORT, [CMD_SET_INTERVAL, 88, 2]);
      var failing := SaveEnv(Mounted, Refused(OldRecord));
      var env := WakeEnv(LoadEnv(Mounted, true), hal, Sent(Some(command)), failing);
      var run := After(None, [Wake(env)]);
      run.mem.ram.value.cfg.sampleIntervalS == 600 && Restored(run.mem.blob).sampleIntervalS == 300
  {
    var command := Frame(DOWNLINK_FPORT, [CMD_SET_INTERVAL, 88, 2]);
    var failing := SaveEnv(Mounted, Refused(OldRecord));
    var env := WakeEnv(LoadEnv(Mounted, true), hal, Sent(Some(command)), failing);
    assert [Wake(env)][..0] == [];
    assert After(None, [Wake(env)]) == Step(After(None, []), Wake(env));
    assert ReadLe16(command.data, 1) == 600;
  }

  // ------------------------------- Rate bound -------------------------------

  /** EU868 airtime of one uplink at SF12, and the share of time it may take. */
  const AIRTIME_MS := 1200
  const DUTY_PERCENT := 1

  function Total(sleeps: seq<nat>): nat {
    if sleeps == [] then 0 else Total(sleeps[..|sleeps| - 1]) + sleeps[|sleeps| - 1]
  }

  lemma {:induction false} TotalBounds(sleeps: seq<nat>)
    requires AllSleepsInRange(sleeps)
    ensures INTERVAL_MIN_S * |sleeps| <= Total(sleeps) <= INTERVAL_MAX_S * |sleeps|
  {
    if sleeps != [] {
      TotalBounds(sleeps[..|sleeps| - 1]);
    }
  }

  /**
   * Between power cuts every wake is followed by one sleep, so `to - from` uplinks
   * in a row are spread over the sleeps from..to: never faster than one in 120 s, at
   * least one in six hours, and within the duty cycle.
   */
  lemma {:induction false} RateBound(blob: Blob, events: seq<Event>, from: nat, to: nat)
    requires from <= to <= |After(blob, events).sleeps|
    ensures
      var slept := Total(After(blob, events).sleeps[from..to]);
      && INTERVAL_MIN_S * (to - from) <= slept <= INTERVAL_MAX_S * (to - from)
      && 100 * AIRTIME_MS * (to - from) <= DUTY_PERCENT * 1000 * slept
  {
    EveryRunKeepsInv(blob, events);
    TotalBounds(After(blob, events).sleeps[from..to]);
  }

  function WakesAfter(run: Run, envs: seq<WakeEnv>): Run
    decreases |envs|
  {
    if envs == [] then run else WakesAfter(Step(run, Wake(envs[0])), envs[1..])
  }

  /** k wakes without power loss add k sleeps to those before: none is skipped or counted twice. */
  lemma {:induction false} OneSleepPerWake(run: Run, envs: seq<WakeEnv>)
    requires run.mem.ram.Some?
    ensures
      var later := WakesAfter(run, envs);
      && later.mem.ram.Some?
      && |later.sleeps| == |run.sleeps| + |envs|
      && later.sleeps[..|run.sleeps|] == run.sleeps
    decreases |envs|
  {
    if envs != [] {
      var next := Step(run, Wake(envs[0]));
      assert next.sleeps[..|run.sleeps|] == run.sleeps;
      OneSleepPerWake(next, envs[1..]);
      var later := WakesAfter(next, envs[1..]);
      assert later.sleeps[..|run.sleeps|] == later.sleeps[..|next.sleeps|][..|run.sleeps|];
    }
  }

  // ------------------------------ Confirmation ------------------------------

  /** The config in force when a wake opens its receive window. */
  function InForce(mem: Memory, env: WakeEnv): Config {
    Boot(mem, env.load).st.cfg
  }

  /**
   * Whatever a node remembers, a wake that hears a config frame, good or bad, sleeps
   * exactly 120 s; whatever the next wake meets, it sends a report that the server
   * decodes to that opcode, the node's verdict and the config then in force. From a
   * valid state, or none, verdict and config are those that the server's own decoder and
   * range check give.
   */
  lemma ConfirmedWithinTwoUplinks(mem: Memory, env: WakeEnv, env': WakeEnv)
    requires Heard(env.radio).Some? && Heard(env.radio).value.fport == 10
    ensures
      var mem' := MemoryAfter(mem, env);
      var data := Heard(env.radio).value.data;
      var cfg' := mem'.ram.value.cfg;
      var up := UplinkOf(mem', env');
      && SleepAfter(mem, env) == 120
      && up.fport == 11
      && T.DecodeConfigReport(up.payload) ==
         Ok(T.ConfigReport(mem'.ram.value.lastResult, data[0],
                           cfg'.sampleIntervalS, cfg'.pmOffsetX10, cfg'.tempOffsetX100))
      && mem'.ram.value.lastResult == ResultCode(Judge(data, InForce(mem, env)))
      && cfg' == ConfigAfter(data, InForce(mem, env))
      && (Judge(data, InForce(mem, env)) != Applied ==> cfg' == InForce(mem, env) && !Saves(mem, env))
      && ((mem.ram.Some? ==> mem.ram.value.Valid()) ==>
            mem'.ram.value.lastResult == VerdictCode(data) && cfg' == Told(data, InForce(mem, env)))
  {
    if mem.ram.Some? ==> mem.ram.value.Valid() {
      BootIsValid(mem, env.load);
      VerdictsAgree(Heard(env.radio).value.data, InForce(mem, env));
    }
    ReportIsUnderstood(MemoryAfter(mem, env).ram.value);
    hide T.DecodeConfigReport, T.DecodeDownlink, T.DownlinkInRange;
  }

  /**
   * A cold boot sends a reading and then, two minutes later, a report of what was
   * loaded, unless power goes again; if no command was heard it says so.
   */
  lemma ColdBootIsReported(blob: Blob, env: WakeEnv, env': WakeEnv)
    ensures
      var mem := Memory(None, blob);
      var mem' := MemoryAfter(mem, env);
      && UplinkOf(mem, env).fport == Payload.DATA_FPORT
      && SleepAfter(mem, env) == 120
      && UplinkOf(mem', env').fport == REPORT_FPORT
      && T.DecodeConfigReport(UplinkOf(mem', env').payload) == Ok(ReportOf(mem'.ram.value))
      && (Heard(env.radio).None? ==> mem'.ram.value.lastCmd == 0 && mem'.ram.value.lastResult == RESULT_NONE
                                     && mem'.ram.value.cfg == InForce(mem, env))
  {
    BootIsValid(Memory(None, blob), env.load);
    ReportIsUnderstood(MemoryAfter(Memory(None, blob), env).ram.value);
  }

  /**
   * Any number of wakes in which no command is heard keep the config and the flash and
   * use up the pending report in the first of them; the rest send readings at the
   * interval that was set.
   */
  lemma {:induction false} QuietWakesSettleDown(mem: Memory, envs: seq<WakeEnv>)
    requires mem.ram.Some? && envs != []
    requires forall i :: 0 <= i < |envs| ==> Heard(envs[i].radio).None?
    ensures
      var cfg := mem.ram.value.cfg;
      && Wakes(mem, envs) == Memory(Some(mem.ram.value.(reportPending := 0)), mem.blob)
      && SleepAfter(mem, envs[0]) == cfg.sampleIntervalS
      && forall i :: 0 < i < |envs| ==>
           UplinkOf(Wakes(mem, envs[..i]), envs[i]) == Uplink(Payload.DATA_FPORT, Payload.ReadingPayload(cfg, envs[i].hal))
           && SleepAfter(Wakes(mem, envs[..i]), envs[i]) == cfg.sampleIntervalS
    decreases |envs|
  {
    var next := MemoryAfter(mem, envs[0]);
    if |envs| > 1 {
      QuietWakesSettleDown(next, envs[1..]);
      forall i | 0 < i < |envs|
        ensures Wakes(mem, envs[..i]) == Memory(Some(mem.ram.value.(reportPending := 0)), mem.blob)
      {
        QuietWakesSettleDown(mem, envs[..i]);
      }
    }
  }

  /**
   * A factory-new node, whatever its flash does, until it hears a command: a reading and
   * two minutes' sleep, its report, and from then on readings with nothing added to them
   * every five minutes.
   */
  lemma FactoryNewNode(first: WakeEnv, envs: seq<WakeEnv>)
    requires Heard(first.radio).None? && envs != []
    requires forall i :: 0 <= i < |envs| ==> Heard(envs[i].radio).None?
    ensures
      var (factory, mem) := (Memory(None, None), MemoryAfter(Memory(None, None), first));
      && UplinkOf(factory, first) == Uplink(2, Payload.Encoded(Payload.Sampled(first.hal)))
      && SleepAfter(factory, first) == 120
      && UplinkOf(mem, envs[0]).fport == 11
      && T.DecodeConfigReport(UplinkOf(mem, envs[0]).payload) == Ok(T.ConfigReport(0, 0, 300, 0, 0))
      && SleepAfter(mem, envs[0]) == 300
      && forall i :: 0 < i < |envs| ==>
           && UplinkOf(Wakes(mem, envs[..i]), envs[i]) == Uplink(2, Payload.Encoded(Payload.Sampled(envs[i].hal)))
           && SleepAfter(Wakes(mem, envs[..i]), envs[i]) == 300
  {
    var mem := MemoryAfter(Memory(None, None), first);
    QuietWakesSettleDown(mem, envs);
    ReportIsUnderstood(mem.ram.value);
    forall hal: Payload.Hal
      ensures Payload.ReadingPayload(Config(300, 0, 0), hal) == Payload.Encoded(Payload.Sampled(hal))
    {
      NothingAdded(hal);
    }
    hide Payload.ReadingPayload, Payload.Encoded, T.DecodeConfigReport, Heard;
  }

  /** Without offsets calibration changes nothing but a negative PM2.5, which the wire has no room for either. */
  lemma NothingAdded(hal: Payload.Hal)
    ensures Payload.ReadingPayload(Config(300, 0, 0), hal) == Payload.Encoded(Payload.Sampled(hal))
  {
  }

  /** A frame on any other port is as good as silence. */
  lemma OtherPortsAreSilence(mem: Memory, env: WakeEnv)
    requires Heard(env.radio).Some? && Heard(env.radio).value.fport != DOWNLINK_FPORT
    ensures MemoryAfter(mem, env) == MemoryAfter(mem, env.(radio := Sent(None)))
    ensures !Saves(mem, env)
  {
  }
}
