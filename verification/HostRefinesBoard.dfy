/**
 * The host build refines the board: run over its text file, one process per event,
 * it sends what the board sends and sleeps as long, as long as each cold boot takes up
 * the config that was in force before it. Flash may fail in between.
 */
module HostRefinesBoard {
  import opened Bytes
  import opened Options
  import opened Downlink
  import opened NodeState
  import opened Payload
  import opened ConfigStore
  import opened Board
  import opened BoardRuns
  import opened HostText
  import opened HostSim
  import opened CodecAgreement
  import Base64
  import T = TelemetryCodec

  /** One wake: after a power cycle or not, with these sensor answers, this radio and this flash. */
  datatype Event = Event(powerCycled: bool, hal: Hal, radio: Radio, load: LoadEnv, save: SaveEnv)

  datatype Observed = Observed(fport: Byte, payload: seq<Byte>, sleepS: nat)

  // -------------------------------- The board --------------------------------

  function Env(e: Event): WakeEnv {
    WakeEnv(e.load, e.hal, e.radio, e.save)
  }

  function BeforeWake(mem: Memory, e: Event): Memory {
    if e.powerCycled then Memory(None, mem.blob) else mem
  }

  function BoardStep(mem: Memory, e: Event): (Memory, Observed) {
    var from := BeforeWake(mem, e);
    var up := UplinkOf(from, Env(e));
    (MemoryAfter(from, Env(e)), Observed(up.fport, up.payload, SleepAfter(from, Env(e))))
  }

  function BoardRun(mem: Memory, events: seq<Event>): (out: seq<Observed>)
    ensures |out| == |events|
    decreases |events|
  {
    if events == [] then []
    else
      var (next, seen) := BoardStep(mem, events[0]);
      [seen] + BoardRun(next, events[1..])
  }

  // ---------------------------------- The host ----------------------------------

  /**
   * A wake process; then, if the node heard a frame, a downlink process, whose sleep
   * replaces the one printed before.
   */
  function HostStep(file: Option<string>, e: Event): (Option<string>, Printed) {
    var printed := WakePrints(file, e.powerCycled, e.hal);
    var woken := Some(SaveState(StateAfterWake(file, e.powerCycled)));
    match Heard(e.radio)
    case None => (woken, printed)
    case Some(frame) =>
      match (ParsedHex(Hex(frame.data), DOWNLINK_BUFFER), DeliveryPrints(woken, Hex(frame.data), frame.fport))
      case (Some(data), Delivered(_, _, sleepS)) =>
        (Some(SaveState(StateAfterDownlink(woken, data, frame.fport))), printed.(sleepS := sleepS))
      case _ => (woken, printed)
  }

  function HostRun(file: Option<string>, events: seq<Event>): (out: seq<Printed>)
    ensures |out| == |events|
    decreases |events|
  {
    if events == [] then []
    else
      var (next, printed) := HostStep(file, events[0]);
      [printed] + HostRun(next, events[1..])
  }

  // -------------------------------- Refinement --------------------------------

  /** The file holds what RTC RAM holds. */
  predicate Represents(file: Option<string>, mem: Memory) {
    mem.ram.Some? ==> LoadState(file) == mem.ram && mem.ram.value.Valid()
  }

  /** The config in the file; a missing file stands for the defaults. */
  function HostConfig(file: Option<string>): Config {
    match LoadState(file)
    case Some(st) => st.cfg
    case None => DEFAULT_CONFIG
  }

  /** A board without RTC RAM boots cold, and so must its stand-in. */
  predicate Bootable(file: Option<string>, mem: Memory, e: Event) {
    mem.ram.Some? || e.powerCycled || LoadState(file).None?
  }

  /** If the step is a cold boot, it takes up `cfg`. */
  predicate TakesUp(cfg: Config, mem: Memory, e: Event) {
    var from := BeforeWake(mem, e);
    from.ram.None? ==> Boot(from, e.load).st.cfg == cfg
  }

  lemma SameBoot(file: Option<string>, mem: Memory, e: Event)
    requires Represents(file, mem) && Bootable(file, mem, e) && TakesUp(HostConfig(file), mem, e)
    ensures
      var b := Boot(BeforeWake(mem, e), e.load);
      && HostBoot(file, e.powerCycled) == (b.st, b.cold)
      && b.st.Valid()
      && StateAfterWake(file, e.powerCycled) == Listening(b)
  {
    BootIsValid(BeforeWake(mem, e), e.load);
    hide LoadState, Loaded, Parsed, MemoryAfter;
  }

  lemma SameDelivery(st: State, e: Event)
    requires st.Valid() && Heard(e.radio).Some?
    ensures
      var (woken, frame) := (Some(SaveState(st)), Heard(e.radio).value);
      && ParsedHex(Hex(frame.data), DOWNLINK_BUFFER) == Some(frame.data)
      && StateAfterDownlink(woken, frame.data, frame.fport) == Received(st, Heard(e.radio))
      && DeliveryPrints(woken, Hex(frame.data), frame.fport) ==
         var next := Received(st, Heard(e.radio));
         Delivered(next.lastResult, next.cfg, next.SleepS())
  {
    LoadUndoesSave(st);
    ParseUndoesHex(Heard(e.radio).value.data, DOWNLINK_BUFFER);
    hide LoadState, SaveState, Hex, ParsedHex, AfterDownlink;
  }

  /** The state both end a step in. */
  function StateAfterStep(mem: Memory, e: Event): State {
    Received(Listening(Boot(BeforeWake(mem, e), e.load)), Heard(e.radio))
  }

  lemma HostStepEnds(file: Option<string>, mem: Memory, e: Event)
    requires Represents(file, mem) && Bootable(file, mem, e) && TakesUp(HostConfig(file), mem, e)
    ensures
      var (file', printed) := HostStep(file, e);
      && file' == Some(SaveState(StateAfterStep(mem, e)))
      && printed == WakePrints(file, e.powerCycled, e.hal).(sleepS := StateAfterStep(mem, e).SleepS())
  {
    SameBoot(file, mem, e);
    if Heard(e.radio).Some? {
      SameDelivery(Listening(Boot(BeforeWake(mem, e), e.load)), e);
    }
    hide SaveState, Boot, Listening, Received, Heard, Hex, ParsedHex, StateAfterDownlink, DeliveryPrints, HostBoot,
      Represents, Bootable, TakesUp, Base64.Encode, ReadingPayload, StateAfterWake;
  }

  lemma BoardStepEnds(file: Option<string>, mem: Memory, e: Event)
    requires Represents(file, mem) && Bootable(file, mem, e) && TakesUp(HostConfig(file), mem, e)
    ensures
      var mem' := BoardStep(mem, e).0;
      mem'.ram == Some(StateAfterStep(mem, e)) && StateAfterStep(mem, e).Valid()
  {
    SameBoot(file, mem, e);
    hide Represents, Bootable, Restored, Heard, HostBoot, Boot, Saves;
  }

  /** The host prints what the board does: port, payload in Base64, sleep. */
  predicate Prints(p: Printed, seen: Observed) {
    p == Printed(seen.fport, Base64.Encode(seen.payload), seen.sleepS)
  }

  lemma StepSimulates(file: Option<string>, mem: Memory, e: Event)
    requires Represents(file, mem) && Bootable(file, mem, e) && TakesUp(HostConfig(file), mem, e)
    ensures
      var ((file', printed), (mem', seen)) := (HostStep(file, e), BoardStep(mem, e));
      Represents(file', mem') && mem'.ram.Some? && Prints(printed, seen)
  {
    SameBoot(file, mem, e);
    HostStepEnds(file, mem, e);
    BoardStepEnds(file, mem, e);
    LoadUndoesSave(StateAfterStep(mem, e));
    hide HostStep, LoadState, SaveState, Boot, StateAfterStep, Listening, Received, Heard, StateAfterWake,
      Base64.Encode, ReadingPayload, Restored, Saves, TakesUp;
  }

  predicate AllPrinted(host: seq<Printed>, board: seq<Observed>) {
    |host| == |board| && forall i :: 0 <= i < |host| ==> Prints(host[i], board[i])
  }

  /** Every cold boot of the run takes up the config in force before it, `cfg` at first. */
  predicate BootsKeep(cfg: Config, mem: Memory, events: seq<Event>)
    decreases |events|
  {
    events == [] ||
    (var next := BoardStep(mem, events[0]).0;
     TakesUp(cfg, mem, events[0]) && BootsKeep(next.ram.value.cfg, next, events[1..]))
  }

  /**
   * For every run of power cycles, wakes, samples, frames and flash accesses, failed or
   * not, whose cold boots keep the config: the same port, payload and final sleep at
   * every wake.
   */
  lemma {:induction false} HostRefines(file: Option<string>, mem: Memory, events: seq<Event>)
    requires Represents(file, mem) && (events != [] ==> Bootable(file, mem, events[0]))
    requires BootsKeep(HostConfig(file), mem, events)
    ensures AllPrinted(HostRun(file, events), BoardRun(mem, events))
    decreases |events|
  {
    hide Prints, HostStep, BoardStep, LoadState, TakesUp;
    if events != [] {
      StepSimulates(file, mem, events[0]);
      HostRefines(HostStep(file, events[0]).0, BoardStep(mem, events[0]).0, events[1..]);
    }
  }

  // ------------------------- What that asks of flash -------------------------

  /**
   * More than enough: a cold boot takes up the config that flash holds, and after the
   * wake flash holds the config in force.
   */
  predicate FlashHolds(mem: Memory, e: Event) {
    var mem' := BoardStep(mem, e).0;
    TakesUp(Restored(mem.blob), mem, e) && Restored(mem'.blob) == mem'.ram.value.cfg
  }

  predicate FlashHoldsThroughout(mem: Memory, events: seq<Event>)
    decreases |events|
  {
    events == [] || (FlashHolds(mem, events[0]) && FlashHoldsThroughout(BoardStep(mem, events[0]).0, events[1..]))
  }

  lemma {:induction false} FlashThatHoldsKeeps(mem: Memory, events: seq<Event>)
    requires FlashHoldsThroughout(mem, events)
    ensures BootsKeep(Restored(mem.blob), mem, events)
    decreases |events|
  {
    hide BoardStep, TakesUp, Restored;
    if events != [] {
      FlashThatHoldsKeeps(BoardStep(mem, events[0]).0, events[1..]);
    }
  }

  /** RAM and flash are in step, or there is no RAM. */
  predicate InStep(mem: Memory) {
    mem.ram.Some? ==> mem.ram.value.Valid() && Restored(mem.blob) == mem.ram.value.cfg
  }

  /**
   * In terms of the flash accesses: a cold boot reads the cell, or would find the
   * defaults there; and a wake that saves leaves what survives a power cut.
   */
  lemma FlashHoldsIff(mem: Memory, e: Event)
    requires InStep(mem)
    ensures
      var from := BeforeWake(mem, e);
      FlashHolds(mem, e) <==>
        && (from.ram.None? ==> e.load == LoadEnv(Mounted, true) || Restored(mem.blob) == DEFAULT_CONFIG)
        && (Saves(from, Env(e)) ==>
              SaveKeeps(Boot(from, e.load).blob, MemoryAfter(from, Env(e)).ram.value.cfg, e.save))
  {
    var from := BeforeWake(mem, e);
    BootIsValid(from, e.load);
    ColdBootTakesUpIff(mem.blob, e.load);
    SettingSurvivesIff(from, Env(e));
    hide Restored, Heard, Received, BlobAfterSave, SaveKeeps, Loaded;
  }

  /** A cold boot takes up the config in flash, and keeps it there, if it reads it or loses nothing. */
  lemma ColdBootTakesUpIff(blob: Blob, load: LoadEnv)
    ensures
      var b := Boot(Memory(None, blob), load);
      && (b.st.cfg == Restored(blob) <==> load == LoadEnv(Mounted, true) || Restored(blob) == DEFAULT_CONFIG)
      && (b.st.cfg == Restored(blob) ==> Restored(b.blob) == b.st.cfg)
  {
  }

  /** Every mount, read and write of the wake works, nothing being erased. */
  predicate FlashWorks(e: Event) {
    e.load == LoadEnv(Mounted, true) && e.save == SaveEnv(Mounted, Written)
  }

  lemma WorkingFlashHolds(mem: Memory, e: Event)
    requires InStep(mem) && FlashWorks(e)
    ensures FlashHolds(mem, e) && InStep(BoardStep(mem, e).0)
  {
    FlashHoldsIff(mem, e);
    BootIsValid(BeforeWake(mem, e), e.load);
    hide Restored, Heard, SaveKeeps, Loaded, BlobAfterSave;
    assert SaveOk(e.save);
    SaveThatWorks(Boot(BeforeWake(mem, e), e.load).blob, MemoryAfter(BeforeWake(mem, e), Env(e)).ram.value.cfg, e.save);
  }

  lemma SaveThatWorks(blob: Blob, cfg: Config, save: SaveEnv)
    requires SaveOk(save)
    ensures SaveKeeps(blob, cfg, save)
  {
  }

  lemma {:induction false} WorkingFlashHoldsThroughout(mem: Memory, events: seq<Event>)
    requires InStep(mem) && forall i :: 0 <= i < |events| ==> FlashWorks(events[i])
    ensures FlashHoldsThroughout(mem, events)
    decreases |events|
  {
    hide FlashHolds, BoardStep, InStep, FlashWorks;
    if events != [] {
      assert FlashWorks(events[0]);
      WorkingFlashHolds(mem, events[0]);
      WorkingFlashHoldsThroughout(BoardStep(mem, events[0]).0, events[1..]);
    }
  }

  /**
   * In particular, on flash that works, a factory-new node and a host node without a
   * state file behave alike for ever.
   */
  lemma FactoryNewNodesAgree(events: seq<Event>)
    requires forall i :: 0 <= i < |events| ==> FlashWorks(events[i])
    ensures AllPrinted(HostRun(None, events), BoardRun(Memory(None, None), events))
  {
    WorkingFlashHoldsThroughout(Memory(None, None), events);
    FlashThatHoldsKeeps(Memory(None, None), events);
    HostRefines(None, Memory(None, None), events);
  }

  // --------------------------- It is not too much ---------------------------

  lemma EqualReports(a: State, b: State)
    requires Base64.Encode(a.Report()) == Base64.Encode(b.Report())
    requires a.lastResult <= RESULT_MALFORMED && b.lastResult <= RESULT_MALFORMED
    ensures a.cfg == b.cfg
  {
    Base64.DecodeUndoesEncode(a.Report());
    Base64.DecodeUndoesEncode(b.Report());
    ReportIsUnderstood(a);
    ReportIsUnderstood(b);
    hide Base64.Encode, Base64.Decode, T.DecodeConfigReport, T.EncodedConfigReport;
  }

  /** What a quiet cold boot with `cfg` leaves to report. */
  function ToReport(cfg: Config): State
    requires ConfigValid(cfg)
  {
    Fresh(Some(cfg)).(reportPending := 1)
  }

  lemma ColdBoard(mem: Memory, e: Event)
    requires BeforeWake(mem, e).ram.None? && Heard(e.radio).None?
    ensures
      var cfg := Boot(BeforeWake(mem, e), e.load).st.cfg;
      ConfigValid(cfg) && BoardStep(mem, e).0.ram == Some(ToReport(cfg))
  {
    BootIsValid(BeforeWake(mem, e), e.load);
    hide Loaded;
  }

  lemma ColdHost(file: Option<string>, e: Event)
    requires e.powerCycled || LoadState(file).None?
    requires Heard(e.radio).None?
    ensures ConfigValid(HostConfig(file)) && LoadState(HostStep(file, e).0) == Some(ToReport(HostConfig(file)))
  {
    ConfigInFileIsValid(file);
    LoadUndoesSave(ToReport(HostConfig(file)));
    hide LoadState, SaveState, Heard, WakePrints;
  }

  lemma ConfigInFileIsValid(file: Option<string>)
    ensures ConfigValid(HostConfig(file))
  {
  }

  lemma WarmBoard(mem: Memory, e: Event)
    requires mem.ram.Some? && mem.ram.value.ReportDue() && !e.powerCycled
    ensures BoardStep(mem, e).1.payload == mem.ram.value.Report()
  {
    hide MemoryAfter;
  }

  lemma WarmHost(file: Option<string>, e: Event)
    requires LoadState(file).Some? && LoadState(file).value.ReportDue() && !e.powerCycled
    requires Heard(e.radio).None?
    ensures HostStep(file, e).1.b64 == Base64.Encode(LoadState(file).value.Report())
  {
    hide LoadState, SaveState, Heard, Base64.Encode;
  }

  lemma TwoPrints(file: Option<string>, mem: Memory, cold: Event, warm: Event)
    ensures
      var (host, board) := (HostRun(file, [cold, warm]), BoardRun(mem, [cold, warm]));
      && host[1] == HostStep(HostStep(file, cold).0, warm).1
      && board[1] == BoardStep(BoardStep(mem, cold).0, warm).1
  {
    hide HostStep, BoardStep;
    var events := [cold, warm];
    assert events[1..] == [warm] && [warm][1..] == [];
  }

  lemma TwoKept(cfg: Config, mem: Memory, cold: Event, warm: Event)
    requires TakesUp(cfg, mem, cold) && !warm.powerCycled && BoardStep(mem, cold).0.ram.Some?
    ensures BootsKeep(cfg, mem, [cold, warm])
  {
    var events := [cold, warm];
    assert events[1..] == [warm] && [warm][1..] == [];
    var next := BoardStep(mem, cold).0;
    assert BootsKeep(next.ram.value.cfg, next, [warm]);
  }

  /**
   * A cold boot that takes up any other config is seen at the next wake: after a quiet
   * cold boot and a quiet warm wake the two have printed the same if and only if the
   * boot took up the host's config.
   */
  lemma OtherConfigShows(file: Option<string>, mem: Memory, cold: Event, warm: Event)
    requires Represents(file, mem) && Bootable(file, mem, cold) && BeforeWake(mem, cold).ram.None?
    requires Heard(cold.radio).None? && Heard(warm.radio).None? && !warm.powerCycled
    ensures AllPrinted(HostRun(file, [cold, warm]), BoardRun(mem, [cold, warm])) <==> TakesUp(HostConfig(file), mem, cold)
  {
    ColdBoard(mem, cold);
    ColdHost(file, cold);
    TwoPrints(file, mem, cold, warm);
    var (host, board) := (HostStep(file, cold).0, BoardStep(mem, cold).0);
    WarmBoard(board, warm);
    WarmHost(host, warm);
    hide HostStep, BoardStep, HostRun, BoardRun, LoadState, Heard, Represents, Bootable, Base64.Encode, Boot;
    if TakesUp(HostConfig(file), mem, cold) {
      TwoKept(HostConfig(file), mem, cold, warm);
      HostRefines(file, mem, [cold, warm]);
    } else if AllPrinted(HostRun(file, [cold, warm]), BoardRun(mem, [cold, warm])) {
      assert Prints(HostRun(file, [cold, warm])[1], BoardRun(mem, [cold, warm])[1]);
      EqualReports(LoadState(host).value, board.ram.value);
      assert false;
    }
  }
}
