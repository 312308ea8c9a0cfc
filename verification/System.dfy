/**
 * The whole system: any number of nodes, a radio network that loses, repeats and
 * reorders uplinks, and the ingestion service's config cache.
 */
module System {
  import opened Bytes
  import opened Options
  import opened Downlink
  import opened NodeState
  import opened Board
  import opened BoardRuns
  import opened CodecAgreement
  import Aqi
  import Base64
  import I = Ingestion
  import P = Payload
  import T = TelemetryCodec

  /** An uplink as ChirpStack hands it on; `from` records the state it was built from. */
  datatype SentUplink = SentUplink(dev: string, fport: Byte, data: string, from: State)

  /**
   * `sent` is every uplink ever built, and `processed` remembers which of them gave
   * each device's cached settings.
   */
  datatype World = World(nodes: map<string, Memory>, sent: seq<SentUplink>, store: I.Store, processed: map<string, nat>)

  /**
   * A node does something, the network delivers uplink k, perhaps not for the first
   * time and perhaps while the cache is out of reach, or the server's stores get on with
   * an uplink under way.
   */
  datatype Step =
    | NodeDoes(dev: string, event: Event)
    | Deliver(k: nat, time: int, reached: bool)
    | ServerDoes(step: I.Event)

  function SentBy(dev: string, mem: Memory, env: WakeEnv): SentUplink {
    var up := UplinkOf(mem, env);
    SentUplink(dev, up.fport, Base64.Encode(up.payload), Boot(mem, env.load).st)
  }

  function AfterNode(w: World, dev: string, e: Event): World
    requires dev in w.nodes
  {
    var mem := w.nodes[dev];
    match e
    case PowerCut => w.(nodes := w.nodes[dev := Memory(None, mem.blob)])
    case Wake(env) =>
      w.(nodes := w.nodes[dev := MemoryAfter(mem, env)], sent := w.sent + [SentBy(dev, mem, env)])
    case CutWake(env, cut) =>
      w.(nodes := w.nodes[dev := Memory(None, BlobAfterCut(mem, env, cut))],
         sent := w.sent + if cut.BeforeSend? then [] else [SentBy(dev, mem, env)])
  }

  function AfterDelivery(w: World, k: nat, time: int, reached: bool): World
    requires k < |w.sent|
  {
    var up := w.sent[k];
    w.(store := I.Next(w.store, I.Arrive(Some(I.Uplink(up.dev, Some(up.fport), up.data, time)), reached)),
       processed := if reached && up.fport == T.CONFIG_REPORT_FPORT then w.processed[up.dev := k] else w.processed)
  }

  function Next(w: World, s: Step): World {
    match s
    case NodeDoes(dev, e) => if dev in w.nodes then AfterNode(w, dev, e) else w
    case Deliver(k, time, reached) => if k < |w.sent| then AfterDelivery(w, k, time, reached) else w
    case ServerDoes(e) => if e.Arrive? then w else w.(store := I.Next(w.store, e))
  }

  /** Nodes are first powered on with any flash contents. */
  function Start(flash: map<string, ConfigStore.Blob>): World {
    World(map d | d in flash :: Memory(None, flash[d]), [], I.EMPTY, map[])
  }

  function Steps(w: World, steps: seq<Step>): World {
    if steps == [] then w
    else Next(Steps(w, steps[..|steps| - 1]), steps[|steps| - 1])
  }

  function Reached(flash: map<string, ConfigStore.Blob>, steps: seq<Step>): World {
    Steps(Start(flash), steps)
  }

  // ------------------------------- Invariants -------------------------------

  /** The last report built by `dev`. */
  function LastReport(sent: seq<SentUplink>, dev: string): Option<nat> {
    if sent == [] then None
    else
      var n := |sent| - 1;
      if sent[n].dev == dev && sent[n].fport == REPORT_FPORT then Some(n) else LastReport(sent[..n], dev)
  }

  lemma {:induction false} LastReportIsOne(sent: seq<SentUplink>, dev: string)
    ensures LastReport(sent, dev).Some? ==>
      var k := LastReport(sent, dev).value;
      k < |sent| && sent[k].dev == dev && sent[k].fport == REPORT_FPORT
  {
    if sent != [] {
      LastReportIsOne(sent[..|sent| - 1], dev);
    }
  }

  predicate GoodUplink(up: SentUplink) {
    up.from.Valid() && (up.fport == REPORT_FPORT ==> up.data == Base64.Encode(up.from.Report()))
  }

  predicate GoodNode(sent: seq<SentUplink>, dev: string, mem: Memory) {
    mem.ram.Some? ==>
      var (st, last) := (mem.ram.value, LastReport(sent, dev));
      && st.Valid()
      && (!st.ReportDue() ==> last.Some? && last.value < |sent| && sent[last.value].from.Report() == st.Report())
  }

  /** What the cache entry of a node in state `st` says. */
  predicate Describes(c: I.CachedConfig, st: State) {
    c == I.Cached(ReportOf(st), c.reportedAt)
  }

  predicate GoodEntry(w: World, dev: string)
    requires dev in w.store.config
  {
    && dev in w.processed
    && w.processed[dev] < |w.sent|
    && w.sent[w.processed[dev]].dev == dev
    && w.sent[w.processed[dev]].fport == REPORT_FPORT
    && Describes(w.store.config[dev], w.sent[w.processed[dev]].from)
  }

  predicate Inv(w: World) {
    && (forall k :: 0 <= k < |w.sent| ==> GoodUplink(w.sent[k]))
    && (forall d :: d in w.nodes ==> GoodNode(w.sent, d, w.nodes[d]))
    && (forall d :: d in w.store.config ==> GoodEntry(w, d))
  }

  /** The bytes of a good report come out of the service as the state they went in. */
  lemma ReportArrives(up: SentUplink)
    requires GoodUplink(up) && up.fport == REPORT_FPORT
    ensures I.ReportIn(up.data) == Ok(ReportOf(up.from))
  {
    Base64.DecodeUndoesEncode(up.from.Report());
    ReportIsUnderstood(up.from);
  }

  lemma NodeStepKeepsUplinks(dev: string, mem: Memory, env: WakeEnv)
    requires mem.ram.Some? ==> mem.ram.value.Valid()
    ensures GoodUplink(SentBy(dev, mem, env))
  {
    BootIsValid(mem, env.load);
  }

  lemma WakeKeepsNode(sent: seq<SentUplink>, dev: string, mem: Memory, env: WakeEnv)
    requires GoodNode(sent, dev, mem)
    ensures GoodNode(sent + [SentBy(dev, mem, env)], dev, MemoryAfter(mem, env))
  {
    BootIsValid(mem, env.load);
    var (up, all) := (SentBy(dev, mem, env), sent + [SentBy(dev, mem, env)]);
    assert all[..|all| - 1] == sent;
  }

  lemma OthersKeepTheirNode(sent: seq<SentUplink>, dev: string, mem: Memory, up: SentUplink)
    requires GoodNode(sent, dev, mem) && up.dev != dev
    ensures GoodNode(sent + [up], dev, mem)
  {
    var all := sent + [up];
    assert all[..|all| - 1] == sent;
  }

  lemma NodeKeepsInv(w: World, dev: string, e: Event)
    requires Inv(w) && dev in w.nodes
    ensures Inv(AfterNode(w, dev, e))
  {
    var (mem, w') := (w.nodes[dev], AfterNode(w, dev, e));
    if !e.PowerCut? && !(e.CutWake? && e.cut.BeforeSend?) {
      var up := SentBy(dev, mem, e.env);
      NodeStepKeepsUplinks(dev, mem, e.env);
      assert w'.sent == w.sent + [up];
      forall d | d in w'.nodes
        ensures GoodNode(w'.sent, d, w'.nodes[d])
      {
        if d != dev {
          OthersKeepTheirNode(w.sent, d, w.nodes[d], up);
        } else if e.Wake? {
          WakeKeepsNode(w.sent, dev, mem, e.env);
        }
      }
    } else {
      assert w'.sent == w.sent;
    }
    forall d | d in w'.store.config
      ensures GoodEntry(w', d)
    {
      assert GoodEntry(w, d);
    }
  }

  lemma DeliveryKeepsInv(w: World, k: nat, time: int, reached: bool)
    requires Inv(w) && k < |w.sent|
    ensures Inv(AfterDelivery(w, k, time, reached))
  {
    var (up, w') := (w.sent[k], AfterDelivery(w, k, time, reached));
    assert GoodUplink(up);
    if up.fport == REPORT_FPORT {
      ReportArrives(up);
    }
    forall d | d in w'.store.config
      ensures GoodEntry(w', d)
    {
      if d != up.dev || up.fport != REPORT_FPORT || !reached {
        assert d in w.store.config && GoodEntry(w, d);
      }
    }
  }

  lemma ServerKeepsInv(w: World, e: I.Event)
    requires Inv(w)
    ensures Inv(Next(w, ServerDoes(e)))
  {
    hide I.Next;
    if !e.Arrive? {
      I.StepOnConfig(w.store, e);
    }
    var w' := Next(w, ServerDoes(e));
    assert w'.store.config == w.store.config;
    forall d | d in w'.store.config
      ensures GoodEntry(w', d)
    {
      assert GoodEntry(w, d);
    }
  }

  lemma StepKeepsInv(w: World, s: Step)
    requires Inv(w)
    ensures Inv(Next(w, s))
  {
    hide Inv, AfterNode, AfterDelivery;
    match s
    case NodeDoes(dev, e) =>
      if dev in w.nodes {
        NodeKeepsInv(w, dev, e);
      }
    case Deliver(k, time, reached) =>
      if k < |w.sent| {
        DeliveryKeepsInv(w, k, time, reached);
      }
    case ServerDoes(e) =>
      ServerKeepsInv(w, e);
  }

  lemma {:induction false} StepsKeepInv(w: World, steps: seq<Step>)
    requires Inv(w)
    ensures Inv(Steps(w, steps))
  {
    hide Next, Inv;
    if steps != [] {
      StepsKeepInv(w, steps[..|steps| - 1]);
      StepKeepsInv(Steps(w, steps[..|steps| - 1]), steps[|steps| - 1]);
    }
  }

  lemma EveryRunKeepsInv(flash: map<string, ConfigStore.Blob>, steps: seq<Step>)
    ensures Inv(Reached(flash, steps))
  {
    StepsKeepInv(Start(flash), steps);
  }

  /** What happens to one node in a run. */
  function EventsOf(steps: seq<Step>, dev: string): seq<Event> {
    if steps == [] then []
    else
      var s := steps[|steps| - 1];
      EventsOf(steps[..|steps| - 1], dev) + if s.NodeDoes? && s.dev == dev then [s.event] else []
  }

  lemma BoardSnoc(blob: ConfigStore.Blob, events: seq<Event>, e: Event)
    ensures After(blob, events + [e]) == BoardRuns.Step(After(blob, events), e)
  {
    assert (events + [e])[..|events|] == events;
    hide BoardRuns.Step;
  }

  lemma NodeStepIsBoardStep(w: World, dev: string, e: Event, run: Run)
    requires dev in w.nodes && w.nodes[dev] == run.mem
    ensures dev in AfterNode(w, dev, e).nodes && AfterNode(w, dev, e).nodes[dev] == BoardRuns.Step(run, e).mem
  {
    hide MemoryAfter, BlobAfterCut, SentBy;
  }

  /** The states that the reports of a device were built from. */
  function ReportsFrom(sent: seq<SentUplink>, dev: string): seq<State> {
    if sent == [] then []
    else
      var up := sent[|sent| - 1];
      ReportsFrom(sent[..|sent| - 1], dev) + if up.dev == dev && up.fport == 11 then [up.from] else []
  }

  lemma OneMoreSent(sent: seq<SentUplink>, up: SentUplink, dev: string)
    ensures ReportsFrom(sent + [up], dev) ==
      ReportsFrom(sent, dev) + if up.dev == dev && up.fport == 11 then [up.from] else []
  {
    assert (sent + [up])[..|sent|] == sent;
  }

  lemma NodeStepSends(w: World, d: string, e: Event, dev: string, run: Run)
    requires d in w.nodes && ReportsFrom(w.sent, dev) == run.reports && (d == dev ==> w.nodes[d] == run.mem)
    ensures ReportsFrom(AfterNode(w, d, e).sent, dev) == if d == dev then BoardRuns.Step(run, e).reports else run.reports
  {
    hide MemoryAfter, BlobAfterCut;
    if !e.PowerCut? && !(e.CutWake? && e.cut.BeforeSend?) {
      OneMoreSent(w.sent, SentBy(d, w.nodes[d], e.env), dev);
      assert run.reports + [] == run.reports;
    } else {
      assert AfterNode(w, d, e).sent == w.sent;
      assert run.reports + [] == run.reports;
    }
  }

  /** The node is in the memory of that board run, and has sent its reports. */
  predicate RunsAs(w: World, dev: string, run: Run) {
    dev in w.nodes && w.nodes[dev] == run.mem && ReportsFrom(w.sent, dev) == run.reports
  }

  lemma StepRunsAsBoard(w: World, s: Step, dev: string, run: Run)
    requires RunsAs(w, dev, run)
    ensures RunsAs(Next(w, s), dev, if s.NodeDoes? && s.dev == dev then BoardRuns.Step(run, s.event) else run)
  {
    if s.NodeDoes? && s.dev in w.nodes {
      NodeStepSends(w, s.dev, s.event, dev, run);
      if s.dev == dev {
        NodeStepIsBoardStep(w, dev, s.event, run);
      } else {
        assert dev in AfterNode(w, s.dev, s.event).nodes && AfterNode(w, s.dev, s.event).nodes[dev] == w.nodes[dev] by {
          hide MemoryAfter, BlobAfterCut, SentBy;
        }
      }
      hide AfterNode, BoardRuns.Step;
    }
    hide MemoryAfter, BlobAfterCut, SentBy, I.Next, BoardRuns.Step;
  }

  /**
   * In any run of the system each node runs as a board does on its own events, whatever
   * the others do: its memory is that of the board, and its reports on the air are built
   * from the states that the board's were.
   */
  lemma {:induction false} NodesAreBoards(flash: map<string, ConfigStore.Blob>, steps: seq<Step>, dev: string)
    requires dev in flash
    ensures RunsAs(Reached(flash, steps), dev, After(flash[dev], EventsOf(steps, dev)))
  {
    if steps != [] {
      var (before, s) := (steps[..|steps| - 1], steps[|steps| - 1]);
      NodesAreBoards(flash, before, dev);
      StepRunsAsBoard(Reached(flash, before), s, dev, After(flash[dev], EventsOf(before, dev)));
      if s.NodeDoes? && s.dev == dev {
        BoardSnoc(flash[dev], EventsOf(before, dev), s.event);
      } else {
        assert EventsOf(steps, dev) == EventsOf(before, dev);
      }
      hide Next, RunsAs, BoardRuns.Step;
    }
  }

  /** What the server sees of a run: each uplink that is delivered, and what its own stores do. */
  function ServerEvents(flash: map<string, ConfigStore.Blob>, steps: seq<Step>): seq<I.Event> {
    if steps == [] then []
    else
      var (before, s) := (steps[..|steps| - 1], steps[|steps| - 1]);
      var sent := Reached(flash, before).sent;
      ServerEvents(flash, before) +
      if s.Deliver? && s.k < |sent| then
        var up := sent[s.k];
        [I.Arrive(Some(I.Uplink(up.dev, Some(up.fport), up.data, s.time)), s.reached)]
      else if s.ServerDoes? && !s.step.Arrive? then [s.step]
      else []
  }

  /** In any run of the system the server runs as ingestion does on what it sees. */
  lemma {:induction false} ServerIsIngestion(flash: map<string, ConfigStore.Blob>, steps: seq<Step>)
    ensures Reached(flash, steps).store == I.Run(I.EMPTY, ServerEvents(flash, steps))
  {
    if steps != [] {
      var (before, s) := (steps[..|steps| - 1], steps[|steps| - 1]);
      ServerIsIngestion(flash, before);
      var (w, events) := (Reached(flash, before), ServerEvents(flash, before));
      hide MemoryAfter, BlobAfterCut, SentBy, I.Next, I.Run;
      if s.Deliver? && s.k < |w.sent| {
        var up := w.sent[s.k];
        I.RunSnoc(I.EMPTY, events, I.Arrive(Some(I.Uplink(up.dev, Some(up.fport), up.data, s.time)), s.reached));
      } else if s.ServerDoes? && !s.step.Arrive? {
        I.RunSnoc(I.EMPTY, events, s.step);
      } else {
        assert ServerEvents(flash, steps) == events;
      }
    }
  }

  // --------------------------------- Claims ---------------------------------

  /** The settings part of a cache entry. */
  predicate ShowsConfig(c: I.CachedConfig, cfg: Config) {
    && c.intervalS == cfg.sampleIntervalS
    && c.pmOffset == cfg.pmOffsetX10 as real / 10.0
    && c.temperatureOffset == cfg.tempOffsetX100 as real / 100.0
  }

  /**
   * Whatever is lost, repeated or reordered, a cached config is one that the device
   * was running when it built some report.
   */
  lemma {:induction false} CacheShowsAPastConfig(flash: map<string, ConfigStore.Blob>, steps: seq<Step>, dev: string)
    requires dev in Reached(flash, steps).store.config
    ensures
      var w := Reached(flash, steps);
      exists k :: 0 <= k < |w.sent| && w.sent[k].dev == dev && w.sent[k].fport == REPORT_FPORT
                  && Describes(w.store.config[dev], w.sent[k].from) && ShowsConfig(w.store.config[dev], w.sent[k].from.cfg)
                  && ConfigValid(w.sent[k].from.cfg)
  {
    EveryRunKeepsInv(flash, steps);
    var w := Reached(flash, steps);
    assert GoodEntry(w, dev);
    assert GoodUplink(w.sent[w.processed[dev]]);
  }

  /**
   * And it is the config in force once the node has nothing pending and the last
   * report it built is the last one of its reports that was processed.
   */
  lemma {:induction false} CacheIsCurrent(flash: map<string, ConfigStore.Blob>, steps: seq<Step>, dev: string)
    requires
      var w := Reached(flash, steps);
      && dev in w.nodes && w.nodes[dev].ram.Some? && !w.nodes[dev].ram.value.ReportDue()
      && dev in w.store.config && dev in w.processed && LastReport(w.sent, dev) == Some(w.processed[dev])
    ensures
      var w := Reached(flash, steps);
      Describes(w.store.config[dev], w.nodes[dev].ram.value) && ShowsConfig(w.store.config[dev], w.nodes[dev].ram.value.cfg)
  {
    EveryRunKeepsInv(flash, steps);
    var w := Reached(flash, steps);
    var (st, from) := (w.nodes[dev].ram.value, w.sent[w.processed[dev]].from);
    assert GoodEntry(w, dev) && GoodNode(w.sent, dev, w.nodes[dev]);
    ReportIsUnderstood(st);
    ReportIsUnderstood(from);
  }

  /** A report that reaches the cache is what its device's entry then says. */
  lemma ReportMeansCached(w: World, k: nat, time: int)
    requires Inv(w) && k < |w.sent| && w.sent[k].fport == REPORT_FPORT
    ensures
      var w' := AfterDelivery(w, k, time, true);
      && w.sent[k].dev in w'.store.config
      && Describes(w'.store.config[w.sent[k].dev], w.sent[k].from)
      && (forall d :: d in w.store.config ==> d in w'.store.config)
  {
    assert GoodUplink(w.sent[k]);
    ReportArrives(w.sent[k]);
  }

  /** A node that hears a config frame has judged it as the server would, ready to report. */
  lemma FrameTakesEffect(mem: Memory, data: seq<Byte>, env: WakeEnv)
    requires mem.ram.Some? ==> mem.ram.value.Valid()
    requires Heard(env.radio) == Some(Frame(10, data)) && data != []
    ensures MemoryAfter(mem, env).ram == Some(State(Told(data, InForce(mem, env)), 1, data[0], VerdictCode(data)))
  {
    BootIsValid(mem, env.load);
    VerdictsAgree(data, InForce(mem, env));
    hide Told, VerdictCode, Judge, ConfigAfter;
  }

  /** What it builds next is the report of exactly that. */
  lemma FrameIsReported(dev: string, mem: Memory, data: seq<Byte>, env: WakeEnv, env': WakeEnv)
    requires mem.ram.Some? ==> mem.ram.value.Valid()
    requires Heard(env.radio) == Some(Frame(10, data)) && data != []
    ensures
      var up := SentBy(dev, MemoryAfter(mem, env), env');
      && up.dev == dev && up.fport == REPORT_FPORT
      && up.from.cfg == Told(data, InForce(mem, env))
      && up.from.lastCmd == data[0] && up.from.lastResult == VerdictCode(data)
  {
    FrameTakesEffect(mem, data, env);
    hide Told, VerdictCode, InForce;
  }

  /** The name under which the cache shows the server's own verdict on the bytes. */
  function VerdictName(data: seq<Byte>): string {
    match T.DecodeDownlink(data)
    case Throws => "malformed"
    case Ok(cmd) => if T.DownlinkInRange(cmd) then "applied" else "out_of_range"
  }

  // --------------------- Whatever happens in between ---------------------

  lemma {:induction false} SentOnlyGrows(w: World, steps: seq<Step>)
    ensures w.sent <= Steps(w, steps).sent
  {
    hide SentBy, MemoryAfter, BlobAfterCut, I.Next;
    if steps != [] {
      SentOnlyGrows(w, steps[..|steps| - 1]);
    }
  }

  lemma {:induction false} OthersLeaveItsMemory(w: World, steps: seq<Step>, dev: string)
    requires dev in w.nodes && forall i :: 0 <= i < |steps| ==> steps[i].NodeDoes? ==> steps[i].dev != dev
    ensures dev in Steps(w, steps).nodes && Steps(w, steps).nodes[dev] == w.nodes[dev]
  {
    hide SentBy, MemoryAfter, BlobAfterCut, I.Next;
    if steps != [] {
      OthersLeaveItsMemory(w, steps[..|steps| - 1], dev);
    }
  }

  /** The step brings another report of the device than `k` into the cache. */
  predicate Overwrites(w: World, s: Step, dev: string, k: nat) {
    && s.Deliver? && s.reached && s.k < |w.sent| && s.k != k
    && w.sent[s.k].dev == dev && w.sent[s.k].fport == REPORT_FPORT
  }

  predicate NeverOverwritten(w: World, steps: seq<Step>, dev: string, k: nat) {
    forall n :: 0 <= n < |steps| ==> !Overwrites(Steps(w, steps[..n]), steps[n], dev, k)
  }

  /** The cache entry of the device says what report `k` says. */
  predicate ShowsReport(w: World, dev: string, k: nat) {
    k < |w.sent| && dev in w.store.config && Describes(w.store.config[dev], w.sent[k].from)
  }

  /** Deliveries on other ports, of other devices, or out of the cache's reach, change no entry. */
  lemma OtherDelivery(w: World, s: Step, dev: string)
    requires s.Deliver? && s.k < |w.sent|
    requires w.sent[s.k].dev != dev || w.sent[s.k].fport != REPORT_FPORT || !s.reached
    requires dev in w.store.config
    ensures dev in Next(w, s).store.config && Next(w, s).store.config[dev] == w.store.config[dev]
  {
  }

  lemma StepKeepsReport(w: World, s: Step, dev: string, k: nat)
    requires Inv(w) && ShowsReport(w, dev, k) && !Overwrites(w, s, dev, k)
    requires w.sent[k].dev == dev && w.sent[k].fport == REPORT_FPORT
    ensures ShowsReport(Next(w, s), dev, k) && Next(w, s).sent[k] == w.sent[k]
  {
    hide I.Next, Inv, SentBy, MemoryAfter, BlobAfterCut;
    match s
    case NodeDoes(d, e) =>
    case Deliver(j, time, reached) =>
      if j < |w.sent| {
        if j == k && reached {
          ReportMeansCached(w, k, time);
        } else {
          OtherDelivery(w, s, dev);
        }
      }
    case ServerDoes(e) =>
      if !e.Arrive? {
        I.StepOnConfig(w.store, e);
      }
  }

  lemma {:induction false} ReportStays(w: World, steps: seq<Step>, dev: string, k: nat)
    requires Inv(w) && ShowsReport(w, dev, k) && NeverOverwritten(w, steps, dev, k)
    requires w.sent[k].dev == dev && w.sent[k].fport == REPORT_FPORT
    ensures ShowsReport(Steps(w, steps), dev, k) && Steps(w, steps).sent[k] == w.sent[k]
  {
    hide Next, Inv, Describes, Overwrites;
    if steps != [] {
      var n := |steps| - 1;
      assert forall i :: 0 <= i < n ==> steps[..n][..i] == steps[..i];
      ReportStays(w, steps[..n], dev, k);
      StepsKeepInv(w, steps[..n]);
      SentOnlyGrows(w, steps[..n]);
      StepKeepsReport(Steps(w, steps[..n]), steps[n], dev, k);
    }
  }

  /** The second of two wakes sends what the first left to send, whatever others do in between. */
  lemma TwoWakesSend(w: World, dev: string, env: WakeEnv, between: seq<Step>, env': WakeEnv, later: seq<Step>)
    requires Inv(w) && dev in w.nodes
    requires forall i :: 0 <= i < |between| ==> between[i].NodeDoes? ==> between[i].dev != dev
    ensures
      var confirming := Steps(Next(w, NodeDoes(dev, Wake(env))), between);
      var sent := Steps(Next(confirming, NodeDoes(dev, Wake(env'))), later);
      var k := |confirming.sent|;
      && Inv(sent) && k < |sent.sent| && sent.sent[k] == SentBy(dev, MemoryAfter(w.nodes[dev], env), env')
  {
    hide SentBy, MemoryAfter, Inv, Steps, I.Next;
    var w1 := Next(w, NodeDoes(dev, Wake(env)));
    StepKeepsInv(w, NodeDoes(dev, Wake(env)));
    OthersLeaveItsMemory(w1, between, dev);
    StepsKeepInv(w1, between);
    var w2 := Steps(w1, between);
    StepKeepsInv(w2, NodeDoes(dev, Wake(env')));
    var w3 := Next(w2, NodeDoes(dev, Wake(env')));
    assert w3.sent[|w2.sent|] == SentBy(dev, MemoryAfter(w.nodes[dev], env), env');
    SentOnlyGrows(w3, later);
    StepsKeepInv(w3, later);
  }

  /** A report that reaches the cache is shown until another one does. */
  lemma DeliveredIsShown(w: World, dev: string, k: nat, time: int, after: seq<Step>)
    requires Inv(w) && k < |w.sent| && w.sent[k].dev == dev && w.sent[k].fport == REPORT_FPORT
    requires NeverOverwritten(Next(w, Deliver(k, time, true)), after, dev, k)
    ensures
      var end := Steps(Next(w, Deliver(k, time, true)), after);
      dev in end.store.config && Describes(end.store.config[dev], w.sent[k].from)
  {
    hide Inv, Steps, NeverOverwritten, I.Next, Describes;
    ReportMeansCached(w, k, time);
    StepKeepsInv(w, Deliver(k, time, true));
    ReportStays(Next(w, Deliver(k, time, true)), after, dev, k);
  }

  /**
   * There and back: any config frame, good or bad, heard by the node in some wake,
   * confirmed by its next wake and delivered once while the cache is in reach, shows in
   * the cache with its opcode, as applied, out of range or malformed exactly as the
   * server would have judged it, and with the config it leaves in force. Between the two
   * wakes anything may happen to other nodes, the network and the server; after them,
   * anything at all; and after the delivery anything but another report of this node
   * reaching the cache.
   */
  lemma VerdictComesBack(
      flash: map<string, ConfigStore.Blob>, steps: seq<Step>, dev: string, data: seq<Byte>,
      env: WakeEnv, between: seq<Step>, env': WakeEnv, later: seq<Step>, time: int, after: seq<Step>)
    requires dev in Reached(flash, steps).nodes
    requires Heard(env.radio) == Some(Frame(10, data)) && data != []
    requires forall i :: 0 <= i < |between| ==> between[i].NodeDoes? ==> between[i].dev != dev
    requires
      var confirming := Steps(Next(Reached(flash, steps), NodeDoes(dev, Wake(env))), between);
      var sent := Steps(Next(confirming, NodeDoes(dev, Wake(env'))), later);
      NeverOverwritten(Next(sent, Deliver(|confirming.sent|, time, true)), after, dev, |confirming.sent|)
    ensures
      var w := Reached(flash, steps);
      var confirming := Steps(Next(w, NodeDoes(dev, Wake(env))), between);
      var sent := Steps(Next(confirming, NodeDoes(dev, Wake(env'))), later);
      var end := Steps(Next(sent, Deliver(|confirming.sent|, time, true)), after);
      && dev in end.store.config
      && end.store.config[dev].lastResult == VerdictName(data)
      && end.store.config[dev].lastCommand == data[0]
      && ShowsConfig(end.store.config[dev], Told(data, InForce(w.nodes[dev], env)))
  {
    EveryRunKeepsInv(flash, steps);
    var w := Reached(flash, steps);
    assert GoodNode(w.sent, dev, w.nodes[dev]);
    FrameIsReported(dev, w.nodes[dev], data, env, env');
    hide Told, InForce, T.DecodeDownlink, SentBy, MemoryAfter, Inv, Steps, Next, NeverOverwritten, Reached, Describes,
      ShowsConfig, VerdictName, VerdictCode;
    TwoWakesSend(w, dev, env, between, env', later);
    var k := |Steps(Next(w, NodeDoes(dev, Wake(env))), between).sent|;
    var sent := Steps(Next(Steps(Next(w, NodeDoes(dev, Wake(env))), between), NodeDoes(dev, Wake(env'))), later);
    DeliveredIsShown(sent, dev, k, time, after);
    DescribedVerdict(Steps(Next(sent, Deliver(k, time, true)), after).store.config[dev], sent.sent[k].from, data);
  }

  lemma DescribedVerdict(c: I.CachedConfig, st: State, data: seq<Byte>)
    requires Describes(c, st) && st.lastResult == VerdictCode(data)
    ensures c.lastResult == VerdictName(data) && c.lastCommand == st.lastCmd && ShowsConfig(c, st.cfg)
  {
  }

  lemma EncodedIsApplied(cmd: T.DownlinkCommand, cfg: Config)
    requires ConfigValid(cfg) && T.EncodedDownlink(cmd).Ok?
    ensures
      var data := T.EncodedDownlink(cmd).value;
      && T.Representable(cmd) && |data| == 3 && VerdictName(data) == "applied" && Told(data, cfg) == With(cfg, cmd)
  {
    EncoderAcceptsWhatTheNodeApplies(cmd, cfg);
  }

  /**
   * A cold boot without a command, seen from the server: its report shows the config it
   * took up, with no command and no result.
   */
  lemma ColdBootComesBack(
      flash: map<string, ConfigStore.Blob>, steps: seq<Step>, dev: string,
      env: WakeEnv, between: seq<Step>, env': WakeEnv, later: seq<Step>, time: int, after: seq<Step>)
    requires dev in Reached(flash, steps).nodes && Reached(flash, steps).nodes[dev].ram.None? && Heard(env.radio).None?
    requires forall i :: 0 <= i < |between| ==> between[i].NodeDoes? ==> between[i].dev != dev
    requires
      var confirming := Steps(Next(Reached(flash, steps), NodeDoes(dev, Wake(env))), between);
      var sent := Steps(Next(confirming, NodeDoes(dev, Wake(env'))), later);
      NeverOverwritten(Next(sent, Deliver(|confirming.sent|, time, true)), after, dev, |confirming.sent|)
    ensures
      var w := Reached(flash, steps);
      var confirming := Steps(Next(w, NodeDoes(dev, Wake(env))), between);
      var sent := Steps(Next(confirming, NodeDoes(dev, Wake(env'))), later);
      var end := Steps(Next(sent, Deliver(|confirming.sent|, time, true)), after);
      && dev in end.store.config
      && end.store.config[dev].lastResult == "none" && end.store.config[dev].lastCommand == 0
      && ShowsConfig(end.store.config[dev], InForce(w.nodes[dev], env))
  {
    EveryRunKeepsInv(flash, steps);
    var w := Reached(flash, steps);
    var mem := w.nodes[dev];
    ColdBootLeavesReport(dev, mem, env, env');
    hide InForce, SentBy, MemoryAfter, Inv, Steps, Next, NeverOverwritten, Reached, Describes, ShowsConfig;
    TwoWakesSend(w, dev, env, between, env', later);
    var k := |Steps(Next(w, NodeDoes(dev, Wake(env))), between).sent|;
    var sent := Steps(Next(Steps(Next(w, NodeDoes(dev, Wake(env))), between), NodeDoes(dev, Wake(env'))), later);
    DeliveredIsShown(sent, dev, k, time, after);
    DescribedCold(Steps(Next(sent, Deliver(k, time, true)), after).store.config[dev], sent.sent[k].from);
  }

  lemma ColdBootLeavesReport(dev: string, mem: Memory, env: WakeEnv, env': WakeEnv)
    requires mem.ram.None? && Heard(env.radio).None?
    ensures
      var up := SentBy(dev, MemoryAfter(mem, env), env');
      && up.dev == dev && up.fport == REPORT_FPORT
      && up.from.cfg == InForce(mem, env) && up.from.lastCmd == 0 && up.from.lastResult == 0
  {
    BootIsValid(mem, env.load);
  }

  lemma DescribedCold(c: I.CachedConfig, st: State)
    requires Describes(c, st) && st.lastCmd == 0 && st.lastResult == 0
    ensures c.lastResult == "none" && c.lastCommand == 0 && ShowsConfig(c, st.cfg)
  {
  }

  /**
   * In particular a command from the server: encoded, heard, confirmed and delivered, it
   * shows as applied, with its one setting changed and the two others as they were.
   */
  lemma CommandComesBackApplied(
      flash: map<string, ConfigStore.Blob>, steps: seq<Step>, dev: string, cmd: T.DownlinkCommand,
      env: WakeEnv, between: seq<Step>, env': WakeEnv, later: seq<Step>, time: int, after: seq<Step>)
    requires dev in Reached(flash, steps).nodes
    requires T.EncodedDownlink(cmd).Ok?
    requires env.radio == Sent(Some(Frame(10, T.EncodedDownlink(cmd).value)))
    requires forall i :: 0 <= i < |between| ==> between[i].NodeDoes? ==> between[i].dev != dev
    requires
      var confirming := Steps(Next(Reached(flash, steps), NodeDoes(dev, Wake(env))), between);
      var sent := Steps(Next(confirming, NodeDoes(dev, Wake(env'))), later);
      NeverOverwritten(Next(sent, Deliver(|confirming.sent|, time, true)), after, dev, |confirming.sent|)
    ensures
      var w := Reached(flash, steps);
      var confirming := Steps(Next(w, NodeDoes(dev, Wake(env))), between);
      var sent := Steps(Next(confirming, NodeDoes(dev, Wake(env'))), later);
      var end := Steps(Next(sent, Deliver(|confirming.sent|, time, true)), after);
      && dev in end.store.config
      && end.store.config[dev].lastResult == "applied"
      && end.store.config[dev].lastCommand == T.EncodedDownlink(cmd).value[0]
      && T.Representable(cmd)
      && ShowsConfig(end.store.config[dev], With(InForce(w.nodes[dev], env), cmd))
  {
    var w := Reached(flash, steps);
    EveryRunKeepsInv(flash, steps);
    assert GoodNode(w.sent, dev, w.nodes[dev]);
    BootIsValid(w.nodes[dev], env.load);
    EncodedIsApplied(cmd, InForce(w.nodes[dev], env));
    hide Told, With, VerdictName, T.EncodedDownlink, SentBy, MemoryAfter, Inv, Steps, Next, NeverOverwritten, Reached;
    VerdictComesBack(flash, steps, dev, T.EncodedDownlink(cmd).value, env, between, env', later, time, after);
  }

  // -------------------------------- Readings --------------------------------

  /** What a sampled value is after calibration. */
  function CorrectedPm25(cfg: Config, pm25: real): real {
    var c := pm25 + cfg.pmOffsetX10 as real / 10.0;
    if c < 0.0 then 0.0 else c
  }

  /** Each group of a calibrated sample is the corrected reading, or zeros and a clear bit. */
  lemma CalibratedSample(cfg: Config, hal: P.Hal)
    ensures
      var r := P.Calibrated(cfg, P.Sampled(hal));
      && r.present == (if hal.pm.Some? then 16 else 0) + (if hal.env.Some? then 32 else 0)
      && (P.HasPm(r.present) <==> hal.pm.Some?) && (P.HasEnv(r.present) <==> hal.env.Some?)
      && (r.pm25, r.pm10) == (if hal.pm.Some? then (CorrectedPm25(cfg, hal.pm.value.0), hal.pm.value.1) else (0.0, 0.0))
      && r.temperature == (if hal.env.Some? then hal.env.value.0 + cfg.tempOffsetX100 as real / 100.0 else 0.0)
      && (r.humidity, r.pressure) == (if hal.env.Some? then (hal.env.value.1, hal.env.value.2) else (0.0, 0.0))
      && r.batteryMv == hal.batteryMv
  {
  }

  /** The values of a sample that the server stores, to half a wire step. */
  predicate Storable(temperature: real, humidity: real, pressure: real) {
    -40.005 < temperature < 85.005 && humidity < 100.005 && 299.5 <= pressure < 1100.5
  }

  lemma StorableOnTheWire(temperature: real, humidity: real, pressure: real)
    ensures Storable(temperature, humidity, pressure) <==>
      && -4000 <= P.ClampI16(temperature * 100.0) <= 8500
      && P.ClampU16(humidity * 100.0) <= 10000
      && 300 <= P.ClampU16(pressure) <= 1100
  {
  }

  lemma WordsOfReading(r: P.Reading)
    ensures
      var b := P.Encoded(r);
      && T.SignedWord(b, 4) == P.ClampI16(r.temperature * 100.0)
      && T.Unsigned(b, 6) == P.ClampU16(r.humidity * 100.0)
      && T.Unsigned(b, 8) == P.ClampU16(r.pressure)
      && (I.AllPresent(b[12]) <==> P.HasPm(r.present) && P.HasEnv(r.present))
  {
    FirmwareWords(r);
    hide P.Encoded, P.ClampU16, P.ClampI16;
  }

  /**
   * From the sensors to the database: a reading of a named device is stored exactly when
   * both sensor groups answered and its corrected values are in range, and then each
   * stored value is the corrected one, saturated to its wire field, within half a wire
   * step.
   */
  lemma StoredReadingIsTheSample(cfg: Config, hal: P.Hal, dev: string, time: int)
    ensures
      var e := I.Uplink(dev, Some(P.DATA_FPORT), Base64.Encode(P.ReadingPayload(cfg, hal)), time);
      var content := I.ContentOf(Some(e));
      && (content.Reading? <==>
            && dev != "" && hal.pm.Some? && hal.env.Some?
            && Storable(hal.env.value.0 + cfg.tempOffsetX100 as real / 100.0, hal.env.value.1, hal.env.value.2))
      && (content.Reading? ==>
            var row := content.row;
            && row.sensorId == dev && row.time == time
            && Within(row.pm25, CorrectedPm25(cfg, hal.pm.value.0), 0.0, 6553.5, 0.05)
            && Within(row.pm10, hal.pm.value.1, 0.0, 6553.5, 0.05)
            && Within(row.temperature, hal.env.value.0 + cfg.tempOffsetX100 as real / 100.0, -327.68, 327.67, 0.005)
            && Within(row.humidity, hal.env.value.1, 0.0, 655.35, 0.005)
            && Within(row.pressure, hal.env.value.2, 0.0, 65535.0, 0.5)
            && row.batteryMv == hal.batteryMv as real
            && row.aqi == Aqi.Calculate(Aqi.Finite(row.pm25), Aqi.Finite(row.pm10)).aqi)
  {
    var r := P.Calibrated(cfg, P.Sampled(hal));
    CalibratedSample(cfg, hal);
    DecodeOfFirmwareReading(r);
    Base64.DecodeUndoesEncode(P.Encoded(r));
    I.ContentOnTheWire(dev, Some(2), P.Encoded(r), time);
    WordsOfReading(r);
    StorableOnTheWire(r.temperature, r.humidity, r.pressure);
    hide P.Encoded, P.Calibrated, P.Sampled, P.ClampU16, P.ClampI16, T.DecodeUplink, Aqi.Calculate, Within, CorrectedPm25,
      T.Unsigned, T.SignedWord, I.AllPresent, Storable;
  }
}
