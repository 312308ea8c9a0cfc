/**
 * The server end of the protocol: `handleUplink` and `handleConfigReport` in
 * services/ingestion/src/ingestion/ingestion.service.ts.
 *
 * Nothing waits for `handleUplink`: it runs up to its first `await`, and the next
 * message may come before its insert, its cache write or its broadcast is through.
 * A run is therefore a sequence of arrivals and of what the database and Redis do
 * about the calls under way, in any order and with any failures.
 */
module Ingestion {
  import opened Bytes
  import opened Options
  import opened TelemetryCodec
  import Aqi
  import Base64

  const DATA_FPORT: Byte := 2

  /** A ChirpStack uplink event; `time` is its timestamp, or the clock's if it has none. */
  datatype Uplink = Uplink(devEui: string, fPort: Option<int>, data: string, time: int)

  /** The settings cached under `sensor:config:<devEui>`. */
  datatype CachedConfig = CachedConfig(
    intervalS: nat, pmOffset: real, temperatureOffset: real, lastCommand: Byte, lastResult: string, reportedAt: int)

  datatype Row = Row(
    sensorId: string, time: int, pm25: real, pm10: real, temperature: real, humidity: real, pressure: real,
    batteryMv: real, aqi: int, category: Aqi.Category)

  /** What a call waits for; an insert has an effect before it is acknowledged. */
  datatype Phase = Inserting | Inserted | Caching(reached: bool) | Publishing

  datatype Call = Call(row: Row, phase: Phase) {
    /** Its cache write is still to come. */
    predicate BeforeSet() {
      phase.Inserting? || phase.Inserted?
    }
  }

  /**
   * Redis, the database, and what is under way, numbered in order of arrival: `calls`
   * for readings, and `writes` for config reports, whose cache write is either under
   * way to Redis (true) or lost. `confirmed` counts config reports that are through.
   */
  datatype Store = Store(
    config: map<string, CachedConfig>,
    rows: map<(string, int), Row>,
    latest: map<string, Row>,
    published: seq<Row>,
    calls: map<nat, Call>,
    writes: map<nat, bool>,
    arrived: nat,
    ingested: nat,
    confirmed: nat,
    dropped: nat)

  const EMPTY := Store(map[], map[], map[], [], map[], map[], 0, 0, 0, 0)

  /**
   * A message arrives (None does not parse), an insert takes effect, or a call goes on
   * after its insert, its cache write or its broadcast, or a config report after its
   * cache write; `ok` is false for an exception, and `reached` says whether a cache
   * write that is issued takes effect.
   */
  datatype Event =
    | Arrive(msg: Option<Uplink>, reached: bool)
    | InsertRuns(c: nat)
    | InsertAcked(c: nat, ok: bool, reached: bool)
    | SetAcked(c: nat, ok: bool)
    | PublishAcked(c: nat, ok: bool)
    | ConfigAcked(c: nat, ok: bool)

  function ResultName(r: Byte): string {
    if r == 0 then "none" else if r == 1 then "applied" else if r == 2 then "out_of_range" else "malformed"
  }

  function Cached(r: ConfigReport, time: int): CachedConfig {
    CachedConfig(r.intervalS, r.pmOffsetX10 as real / 10.0, r.tempOffsetX100 as real / 100.0,
                 r.lastCommand, ResultName(r.lastResult), time)
  }

  /** `Buffer.from(data, 'base64')` followed by a decoder of the codec. */
  function Bytes64(data: string): Result<seq<Byte>> {
    match Base64.Decode(data)
    case Some(b) => Ok(b)
    case None => Throws
  }

  function ReportIn(data: string): Result<ConfigReport> {
    match Bytes64(data)
    case Ok(b) => DecodeConfigReport(b)
    case Throws => Throws
  }

  function PayloadIn(data: string): Result<DecodedPayload> {
    match Bytes64(data)
    case Ok(b) => DecodeUplink(b)
    case Throws => Throws
  }

  predicate HasPm(d: DecodedPayload) {
    d.sensorsPresent.Some? && d.sensorsPresent.value.pm
  }

  predicate HasEnv(d: DecodedPayload) {
    d.sensorsPresent.Some? && d.sensorsPresent.value.env
  }

  /** Both sensor groups reported. */
  predicate Complete(d: DecodedPayload) {
    HasPm(d) && HasEnv(d)
  }

  /** `SensorReadingSchema` accepts the decoded fields; the device must have a name besides. */
  predicate MeetsContract(d: DecodedPayload) {
    && 0.0 <= d.pm25 <= 6553.5 && 0.0 <= d.pm10 <= 6553.5
    && -40.0 <= d.temperature <= 85.0 && 0.0 <= d.humidity <= 100.0 && 300.0 <= d.pressure <= 1100.0
  }

  function RowOf(e: Uplink, d: DecodedPayload): Row {
    var aqi := Aqi.Calculate(Aqi.Finite(d.pm25), Aqi.Finite(d.pm10));
    Row(e.devEui, e.time, d.pm25, d.pm10, d.temperature, d.humidity, d.pressure, d.batteryMv, aqi.aqi, aqi.category)
  }

  /** The reading a data uplink stands for, if it is stored at all. */
  function Accepted(e: Uplink): Option<Row> {
    if e.fPort != Some(DATA_FPORT) || PayloadIn(e.data).Throws? then None
    else
      var d := PayloadIn(e.data).value;
      if Complete(d) && e.devEui != "" && MeetsContract(d) then Some(RowOf(e, d)) else None
  }

  /** What a message comes to: nothing usable, another port's business, or one of the two kinds. */
  datatype Content = Unusable | Foreign | Report(devEui: string, entry: CachedConfig) | Reading(row: Row)

  function ContentOf(msg: Option<Uplink>): Content {
    match msg
    case None => Unusable
    case Some(e) =>
      if e.fPort == Some(CONFIG_REPORT_FPORT) then
        match ReportIn(e.data)
        case Throws => Unusable
        case Ok(r) => Report(e.devEui, Cached(r, e.time))
      else if e.fPort != Some(DATA_FPORT) then Foreign
      else
        match Accepted(e)
        case None => Unusable
        case Some(row) => Reading(row)
  }

  /** `handleUplink` up to its first `await`. */
  function Arrived(s: Store, content: Content, reached: bool): Store {
    match content
    case Unusable => s.(dropped := s.dropped + 1)
    case Foreign => s
    case Report(devEui, entry) =>
      s.(config := if reached then s.config[devEui := entry] else s.config,
         writes := s.writes[s.arrived := reached], arrived := s.arrived + 1)
    case Reading(row) =>
      s.(calls := s.calls[s.arrived := Call(row, Inserting)], arrived := s.arrived + 1)
  }

  function Key(row: Row): (string, int) {
    (row.sensorId, row.time)
  }

  function InPhase(s: Store, c: nat, phase: Phase): Store
    requires c in s.calls
  {
    s.(calls := s.calls[c := Call(s.calls[c].row, phase)])
  }

  function Failed(s: Store, c: nat): Store {
    s.(calls := s.calls - {c}, dropped := s.dropped + 1)
  }

  /** The end of a config report, which cannot be acknowledged if its write was lost. */
  function ConfigEnded(s: Store, c: nat, ok: bool): Store {
    if c !in s.writes || (ok && !s.writes[c]) then s
    else if ok then s.(writes := s.writes - {c}, confirmed := s.confirmed + 1)
    else s.(writes := s.writes - {c}, dropped := s.dropped + 1)
  }

  /** A call goes on. Events that do not fit its phase cannot happen and change nothing. */
  function Moved(s: Store, e: Event): Store
    requires !e.Arrive? && !e.ConfigAcked? && e.c in s.calls
  {
    var (c, row, phase) := (e.c, s.calls[e.c].row, s.calls[e.c].phase);
    match e
    case InsertRuns(_) =>
      if !phase.Inserting? then s
      else InPhase(s, c, Inserted).(rows := if Key(row) in s.rows then s.rows else s.rows[Key(row) := row])
    case InsertAcked(_, ok, reached) =>
      if !s.calls[c].BeforeSet() then s
      else if !ok then Failed(s, c)
      else if phase.Inserting? then s
      else InPhase(s, c, Caching(reached)).(latest := if reached then s.latest[row.sensorId := row] else s.latest)
    case SetAcked(_, ok) =>
      if !phase.Caching? then s
      else if !ok then Failed(s, c)
      else if !phase.reached then s
      else InPhase(s, c, Publishing).(published := s.published + [row])
    case PublishAcked(_, ok) =>
      if !phase.Publishing? then s
      else if !ok then Failed(s, c)
      else s.(calls := s.calls - {c}, ingested := s.ingested + 1)
  }

  function Next(s: Store, e: Event): Store {
    if e.Arrive? then Arrived(s, ContentOf(e.msg), e.reached)
    else if e.ConfigAcked? then ConfigEnded(s, e.c, e.ok)
    else if e.c in s.calls then Moved(s, e)
    else s
  }

  function Run(s: Store, events: seq<Event>): Store
    decreases |events|
  {
    if events == [] then s else Run(Next(s, events[0]), events[1..])
  }

  class IngestionService {
    var config: map<string, CachedConfig>
    var rows: map<(string, int), Row>
    var latest: map<string, Row>
    var published: seq<Row>
    var calls: map<nat, Call>
    var writes: map<nat, bool>
    var arrived: nat
    var ingested: nat
    var confirmed: nat
    var dropped: nat

    constructor ()
      ensures Value() == EMPTY
    {
      config, rows, latest, published := map[], map[], map[], [];
      calls, writes, arrived, ingested, confirmed, dropped := map[], map[], 0, 0, 0, 0;
    }

    function Value(): Store
      reads this
    {
      Store(config, rows, latest, published, calls, writes, arrived, ingested, confirmed, dropped)
    }

    /** `handleConfigReport` until it waits for its write; false is an exception before that. */
    method HandleConfigReport(devEui: string, data: string, time: int, reached: bool) returns (ok: bool)
      modifies this`config, this`writes, this`arrived
      ensures ok == ReportIn(data).Ok?
      ensures config ==
        if ok && reached then old(config)[devEui := Cached(ReportIn(data).value, time)] else old(config)
      ensures writes == if ok then old(writes)[old(arrived) := reached] else old(writes)
      ensures arrived == if ok then old(arrived) + 1 else old(arrived)
    {
      var bytes := Base64.Decode(data);
      if bytes.None? {
        return false;
      }
      var report := DecodeConfigReport(bytes.value);
      if report.Throws? {
        return false;
      }
      if reached {
        config := config[devEui := Cached(report.value, time)];
      }
      writes := writes[arrived := reached];
      arrived := arrived + 1;
      return true;
    }

    /** The rest of it, and of the call that waits for it. */
    method AfterConfig(c: nat, ok: bool)
      requires c in writes && (ok ==> writes[c])
      modifies this`writes, this`confirmed, this`dropped
      ensures Value() == Next(old(Value()), ConfigAcked(c, ok))
    {
      writes := writes - {c};
      if ok {
        confirmed := confirmed + 1;
      } else {
        dropped := dropped + 1;
      }
    }

    /** `handleUplink` until it issues its insert, or its config write. */
    method HandleUplink(msg: Option<Uplink>, reached: bool)
      modifies this
      ensures Value() == Next(old(Value()), Arrive(msg, reached))
    {
      hide Base64.Decode, DecodeUplink, DecodeConfigReport, HasPm, HasEnv, MeetsContract, RowOf, Cached;
      if msg.None? {
        dropped := dropped + 1;
        return;
      }
      var uplink := msg.value;
      if uplink.fPort == Some(CONFIG_REPORT_FPORT) {
        var ok := HandleConfigReport(uplink.devEui, uplink.data, uplink.time, reached);
        if !ok {
          dropped := dropped + 1;
        }
        return;
      }
      if uplink.fPort != Some(DATA_FPORT) {
        return;
      }
      var bytes := Base64.Decode(uplink.data);
      if bytes.None? {
        dropped := dropped + 1;
        return;
      }
      var decoded := DecodeUplink(bytes.value);
      if decoded.Throws? {
        dropped := dropped + 1;
        return;
      }
      var d := decoded.value;
      if !HasPm(d) && !HasEnv(d) {
        dropped := dropped + 1;
        return;
      }
      if !HasPm(d) || !HasEnv(d) {
        dropped := dropped + 1;
        return;
      }
      if uplink.devEui == "" || !MeetsContract(d) {
        dropped := dropped + 1;
        return;
      }
      calls := calls[arrived := Call(RowOf(uplink, d), Inserting)];
      arrived := arrived + 1;
    }

    /** The database executes an insert, with `onConflictDoNothing`. */
    method Insert(c: nat)
      requires c in calls && calls[c].phase.Inserting?
      modifies this`rows, this`calls
      ensures Value() == Next(old(Value()), InsertRuns(c))
    {
      var row := calls[c].row;
      if (row.sensorId, row.time) !in rows {
        rows := rows[(row.sensorId, row.time) := row];
      }
      calls := calls[c := Call(row, Inserted)];
    }

    /** The `catch` block. */
    method Catch(c: nat)
      modifies this`calls, this`dropped
      ensures Value() == Failed(old(Value()), c)
    {
      calls := calls - {c};
      dropped := dropped + 1;
    }

    /** From the insert to the cache write. */
    method AfterInsert(c: nat, ok: bool, reached: bool)
      requires c in calls && (calls[c].phase.Inserted? || (calls[c].phase.Inserting? && !ok))
      modifies this`latest, this`calls, this`dropped
      ensures Value() == Next(old(Value()), InsertAcked(c, ok, reached))
    {
      if !ok {
        Catch(c);
        return;
      }
      var row := calls[c].row;
      if reached {
        latest := latest[row.sensorId := row];
      }
      calls := calls[c := Call(row, Caching(reached))];
    }

    /** From the cache write to the broadcast. */
    method AfterSet(c: nat, ok: bool)
      requires c in calls && calls[c].phase.Caching? && (ok ==> calls[c].phase.reached)
      modifies this`published, this`calls, this`dropped
      ensures Value() == Next(old(Value()), SetAcked(c, ok))
    {
      if !ok {
        Catch(c);
        return;
      }
      published := published + [calls[c].row];
      calls := calls[c := Call(calls[c].row, Publishing)];
    }

    /** From the broadcast to the end. */
    method AfterPublish(c: nat, ok: bool)
      requires c in calls && calls[c].phase.Publishing?
      modifies this`calls, this`ingested, this`dropped
      ensures Value() == Next(old(Value()), PublishAcked(c, ok))
    {
      if !ok {
        Catch(c);
        return;
      }
      calls := calls - {c};
      ingested := ingested + 1;
    }
  }

  // ------------------------- What the stores hold -------------------------

  function Lookup<K, V>(m: map<K, V>, k: K): Option<V> {
    if k in m then Some(m[k]) else None
  }

  /** The reading whose insert takes effect. */
  function InsertedBy(s: Store, e: Event): Option<Row> {
    if e.InsertRuns? && e.c in s.calls && s.calls[e.c].phase.Inserting? then Some(s.calls[e.c].row) else None
  }

  /** The reading whose cache write takes effect. */
  function SetBy(s: Store, e: Event): Option<Row> {
    if e.InsertAcked? && e.ok && e.reached && e.c in s.calls && s.calls[e.c].phase.Inserted?
    then Some(s.calls[e.c].row) else None
  }

  function FirstInserted(s: Store, events: seq<Event>, key: (string, int)): Option<Row>
    decreases |events|
  {
    if events == [] then None
    else
      var row := InsertedBy(s, events[0]);
      if row.Some? && Key(row.value) == key then row else FirstInserted(Next(s, events[0]), events[1..], key)
  }

  function LastSet(s: Store, events: seq<Event>, sensorId: string): Option<Row>
    decreases |events|
  {
    if events == [] then None
    else
      var later := LastSet(Next(s, events[0]), events[1..], sensorId);
      var row := SetBy(s, events[0]);
      if later.Some? then later
      else if row.Some? && row.value.sensorId == sensorId then row
      else None
  }

  /** The database keeps the first reading inserted for a sensor and time; a repeat changes nothing. */
  lemma {:induction false} RowsKeepTheFirst(s: Store, events: seq<Event>, key: (string, int))
    ensures Lookup(Run(s, events).rows, key) ==
      if key in s.rows then Some(s.rows[key]) else FirstInserted(s, events, key)
    decreases |events|
  {
    hide Next;
    if events != [] {
      StepOnStores(s, events[0]);
      RowsKeepTheFirst(Next(s, events[0]), events[1..], key);
    }
  }

  /** The latest-value cache holds the reading written last, in whatever order they arrived. */
  lemma {:induction false} LatestKeepsTheLastSet(s: Store, events: seq<Event>, sensorId: string)
    ensures Lookup(Run(s, events).latest, sensorId) ==
      var last := LastSet(s, events, sensorId);
      if last.Some? then last else Lookup(s.latest, sensorId)
    decreases |events|
  {
    hide Next;
    if events != [] {
      StepOnStores(s, events[0]);
      LatestKeepsTheLastSet(Next(s, events[0]), events[1..], sensorId);
    }
  }

  /** Was accepted from some message of the run. */
  predicate ArrivedIn(events: seq<Event>, row: Row) {
    exists k :: 0 <= k < |events| && events[k].Arrive? && ContentOf(events[k].msg) == Reading(row)
  }

  predicate Stored(s: Store, row: Row) {
    Key(row) in s.rows
  }

  /** Call numbers are not used twice. */
  predicate Numbered(s: Store) {
    && (forall c :: c in s.calls ==> c < s.arrived)
    && (forall c :: c in s.writes ==> c < s.arrived)
  }

  predicate GoodCall(events: seq<Event>, s: Store, call: Call) {
    && ArrivedIn(events, call.row)
    && (call.phase.Inserting? || Stored(s, call.row))
    && (call.phase.Publishing? || call.phase == Caching(true) ==> call.row.sensorId in s.latest)
  }

  predicate GoodStores(events: seq<Event>, s: Store) {
    && (forall k :: k in s.rows ==> Key(s.rows[k]) == k && ArrivedIn(events, s.rows[k]))
    && (forall d :: d in s.latest ==>
          s.latest[d].sensorId == d && Stored(s, s.latest[d]) && ArrivedIn(events, s.latest[d]))
    && (forall row :: row in s.published ==> Stored(s, row) && row.sensorId in s.latest && ArrivedIn(events, row))
  }

  predicate Inv(events: seq<Event>, s: Store) {
    Numbered(s) && GoodStores(events, s) && forall c :: c in s.calls ==> GoodCall(events, s, s.calls[c])
  }

  /** Arrivals that end in one of the counters: all but those on other ports, or on none. */
  predicate Counted(e: Event) {
    e.Arrive? && !ContentOf(e.msg).Foreign?
  }

  function CountedIn(events: seq<Event>): nat {
    if events == [] then 0
    else CountedIn(events[..|events| - 1]) + if Counted(events[|events| - 1]) then 1 else 0
  }

  lemma {:induction false} RunSnoc(s: Store, events: seq<Event>, e: Event)
    ensures Run(s, events + [e]) == Next(Run(s, events), e)
    decreases |events|
  {
    hide Next;
    var all := events + [e];
    if events == [] {
      assert all[1..] == [];
    } else {
      RunSnoc(Next(s, events[0]), events[1..], e);
      assert all[1..] == events[1..] + [e];
    }
  }

  /** Every run ends with the step for its last event. */
  lemma RunLast(events: seq<Event>)
    requires events != []
    ensures Run(EMPTY, events) == Next(Run(EMPTY, events[..|events| - 1]), events[|events| - 1])
  {
    hide Next;
    RunSnoc(EMPTY, events[..|events| - 1], events[|events| - 1]);
    assert events == events[..|events| - 1] + [events[|events| - 1]];
  }

  lemma ArrivedStays(events: seq<Event>, row: Row)
    requires events != [] && ArrivedIn(events[..|events| - 1], row)
    ensures ArrivedIn(events, row)
  {
    hide ContentOf;
    var k :| 0 <= k < |events| - 1 && events[k].Arrive? && ContentOf(events[k].msg) == Reading(row);
  }

  lemma LongerRunKeepsInv(events: seq<Event>, s: Store)
    requires events != [] && Inv(events[..|events| - 1], s)
    ensures Inv(events, s)
  {
    hide ContentOf, ArrivedIn;
    forall row | ArrivedIn(events[..|events| - 1], row)
      ensures ArrivedIn(events, row)
    {
      ArrivedStays(events, row);
    }
  }

  lemma NowArrived(events: seq<Event>, e: Event)
    requires e in events && e.Arrive? && ContentOf(e.msg).Reading?
    ensures ArrivedIn(events, ContentOf(e.msg).row)
  {
    hide ContentOf;
  }

  /** An arrival touches no reading's store, and adds at most its own call. */
  lemma ArrivalOnStores(s: Store, content: Content, reached: bool)
    ensures
      var s' := Arrived(s, content, reached);
      && s'.rows == s.rows && s'.latest == s.latest && s'.published == s.published
      && s'.calls == (if content.Reading? then s.calls[s.arrived := Call(content.row, Inserting)] else s.calls)
  {
  }

  lemma ConfigOnCalls(s: Store, c: nat, ok: bool)
    ensures
      var s' := ConfigEnded(s, c, ok);
      s'.calls == s.calls && s'.arrived == s.arrived && s'.writes.Keys <= s.writes.Keys
  {
  }

  /** A move changes or ends its own call. */
  lemma MoveOnCalls(s: Store, e: Event)
    requires !e.Arrive? && !e.ConfigAcked? && e.c in s.calls
    ensures
      var s' := Moved(s, e);
      && s'.arrived == s.arrived && s'.writes == s.writes
      && (s'.calls == s.calls - {e.c} || (e.c in s'.calls && s'.calls == s.calls[e.c := s'.calls[e.c]]))
  {
    var (c, call) := (e.c, s.calls[e.c]);
    assert s.calls == s.calls[c := call];
    match e
    case InsertRuns(_) => assert e.c in Moved(s, e).calls;
    case InsertAcked(_, ok, _) => assert ok ==> e.c in Moved(s, e).calls;
    case SetAcked(_, ok) => assert ok ==> e.c in Moved(s, e).calls;
    case PublishAcked(_, _) =>
  }

  lemma StepKeepsNumbers(s: Store, e: Event)
    requires Numbered(s)
    ensures Numbered(Next(s, e))
  {
    hide Moved, ContentOf, ConfigEnded;
    if e.ConfigAcked? {
      ConfigOnCalls(s, e.c, e.ok);
    } else if !e.Arrive? && e.c in s.calls {
      MoveOnCalls(s, e);
    }
  }

  /** The reading whose broadcast is issued. */
  function PublishedBy(s: Store, e: Event): Option<Row> {
    if e.SetAcked? && e.ok && e.c in s.calls && s.calls[e.c].phase == Caching(true) then Some(s.calls[e.c].row) else None
  }

  /** The stores change by the effects that a step has, and in no other way. */
  lemma StepOnStores(s: Store, e: Event)
    ensures
      var (s', i, c, p) := (Next(s, e), InsertedBy(s, e), SetBy(s, e), PublishedBy(s, e));
      && s'.rows == (if i.None? || Key(i.value) in s.rows then s.rows else s.rows[Key(i.value) := i.value])
      && s'.latest == (if c.None? then s.latest else s.latest[c.value.sensorId := c.value])
      && s'.published == (if p.None? then s.published else s.published + [p.value])
  {
    hide Arrived, ContentOf;
    if e.Arrive? {
      ArrivalOnStores(s, ContentOf(e.msg), e.reached);
    }
  }

  /** Nothing but an arrival changes the cached settings. */
  lemma StepOnConfig(s: Store, e: Event)
    requires !e.Arrive?
    ensures Next(s, e).config == s.config
  {
    hide Arrived, ContentOf;
  }

  /** What one step adds to the stores comes from its call, and what was there stays. */
  lemma StepKeepsStores(events: seq<Event>, s: Store, e: Event)
    requires GoodStores(events, s)
    requires !e.Arrive? && e.c in s.calls ==> GoodCall(events, s, s.calls[e.c])
    ensures GoodStores(events, Next(s, e))
  {
    hide Next, ArrivedIn;
    StepOnStores(s, e);
  }

  lemma StoresOnlyGrow(s: Store, e: Event)
    ensures forall row :: Stored(s, row) ==> Stored(Next(s, e), row)
    ensures forall d :: d in s.latest ==> d in Next(s, e).latest
  {
    hide Next;
    StepOnStores(s, e);
  }

  /** The other calls wait. */
  lemma StepOnOtherCall(s: Store, e: Event, c: nat)
    requires if e.Arrive? then c != s.arrived else e.ConfigAcked? || c != e.c
    ensures (c in Next(s, e).calls <==> c in s.calls) && (c in s.calls ==> Next(s, e).calls[c] == s.calls[c])
  {
    hide Arrived, Moved, ConfigEnded, ContentOf;
    if e.Arrive? {
      ArrivalOnStores(s, ContentOf(e.msg), e.reached);
    } else if e.ConfigAcked? {
      ConfigOnCalls(s, e.c, e.ok);
    } else if e.c in s.calls {
      MoveOnCalls(s, e);
    }
  }

  /** A call goes from phase to phase as its effects take place. */
  lemma StepOnOwnCall(s: Store, e: Event)
    requires !e.Arrive? && !e.ConfigAcked? && e.c in s.calls && e.c in Next(s, e).calls
    ensures
      var (s', before, after) := (Next(s, e), s.calls[e.c], Next(s, e).calls[e.c]);
      && after.row == before.row
      && (|| after.phase == before.phase
          || (after.phase.Inserted? && Stored(s', after.row))
          || (after.phase.Caching? && before.phase.Inserted? && (after.phase.reached ==> after.row.sensorId in s'.latest))
          || (after.phase.Publishing? && before.phase == Caching(true)))
  {
    hide Arrived, ContentOf;
  }

  lemma StepKeepsOwnCall(events: seq<Event>, s: Store, e: Event)
    requires !e.Arrive? && !e.ConfigAcked?
    requires e.c in s.calls && GoodCall(events, s, s.calls[e.c]) && e.c in Next(s, e).calls
    ensures GoodCall(events, Next(s, e), Next(s, e).calls[e.c])
  {
    StepOnOwnCall(s, e);
    StoresOnlyGrow(s, e);
    hide Next, ArrivedIn, GoodStores;
  }

  lemma StepKeepsCall(events: seq<Event>, s: Store, e: Event, c: nat)
    requires Inv(events, s) && (e.Arrive? ==> e in events) && c in Next(s, e).calls
    ensures GoodCall(events, Next(s, e), Next(s, e).calls[c])
  {
    hide Next, ContentOf, ArrivedIn, GoodCall, GoodStores;
    if e.Arrive? && c == s.arrived {
      StepKeepsNewCall(events, s, e);
    } else if !e.Arrive? && !e.ConfigAcked? && c == e.c {
      OwnCallWasThere(s, e);
      StepKeepsOwnCall(events, s, e);
    } else {
      StepOnOtherCall(s, e, c);
      StepKeepsOtherCall(events, s, e, c);
    }
  }

  lemma OwnCallWasThere(s: Store, e: Event)
    requires !e.Arrive? && !e.ConfigAcked? && e.c in Next(s, e).calls
    ensures e.c in s.calls
  {
    hide Moved;
  }

  lemma StepKeepsNewCall(events: seq<Event>, s: Store, e: Event)
    requires Numbered(s) && e.Arrive? && e in events && s.arrived in Next(s, e).calls
    ensures GoodCall(events, Next(s, e), Next(s, e).calls[s.arrived])
  {
    ArrivalOnStores(s, ContentOf(e.msg), e.reached);
    assert s.arrived !in s.calls;
    NowArrived(events, e);
    hide Arrived, ContentOf, ArrivedIn;
  }

  lemma StepKeepsOtherCall(events: seq<Event>, s: Store, e: Event, c: nat)
    requires c in s.calls && GoodCall(events, s, s.calls[c])
    requires c in Next(s, e).calls && Next(s, e).calls[c] == s.calls[c]
    ensures GoodCall(events, Next(s, e), Next(s, e).calls[c])
  {
    StoresOnlyGrow(s, e);
    hide Next, ArrivedIn;
  }

  lemma StepKeepsInv(events: seq<Event>, s: Store, e: Event)
    requires Inv(events, s) && (e.Arrive? ==> e in events)
    ensures Inv(events, Next(s, e))
  {
    hide Next, GoodStores, GoodCall;
    StepKeepsNumbers(s, e);
    StepKeepsStores(events, s, e);
    forall c | c in Next(s, e).calls
      ensures GoodCall(events, Next(s, e), Next(s, e).calls[c])
    {
      StepKeepsCall(events, s, e, c);
    }
  }

  /**
   * Over every run: each stored, cached or broadcast reading was accepted from some
   * message; nothing is cached before its sensor and time have a row, and nothing is
   * broadcast before its sensor has a cached reading.
   */
  lemma {:induction false} EveryRunKeepsInv(events: seq<Event>)
    ensures Inv(events, Run(EMPTY, events))
  {
    hide Next, ContentOf;
    if events != [] {
      EveryRunKeepsInv(events[..|events| - 1]);
      RunLast(events);
      LongerRunKeepsInv(events, Run(EMPTY, events[..|events| - 1]));
      StepKeepsInv(events, Run(EMPTY, events[..|events| - 1]), events[|events| - 1]);
    }
  }

  lemma OneFewer<K, V>(m: map<K, V>, k: K)
    requires k in m
    ensures |m - {k}| == |m| - 1
  {
    assert (m - {k}).Keys == m.Keys - {k};
    assert |m.Keys| == |m| && |(m - {k}).Keys| == |m - {k}|;
  }

  lemma OneMore<K, V>(m: map<K, V>, k: K, v: V)
    ensures |m[k := v]| == |m| + if k in m then 0 else 1
  {
    assert m[k := v].Keys == m.Keys + {k};
    assert |m.Keys| == |m| && |m[k := v].Keys| == |m[k := v]|;
  }

  function Total(s: Store): nat {
    |s.calls| + |s.writes| + s.ingested + s.confirmed + s.dropped
  }

  lemma ArrivalAccounts(s: Store, content: Content, reached: bool)
    requires s.arrived !in s.calls && s.arrived !in s.writes
    ensures Total(Arrived(s, content, reached)) == Total(s) + if content.Foreign? then 0 else 1
  {
    OneMore(s.writes, s.arrived, reached);
    if content.Reading? {
      OneMore(s.calls, s.arrived, Call(content.row, Inserting));
    }
  }

  lemma ConfigAccounts(s: Store, c: nat, ok: bool)
    ensures Total(ConfigEnded(s, c, ok)) == Total(s)
  {
    if c in s.writes {
      OneFewer(s.writes, c);
    }
  }

  lemma MoveOnCounters(s: Store, e: Event)
    requires !e.Arrive? && !e.ConfigAcked? && e.c in s.calls
    ensures
      var s' := Moved(s, e);
      && s'.confirmed == s.confirmed
      && s'.ingested + s'.dropped == s.ingested + s.dropped + if e.c in s'.calls then 0 else 1
  {
  }

  lemma MoveAccounts(s: Store, e: Event)
    requires !e.Arrive? && !e.ConfigAcked? && e.c in s.calls
    ensures Total(Moved(s, e)) == Total(s)
  {
    MoveOnCounters(s, e);
    MoveOnCalls(s, e);
    hide Moved;
    var s' := Moved(s, e);
    if e.c in s'.calls {
      OneMore(s.calls, e.c, s'.calls[e.c]);
    } else {
      OneFewer(s.calls, e.c);
    }
  }

  lemma StepAccounts(s: Store, e: Event)
    requires s.arrived !in s.calls && s.arrived !in s.writes
    ensures Total(Next(s, e)) == Total(s) + if Counted(e) then 1 else 0
  {
    hide Arrived, ConfigEnded, Moved, ContentOf, Total;
    if e.Arrive? {
      ArrivalAccounts(s, ContentOf(e.msg), e.reached);
    } else if e.ConfigAcked? {
      ConfigAccounts(s, e.c, e.ok);
    } else if e.c in s.calls {
      MoveAccounts(s, e);
    }
  }

  /** No uplink is lost without a trace: under way, ingested or counted as dropped, each once. */
  lemma {:induction false} EveryUplinkIsAccountedFor(events: seq<Event>)
    ensures var s := Run(EMPTY, events); CountedIn(events) == |s.calls| + |s.writes| + s.ingested + s.confirmed + s.dropped
  {
    hide Next, Counted, GoodStores, GoodCall;
    if events != [] {
      EveryUplinkIsAccountedFor(events[..|events| - 1]);
      EveryRunKeepsInv(events[..|events| - 1]);
      RunLast(events);
      StepAccounts(Run(EMPTY, events[..|events| - 1]), events[|events| - 1]);
    }
  }

  /** A broadcast that was under way is acknowledged. */
  predicate Ingests(s: Store, e: Event) {
    e.PublishAcked? && e.ok && e.c in s.calls && s.calls[e.c].phase.Publishing?
  }

  /** A config report's cache write that was under way to Redis is acknowledged. */
  predicate Confirms(s: Store, e: Event) {
    e.ConfigAcked? && e.ok && e.c in s.writes && s.writes[e.c]
  }

  /** A message that cannot be used, or an exception where the call waits. */
  predicate Drops(s: Store, e: Event) {
    match e
    case Arrive(msg, _) => ContentOf(msg).Unusable?
    case InsertRuns(_) => false
    case InsertAcked(c, ok, _) => !ok && c in s.calls && (s.calls[c].phase.Inserting? || s.calls[c].phase.Inserted?)
    case SetAcked(c, ok) => !ok && c in s.calls && s.calls[c].phase.Caching?
    case PublishAcked(c, ok) => !ok && c in s.calls && s.calls[c].phase.Publishing?
    case ConfigAcked(c, ok) => !ok && c in s.writes
  }

  function DropsIn(s: Store, events: seq<Event>): nat
    decreases |events|
  {
    if events == [] then 0
    else (if Drops(s, events[0]) then 1 else 0) + DropsIn(Next(s, events[0]), events[1..])
  }

  function Ingestions(s: Store, events: seq<Event>): nat
    decreases |events|
  {
    if events == [] then 0
    else (if Ingests(s, events[0]) then 1 else 0) + Ingestions(Next(s, events[0]), events[1..])
  }

  function Confirmations(s: Store, events: seq<Event>): nat
    decreases |events|
  {
    if events == [] then 0
    else (if Confirms(s, events[0]) then 1 else 0) + Confirmations(Next(s, events[0]), events[1..])
  }

  lemma MoveOnSuccesses(s: Store, e: Event)
    requires !e.Arrive? && !e.ConfigAcked? && e.c in s.calls
    ensures Moved(s, e).ingested == s.ingested + (if Ingests(s, e) then 1 else 0) && Moved(s, e).confirmed == s.confirmed
    ensures Moved(s, e).dropped == s.dropped + if Drops(s, e) then 1 else 0
  {
  }

  lemma StepOnSuccesses(s: Store, e: Event)
    ensures Next(s, e).ingested == s.ingested + if Ingests(s, e) then 1 else 0
    ensures Next(s, e).confirmed == s.confirmed + if Confirms(s, e) then 1 else 0
    ensures Next(s, e).dropped == s.dropped + if Drops(s, e) then 1 else 0
  {
    hide Moved, ContentOf;
    if !e.Arrive? && !e.ConfigAcked? && e.c in s.calls {
      MoveOnSuccesses(s, e);
    }
  }

  /**
   * And each counter counts its own: a reading is ingested when its broadcast is
   * acknowledged, a config report confirmed when its cache write is, and an uplink is
   * dropped when it cannot be used or whatever its call waits for fails.
   */
  lemma {:induction false} SuccessesAreCounted(s: Store, events: seq<Event>)
    ensures Run(s, events).ingested == s.ingested + Ingestions(s, events)
    ensures Run(s, events).confirmed == s.confirmed + Confirmations(s, events)
    ensures Run(s, events).dropped == s.dropped + DropsIn(s, events)
    decreases |events|
  {
    hide Next, Ingests, Confirms, Drops;
    if events != [] {
      StepOnSuccesses(s, events[0]);
      SuccessesAreCounted(Next(s, events[0]), events[1..]);
    }
  }

  /** A config report arrived whose cache write was to take effect, or to be lost. */
  predicate ReportArrived(events: seq<Event>, reached: bool) {
    exists k :: 0 <= k < |events| && events[k].Arrive? && ContentOf(events[k].msg).Report? && events[k].reached == reached
  }

  predicate WritesKnown(events: seq<Event>, s: Store) {
    forall c :: c in s.writes ==> ReportArrived(events, s.writes[c])
  }

  lemma StepOnWrites(s: Store, e: Event)
    ensures e.Arrive? ==>
      Next(s, e).writes == if ContentOf(e.msg).Report? then s.writes[s.arrived := e.reached] else s.writes
    ensures !e.Arrive? ==> forall c :: c in Next(s, e).writes ==> c in s.writes && Next(s, e).writes[c] == s.writes[c]
  {
    hide Moved, ContentOf;
    if !e.Arrive? && !e.ConfigAcked? && e.c in s.calls {
      MoveOnCalls(s, e);
    }
  }

  lemma ReportStaysArrived(events: seq<Event>, reached: bool)
    requires events != [] && ReportArrived(events[..|events| - 1], reached)
    ensures ReportArrived(events, reached)
  {
    hide ContentOf;
    var k :| 0 <= k < |events| - 1 && events[k].Arrive? && ContentOf(events[k].msg).Report? && events[k].reached == reached;
  }

  /** A write that is waited for is one that some report issued, and is lost only if that one was. */
  lemma {:induction false} EveryRunKnowsItsWrites(events: seq<Event>)
    ensures WritesKnown(events, Run(EMPTY, events))
  {
    hide Next, ContentOf, ReportArrived;
    if events != [] {
      var (before, e) := (events[..|events| - 1], events[|events| - 1]);
      var s := Run(EMPTY, before);
      EveryRunKnowsItsWrites(before);
      RunLast(events);
      StepOnWrites(s, e);
      forall reached | ReportArrived(before, reached)
        ensures ReportArrived(events, reached)
      {
        ReportStaysArrived(events, reached);
      }
      if e.Arrive? && ContentOf(e.msg).Report? {
        NowReported(events, e);
      }
    }
  }

  lemma NowReported(events: seq<Event>, e: Event)
    requires e in events && e.Arrive? && ContentOf(e.msg).Report?
    ensures ReportArrived(events, e.reached)
  {
    hide ContentOf;
  }

  // --------------------- What the cache ends up with ---------------------

  /** The cache write of a reading of this sensor is still to come. */
  predicate Pending(s: Store, sensorId: string, c: nat) {
    c in s.calls && s.calls[c].row.sensorId == sensorId && s.calls[c].BeforeSet()
  }

  function Awaiting(s: Store, sensorId: string): set<nat> {
    set c | c in s.calls && Pending(s, sensorId, c)
  }

  /** Nothing new from this sensor, and no failure between its inserts and its cache writes. */
  predicate Smooth(s: Store, e: Event, sensorId: string) {
    match e
    case Arrive(msg, _) => AcceptedFrom(msg, sensorId).None?
    case InsertAcked(c, ok, reached) => c in Awaiting(s, sensorId) ==> ok && reached
    case _ => true
  }

  function AcceptedFrom(msg: Option<Uplink>, sensorId: string): Option<Row> {
    var content := ContentOf(msg);
    if content.Reading? && content.row.sensorId == sensorId then Some(content.row) else None
  }

  /** A schedule that brings every pending cache write of the sensor about. */
  predicate Settles(s: Store, events: seq<Event>, sensorId: string)
    decreases |events|
  {
    if events == [] then Awaiting(s, sensorId) == {}
    else Smooth(s, events[0], sensorId) && Settles(Next(s, events[0]), events[1..], sensorId)
  }

  predicate EndsUp(s: Store, sensorId: string, good: Row -> bool) {
    sensorId in s.latest && good(s.latest[sensorId])
  }

  /** What decides it: the pending readings of the sensor, or the cached one if there are none. */
  predicate Decided(s: Store, sensorId: string, good: Row -> bool) {
    if Awaiting(s, sensorId) == {} then EndsUp(s, sensorId, good)
    else forall c :: c in Awaiting(s, sensorId) ==> good(s.calls[c].row)
  }

  lemma SmoothMove(s: Store, e: Event, sensorId: string)
    requires Smooth(s, e, sensorId) && !e.Arrive? && !e.ConfigAcked? && e.c in s.calls
    ensures Pending(Moved(s, e), sensorId, e.c) <==> Pending(s, sensorId, e.c) && SetBy(s, e).None?
    ensures e.c in Moved(s, e).calls ==> Moved(s, e).calls[e.c].row == s.calls[e.c].row
  {
    assert e.c in Awaiting(s, sensorId) <==> Pending(s, sensorId, e.c);
  }

  lemma SmoothStepOnCall(s: Store, e: Event, sensorId: string, c: nat)
    requires Numbered(s) && Smooth(s, e, sensorId)
    ensures Pending(Next(s, e), sensorId, c) <==> Pending(s, sensorId, c) && !(SetBy(s, e).Some? && e.c == c)
    ensures Pending(s, sensorId, c) && c in Next(s, e).calls ==> Next(s, e).calls[c].row == s.calls[c].row
  {
    if e.Arrive? {
      SmoothArrival(s, e, sensorId, c);
    } else if e.ConfigAcked? || c != e.c {
      StepOnOtherCall(s, e, c);
      hide Next, Smooth;
    } else if c in s.calls {
      SmoothMove(s, e, sensorId);
      hide Moved, Smooth;
    }
  }

  lemma SmoothArrival(s: Store, e: Event, sensorId: string, c: nat)
    requires Numbered(s) && e.Arrive? && Smooth(s, e, sensorId)
    ensures Pending(Next(s, e), sensorId, c) <==> Pending(s, sensorId, c)
    ensures Pending(s, sensorId, c) && c in Next(s, e).calls ==> Next(s, e).calls[c].row == s.calls[c].row
  {
    ArrivalOnStores(s, ContentOf(e.msg), e.reached);
    hide Arrived, ContentOf;
  }

  /** A smooth step leaves the same calls pending, but for the one it writes. */
  lemma SmoothStepOnAwaiting(s: Store, e: Event, sensorId: string)
    requires Numbered(s) && Smooth(s, e, sensorId)
    ensures
      var (a, a') := (Awaiting(s, sensorId), Awaiting(Next(s, e), sensorId));
      && a' == (if SetBy(s, e).Some? && SetBy(s, e).value.sensorId == sensorId then a - {e.c} else a)
      && forall c :: c in a' ==> c in a && Next(s, e).calls[c].row == s.calls[c].row
  {
    hide Next, Smooth;
    forall c: nat
      ensures Pending(Next(s, e), sensorId, c) <==> Pending(s, sensorId, c) && !(SetBy(s, e).Some? && e.c == c)
      ensures Pending(s, sensorId, c) && c in Next(s, e).calls ==> Next(s, e).calls[c].row == s.calls[c].row
    {
      SmoothStepOnCall(s, e, sensorId, c);
    }
  }

  lemma SmoothStepKeepsDecided(s: Store, e: Event, sensorId: string, good: Row -> bool)
    requires Numbered(s) && Decided(s, sensorId, good) && Smooth(s, e, sensorId)
    ensures Decided(Next(s, e), sensorId, good)
  {
    SmoothStepOnAwaiting(s, e, sensorId);
    StepOnStores(s, e);
    hide Next, Smooth;
    assert SetBy(s, e).Some? && SetBy(s, e).value.sensorId == sensorId ==> e.c in Awaiting(s, sensorId);
  }

  lemma {:induction false} DecidedIsKept(s: Store, events: seq<Event>, sensorId: string, good: Row -> bool)
    requires Numbered(s) && Decided(s, sensorId, good) && Settles(s, events, sensorId)
    ensures EndsUp(Run(s, events), sensorId, good)
    decreases |events|
  {
    hide Next, Smooth;
    if events != [] {
      SmoothStepKeepsDecided(s, events[0], sensorId, good);
      StepKeepsNumbers(s, events[0]);
      DecidedIsKept(Next(s, events[0]), events[1..], sensorId, good);
    }
  }

  /** A call gets through while all others of its sensor wait. */
  lemma SettleOne(s: Store, sensorId: string, c: nat)
    requires Numbered(s) && c in Awaiting(s, sensorId)
    ensures
      var s1 := Next(s, InsertRuns(c));
      var s2 := Next(s1, InsertAcked(c, true, true));
      && Smooth(s, InsertRuns(c), sensorId) && Smooth(s1, InsertAcked(c, true, true), sensorId)
      && Numbered(s2)
      && Awaiting(s2, sensorId) == Awaiting(s, sensorId) - {c}
      && (forall b :: b in Awaiting(s2, sensorId) ==> s2.calls[b].row == s.calls[b].row)
      && sensorId in s2.latest && s2.latest[sensorId] == s.calls[c].row
  {
    assert Pending(s, sensorId, c);
    hide Awaiting;
    var s1 := Next(s, InsertRuns(c));
    StepKeepsNumbers(s, InsertRuns(c));
    StepKeepsNumbers(s1, InsertAcked(c, true, true));
    SmoothStepOnAwaiting(s, InsertRuns(c), sensorId);
    SmoothStepOnAwaiting(s1, InsertAcked(c, true, true), sensorId);
  }

  /** If a pending reading is not good, the schedule that settles it last leaves it in the cache. */
  lemma {:induction false} UndecidedSchedule(s: Store, sensorId: string, good: Row -> bool) returns (events: seq<Event>)
    requires Numbered(s) && !Decided(s, sensorId, good)
    ensures Settles(s, events, sensorId) && !EndsUp(Run(s, events), sensorId, good)
    decreases |Awaiting(s, sensorId)|
  {
    hide Next, Smooth, Numbered, Pending;
    var a := Awaiting(s, sensorId);
    if a == {} {
      return [];
    }
    var bad :| bad in a && !good(s.calls[bad].row);
    var c := bad;
    if a != {bad} {
      c :| c in a && c != bad;
    }
    SettleOne(s, sensorId, c);
    var s1 := Next(s, InsertRuns(c));
    var s2 := Next(s1, InsertAcked(c, true, true));
    assert c != bad ==> bad in Awaiting(s2, sensorId);
    assert |a - {c}| == |a| - 1;
    var rest := UndecidedSchedule(s2, sensorId, good);
    events := [InsertRuns(c), InsertAcked(c, true, true)] + rest;
    assert events[1..] == [InsertAcked(c, true, true)] + rest;
    assert events[1..][1..] == rest;
  }

  /**
   * What the cache is certain to show of a sensor once its pending writes are through:
   * a property holds of it under every schedule if and only if it holds of every
   * pending reading, or of the cached one if none is pending.
   */
  lemma CertainIff(s: Store, sensorId: string, good: Row -> bool)
    requires Numbered(s)
    ensures Decided(s, sensorId, good) <==>
      forall events :: Settles(s, events, sensorId) ==> EndsUp(Run(s, events), sensorId, good)
  {
    hide Settles, Run, EndsUp, Decided, Numbered;
    if Decided(s, sensorId, good) {
      forall events | Settles(s, events, sensorId)
        ensures EndsUp(Run(s, events), sensorId, good)
      {
        DecidedIsKept(s, events, sensorId, good);
      }
    } else {
      var events := UndecidedSchedule(s, sensorId, good);
    }
  }

  function Exactly(row: Row): Row -> bool {
    r => r == row
  }

  lemma ArrivalIsPending(s: Store, msg: Option<Uplink>, reached: bool, sensorId: string)
    requires Numbered(s) && AcceptedFrom(msg, sensorId).Some?
    ensures
      var s1 := Next(s, Arrive(msg, reached));
      && Numbered(s1)
      && Awaiting(s1, sensorId) == Awaiting(s, sensorId) + {s.arrived}
      && s1.calls == s.calls[s.arrived := Call(AcceptedFrom(msg, sensorId).value, Inserting)]
  {
    ArrivalOnStores(s, ContentOf(msg), reached);
    StepKeepsNumbers(s, Arrive(msg, reached));
    hide ContentOf, Arrived;
  }

  /**
   * A reading that arrives is certain to end up as its sensor's latest if and only if
   * no other reading of the sensor is still on its way to the cache.
   */
  lemma LastArrivalWinsIff(s: Store, msg: Option<Uplink>, reached: bool, sensorId: string)
    requires Numbered(s)
    ensures
      var (s1, arrival) := (Next(s, Arrive(msg, reached)), AcceptedFrom(msg, sensorId));
      arrival.Some? ==>
        ((forall events :: Settles(s1, events, sensorId) ==> EndsUp(Run(s1, events), sensorId, Exactly(arrival.value)))
          <==> (forall c :: c in Awaiting(s, sensorId) ==> s.calls[c].row == arrival.value))
  {
    if AcceptedFrom(msg, sensorId).Some? {
      ArrivalIsPending(s, msg, reached, sensorId);
      hide Settles, Run, EndsUp, Next, AcceptedFrom, Numbered;
      var (s1, row) := (Next(s, Arrive(msg, reached)), AcceptedFrom(msg, sensorId).value);
      CertainIff(s1, sensorId, Exactly(row));
      assert s.arrived in Awaiting(s1, sensorId);
    }
  }

  /** No reading of the sensor, pending or cached, is newer. */
  predicate NoneNewer(s: Store, sensorId: string, row: Row) {
    && (forall c :: c in Awaiting(s, sensorId) ==> s.calls[c].row.time <= row.time)
    && (sensorId in s.latest ==> s.latest[sensorId].time <= row.time)
  }

  /** The newest reading is certain to end up as the latest if and only if every pending one is a newest one. */
  lemma NewestWinsIff(s: Store, sensorId: string)
    requires Numbered(s) && (Awaiting(s, sensorId) != {} || sensorId in s.latest)
    ensures
      (forall events :: Settles(s, events, sensorId) ==>
                          EndsUp(Run(s, events), sensorId, row => NoneNewer(s, sensorId, row)))
        <==> (forall c :: c in Awaiting(s, sensorId) ==> NoneNewer(s, sensorId, s.calls[c].row))
  {
    hide Settles, Run, Numbered;
    CertainIff(s, sensorId, row => NoneNewer(s, sensorId, row));
  }

  // ------------------- Sensors whose uplinks do not overlap -------------------

  /** Each reading of the sensor arrives after the cache write of the one before, and none fails. */
  predicate Calm(s: Store, events: seq<Event>, sensorId: string)
    decreases |events|
  {
    events == [] ||
    (var e := events[0];
     && (if e.Arrive? && AcceptedFrom(e.msg, sensorId).Some? then Awaiting(s, sensorId) == {} else Smooth(s, e, sensorId))
     && Calm(Next(s, e), events[1..], sensorId))
  }

  function LastAccepted(events: seq<Event>, sensorId: string): Option<Row> {
    if events == [] then None
    else
      var later := LastAccepted(events[1..], sensorId);
      if later.Some? then later
      else if events[0].Arrive? then AcceptedFrom(events[0].msg, sensorId)
      else None
  }

  /** The only reading the cache can end up with, if any has arrived. */
  predicate Only(s: Store, sensorId: string, row: Option<Row>) {
    if row.None? then Awaiting(s, sensorId) == {} else Decided(s, sensorId, Exactly(row.value))
  }

  lemma CalmStep(s: Store, e: Event, sensorId: string, row: Option<Row>)
    requires Numbered(s) && Only(s, sensorId, row) && Calm(s, [e], sensorId)
    ensures Numbered(Next(s, e))
    ensures Only(Next(s, e), sensorId,
                 if e.Arrive? && AcceptedFrom(e.msg, sensorId).Some? then AcceptedFrom(e.msg, sensorId) else row)
  {
    hide Next, Smooth, Numbered, AcceptedFrom, Pending;
    StepKeepsNumbers(s, e);
    if e.Arrive? && AcceptedFrom(e.msg, sensorId).Some? {
      ArrivalIsPending(s, e.msg, e.reached, sensorId);
      assert s.arrived in Awaiting(Next(s, e), sensorId);
    } else if row.Some? {
      SmoothStepKeepsDecided(s, e, sensorId, Exactly(row.value));
    } else {
      SmoothStepOnAwaiting(s, e, sensorId);
    }
  }

  lemma {:induction false} CalmRun(s: Store, events: seq<Event>, sensorId: string, row: Option<Row>)
    requires Numbered(s) && Only(s, sensorId, row) && Calm(s, events, sensorId)
    ensures Only(Run(s, events), sensorId,
                 if LastAccepted(events, sensorId).Some? then LastAccepted(events, sensorId) else row)
    decreases |events|
  {
    hide Next, Smooth, Numbered, AcceptedFrom, Awaiting, Only;
    if events != [] {
      var e := events[0];
      CalmStep(s, e, sensorId, row);
      CalmRun(Next(s, e), events[1..], sensorId,
              if e.Arrive? && AcceptedFrom(e.msg, sensorId).Some? then AcceptedFrom(e.msg, sensorId) else row);
    }
  }

  /**
   * Over every run in which the sensor's uplinks do not overlap and do not fail, the
   * cache holds its last accepted reading whenever no write of it is pending.
   */
  lemma WithoutOverlapTheLastWins(events: seq<Event>, sensorId: string)
    requires Calm(EMPTY, events, sensorId) && Awaiting(Run(EMPTY, events), sensorId) == {}
    ensures
      var last := LastAccepted(events, sensorId);
      last.Some? ==> EndsUp(Run(EMPTY, events), sensorId, Exactly(last.value))
  {
    CalmRun(EMPTY, events, sensorId, None);
  }

  lemma RunTwo(s: Store, a: Event, b: Event, rest: seq<Event>)
    ensures Run(s, [a, b] + rest) == Run(Next(Next(s, a), b), rest)
  {
    hide Next;
    var events := [a, b] + rest;
    assert events[1..] == [b] + rest && events[1..][1..] == rest;
  }

  /** The overtaking: both inserts run in order, but the earlier one is acknowledged last. */
  lemma EarlierMayStayLatest(s: Store, earlier: nat, later: nat)
    requires earlier < later && earlier in s.calls && later in s.calls
    requires s.calls[earlier].phase.Inserting? && s.calls[later].phase.Inserting?
    requires s.calls[earlier].row.sensorId == s.calls[later].row.sensorId
    ensures
      var events := [InsertRuns(earlier), InsertRuns(later),
                     InsertAcked(later, true, true), InsertAcked(earlier, true, true)];
      EndsUp(Run(s, events), s.calls[earlier].row.sensorId, Exactly(s.calls[earlier].row))
  {
    var acks := [InsertAcked(later, true, true), InsertAcked(earlier, true, true)];
    var s2 := Next(Next(s, InsertRuns(earlier)), InsertRuns(later));
    RunTwo(s, InsertRuns(earlier), InsertRuns(later), acks);
    RunTwo(s2, acks[0], acks[1], []);
    assert [InsertRuns(earlier), InsertRuns(later)] + acks ==
      [InsertRuns(earlier), InsertRuns(later), InsertAcked(later, true, true), InsertAcked(earlier, true, true)];
    assert acks + [] == acks;
  }

  // --------------------------- Readings on the wire ---------------------------

  /** All sensors reported: version 0, or version 1 with both presence bits. */
  predicate AllPresent(flags: Byte) {
    flags % 16 == 0 || (flags % 16 == 1 && flags / 16 % 4 == 3)
  }

  predicate StorableWords(b: seq<Byte>)
    requires |b| >= 13
  {
    && -4000 <= SignedWord(b, 4) <= 8500
    && Unsigned(b, 6) <= 10000
    && 300 <= Unsigned(b, 8) <= 1100
  }

  lemma PresenceOnWords(b: seq<Byte>)
    requires DecodeUplink(b).Ok?
    ensures Complete(DecodeUplink(b).value) <==> AllPresent(b[12])
  {
  }

  lemma ContractOnWords(b: seq<Byte>, d: DecodedPayload)
    requires |b| >= 13
    requires d.pm25 == Unsigned(b, 0) as real / 10.0 && d.pm10 == Unsigned(b, 2) as real / 10.0
    requires d.temperature == SignedWord(b, 4) as real / 100.0 && d.humidity == Unsigned(b, 6) as real / 100.0
    requires d.pressure == Unsigned(b, 8) as real
    ensures MeetsContract(d) <==> StorableWords(b)
  {
  }

  lemma AcceptedOnTheWire(dev: string, port: Option<int>, b: seq<Byte>, time: int)
    ensures
      var stored := Accepted(Uplink(dev, port, Base64.Encode(b), time));
      && (stored.Some? <==> port == Some(2) && dev != "" && |b| >= 13 && AllPresent(b[12]) && StorableWords(b))
      && (stored.Some? ==> HoldsWords(stored.value, dev, b, time))
  {
    Base64.DecodeUndoesEncode(b);
    UplinkByteByByte(b);
    if DecodeUplink(b).Ok? {
      PresenceOnWords(b);
    }
    hide DecodeUplink, Base64.Encode, Base64.Decode, Complete, MeetsContract, StorableWords, AllPresent, Unsigned, SignedWord,
      Aqi.Pm25Index, Aqi.Pm10Index, Aqi.CategoryOf;
    if DecodeUplink(b).Ok? {
      ContractOnWords(b, DecodeUplink(b).value);
    } else if |b| >= 13 {
      NotPresentUnlessKnown(b[12]);
    }
  }

  predicate HoldsWords(row: Row, dev: string, b: seq<Byte>, time: int)
    requires |b| >= 13
  {
    && row.sensorId == dev && row.time == time
    && row.pm25 == Unsigned(b, 0) as real / 10.0 && row.pm10 == Unsigned(b, 2) as real / 10.0
    && row.temperature == SignedWord(b, 4) as real / 100.0 && row.humidity == Unsigned(b, 6) as real / 100.0
    && row.pressure == Unsigned(b, 8) as real && row.batteryMv == Unsigned(b, 10) as real
    && row.aqi == Aqi.Max(Aqi.Pm25Index(Aqi.Finite(row.pm25)), Aqi.Pm10Index(Aqi.Finite(row.pm10)))
    && row.category == Aqi.CategoryOf(row.aqi)
  }

  /**
   * What any uplink comes to, byte by byte: a reading to store if it is on port 2, from
   * a named device, with all sensors present and temperature, humidity and pressure in
   * range, whatever the particle counts; a config report if it is on port 11 and is
   * one; nothing of ours on other ports or none; and else a drop.
   */
  lemma ContentOnTheWire(dev: string, port: Option<int>, b: seq<Byte>, time: int)
    ensures
      var content := ContentOf(Some(Uplink(dev, port, Base64.Encode(b), time)));
      && (content.Foreign? <==> port != Some(2) && port != Some(11))
      && (content.Reading? <==> port == Some(2) && dev != "" && |b| >= 13 && AllPresent(b[12]) && StorableWords(b))
      && (content.Reading? ==> HoldsWords(content.row, dev, b, time))
      && (content.Report? <==> port == Some(11) && DecodeConfigReport(b).Ok?)
      && (content.Report? ==>
            content == Report(dev, Cached(DecodeConfigReport(b).value, time)) && content.entry.reportedAt == time)
      && ContentOf(None).Unusable?
  {
    AcceptedOnTheWire(dev, port, b, time);
    Base64.DecodeUndoesEncode(b);
    hide Accepted, Base64.Encode, Base64.Decode, AllPresent, StorableWords, HoldsWords, DecodeConfigReport;
  }

  lemma NotPresentUnlessKnown(flags: Byte)
    requires flags % 16 > 1
    ensures !AllPresent(flags)
  {
  }
}
