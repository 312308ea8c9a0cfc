/**
 * The live picture of the dashboard, apps/dashboard/src/stores/air.ts: the latest
 * reading of each sensor, fed by the socket, by polling and by the initial load in
 * any order, and the raw history of the sensors on screen.
 */
module LiveStore {
  import opened Options
  import L = SensorLookup

  const HOUR := 3_600_000

  datatype Reading = Reading(sensorId: string, time: int, pm25: real, pm10: real, aqi: int)

  datatype History = History(hours: nat, readings: seq<Reading>)

  datatype Store = Store(latest: map<string, Reading>, rawHistory: map<string, History>, lastLive: Option<Reading>)

  const EMPTY := Store(map[], map[], None)

  predicate Accepts(latest: map<string, Reading>, r: Reading) {
    r.sensorId in latest ==> latest[r.sensorId].time < r.time
  }

  function Updated(latest: map<string, Reading>, r: Reading): map<string, Reading> {
    if Accepts(latest, r) then latest[r.sensorId := r] else latest
  }

  /** What is left after the readings before `cutoff` were shifted out at the front. */
  function Shifted(readings: seq<Reading>, cutoff: int): seq<Reading> {
    if readings != [] && readings[0].time < cutoff then Shifted(readings[1..], cutoff) else readings
  }

  function Pushed(h: History, r: Reading): History {
    h.(readings := Shifted(h.readings + [r], r.time - h.hours * HOUR))
  }

  function Applied(s: Store, r: Reading, live: bool): Store {
    if !Accepts(s.latest, r) then s
    else
      var t := s.(latest := s.latest[r.sensorId := r]);
      if !live then t
      else
        t.(lastLive := Some(r),
           rawHistory := if r.sensorId in s.rawHistory then s.rawHistory[r.sensorId := Pushed(s.rawHistory[r.sensorId], r)]
                         else s.rawHistory)
  }

  /** The time of the last reading of a response, 0 for an empty one. */
  function LastTime(readings: seq<Reading>): int {
    if readings == [] then 0 else readings[|readings| - 1].time
  }

  function After(readings: seq<Reading>, t: int): seq<Reading> {
    if readings == [] then []
    else
      var n := |readings| - 1;
      After(readings[..n], t) + if readings[n].time > t then [readings[n]] else []
  }

  /** The answer of a history request is merged with what arrived in the meantime. */
  function Answered(s: Store, sensorId: string, hours: nat, readings: seq<Reading>): Store {
    var had := if sensorId in s.rawHistory then s.rawHistory[sensorId].readings else [];
    s.(rawHistory := s.rawHistory[sensorId := History(hours, readings + After(had, LastTime(readings)))])
  }

  class AirStore {
    var latest: map<string, Reading>
    var rawHistory: map<string, History>
    var lastLive: Option<Reading>
    var now: int
    var registered: set<string>
    var unknownDevices: set<string>
    var refreshQueued: bool

    constructor (clock: int)
      ensures Value() == EMPTY && now == clock && Lookup() == L.Lookup({}, {}, false)
    {
      latest, rawHistory, lastLive := map[], map[], None;
      now, registered, unknownDevices, refreshQueued := clock, {}, {}, false;
    }

    function Value(): Store
      reads this
    {
      Store(latest, rawHistory, lastLive)
    }

    function Lookup(): L.Lookup
      reads this
    {
      L.Lookup(registered, unknownDevices, refreshQueued)
    }

    /** `applyReading` */
    method ApplyReading(reading: Reading, live: bool, serverNow: int)
      modifies this
      ensures Value() == Applied(old(Value()), reading, live)
      ensures
        if live && Accepts(old(latest), reading) then
          && Lookup() == L.Noticed(old(Lookup()), reading.sensorId)
          && now >= old(now) && now >= serverNow && now in {old(now), serverNow}
        else Lookup() == old(Lookup()) && now == old(now)
    {
      var id := reading.sensorId;
      if id in latest && latest[id].time >= reading.time {
        return;
      }
      latest := latest[id := reading];
      if !live {
        return;
      }
      lastLive := Some(reading);
      if serverNow > now {
        now := serverNow;
      }
      if id in rawHistory {
        var history := rawHistory[id];
        var readings := history.readings + [reading];
        var cutoff := reading.time - history.hours * HOUR;
        ghost var pushed := readings;
        while |readings| > 0 && readings[0].time < cutoff
          invariant Shifted(readings, cutoff) == Shifted(pushed, cutoff)
          decreases |readings|
        {
          readings := readings[1..];
        }
        rawHistory := rawHistory[id := history.(readings := readings)];
      }
      if id !in registered && id !in unknownDevices {
        unknownDevices := unknownDevices + {id};
        refreshQueued := true;
      }
    }

    /** `syncLatest`, and the readings of the initial load. */
    method SyncLatest(readings: seq<Reading>, serverNow: int)
      modifies this
      ensures latest == UpdatedAll(old(latest), readings)
      ensures rawHistory == old(rawHistory) && lastLive == old(lastLive) && Lookup() == old(Lookup())
      ensures now == serverNow
    {
      for i := 0 to |readings|
        invariant latest == UpdatedAll(old(latest), readings[..i])
        invariant rawHistory == old(rawHistory) && lastLive == old(lastLive) && Lookup() == old(Lookup())
      {
        ApplyReading(readings[i], false, serverNow);
        assert readings[..i + 1][..i] == readings[..i];
      }
      assert readings[..|readings|] == readings;
      now := serverNow;
    }

    /** The rest of `loadReadings` once the response is there. */
    method OnReadings(sensorId: string, hours: nat, readings: seq<Reading>)
      modifies this`rawHistory
      ensures Value() == Answered(old(Value()), sensorId, hours, readings)
    {
      var last := if readings == [] then 0 else readings[|readings| - 1].time;
      var arrived := if sensorId in rawHistory then After(rawHistory[sensorId].readings, last) else [];
      rawHistory := rawHistory[sensorId := History(hours, readings + arrived)];
    }
  }

  // ------------------------------- Convergence -------------------------------

  function UpdatedAll(latest: map<string, Reading>, rs: seq<Reading>): map<string, Reading> {
    if rs == [] then latest
    else Updated(UpdatedAll(latest, rs[..|rs| - 1]), rs[|rs| - 1])
  }

  /** The `latest` of a store that was given `rs`, in this order, by whatever way. */
  function LatestOf(rs: seq<Reading>): map<string, Reading> {
    UpdatedAll(map[], rs)
  }

  /** No reading of the same sensor in `rs` is newer. */
  predicate Newest(rs: seq<Reading>, r: Reading) {
    r in rs && forall q :: q in rs && q.sensorId == r.sensorId ==> q.time <= r.time
  }

  lemma {:induction false} LatestIsNewest(rs: seq<Reading>, id: string)
    ensures id in LatestOf(rs) <==> exists r :: r in rs && r.sensorId == id
    ensures id in LatestOf(rs) ==> LatestOf(rs)[id].sensorId == id && Newest(rs, LatestOf(rs)[id])
  {
    if rs != [] {
      var (n, r) := (|rs| - 1, rs[|rs| - 1]);
      LatestIsNewest(rs[..n], id);
      LatestIsNewest(rs[..n], r.sensorId);
      assert forall q :: q in rs <==> q in rs[..n] || q == r by {
        assert rs == rs[..n] + [r];
      }
    }
  }

  /** The time of an entry never goes back. */
  lemma {:induction false} TimeNeverGoesBack(rs: seq<Reading>, more: seq<Reading>, id: string)
    requires id in LatestOf(rs)
    ensures id in LatestOf(rs + more) && LatestOf(rs)[id].time <= LatestOf(rs + more)[id].time
    decreases |more|
  {
    if more == [] {
      assert rs + more == rs;
    } else {
      var n := |more| - 1;
      TimeNeverGoesBack(rs, more[..n], id);
      assert (rs + more)[..|rs + more| - 1] == rs + more[..n];
      LatestIsNewest(rs + more[..n], id);
      LatestIsNewest(rs + more[..n], more[n].sensorId);
    }
  }

  function Elements(rs: seq<Reading>): set<Reading> {
    set r | r in rs
  }

  /** Each sensor has one newest reading among `pool`. */
  ghost predicate UniqueNewest(pool: set<Reading>) {
    forall r, q :: r in pool && q in pool && r.sensorId == q.sensorId && r.time == q.time && NewestIn(pool, r) ==> r == q
  }

  ghost predicate NewestIn(pool: set<Reading>, r: Reading) {
    forall q :: q in pool && q.sensorId == r.sensorId ==> q.time <= r.time
  }

  /** Every order, with any repetitions, in which these readings come in gives the same picture. */
  ghost predicate Converges(pool: set<Reading>) {
    forall xs, ys :: Elements(xs) == pool && Elements(ys) == pool ==> LatestOf(xs) == LatestOf(ys)
  }

  lemma SameNewest(xs: seq<Reading>, ys: seq<Reading>)
    requires Elements(xs) == Elements(ys) && UniqueNewest(Elements(xs))
    ensures LatestOf(xs) == LatestOf(ys)
  {
    var (p, q) := (LatestOf(xs), LatestOf(ys));
    assert forall r :: r in xs <==> r in Elements(xs);
    assert forall r :: r in ys <==> r in Elements(ys);
    forall id
      ensures id in p <==> id in q
      ensures id in p ==> p[id] == q[id]
    {
      LatestIsNewest(xs, id);
      LatestIsNewest(ys, id);
      if id in p {
        assert p[id] in Elements(xs) && q[id] in Elements(xs) && p[id].time == q[id].time && NewestIn(Elements(xs), p[id]);
      }
    }
  }

  /** A newest reading that comes first stays. */
  lemma {:induction false} NewestFirstStays(r: Reading, rest: seq<Reading>)
    requires forall q :: q in rest && q.sensorId == r.sensorId ==> q.time <= r.time
    ensures r.sensorId in LatestOf([r] + rest) && LatestOf([r] + rest)[r.sensorId] == r
  {
    var all := [r] + rest;
    if rest == [] {
      assert all == [r] && all[..0] == [];
      assert LatestOf(all) == Updated(LatestOf([]), r);
    } else {
      NewestFirstStays(r, rest[..|rest| - 1]);
      assert all[..|all| - 1] == [r] + rest[..|rest| - 1];
    }
  }

  lemma {:induction false} Enumerated(pool: set<Reading>) returns (rs: seq<Reading>)
    ensures Elements(rs) == pool
  {
    if pool == {} {
      rs := [];
    } else {
      var r :| r in pool;
      var rest := Enumerated(pool - {r});
      rs := [r] + rest;
      assert Elements(rs) == {r} + Elements(rest);
    }
  }

  /** The picture is independent of the order exactly when no sensor has two newest readings. */
  lemma ConvergesIff(pool: set<Reading>)
    ensures Converges(pool) <==> UniqueNewest(pool)
  {
    if UniqueNewest(pool) {
      forall xs, ys | Elements(xs) == pool && Elements(ys) == pool
        ensures LatestOf(xs) == LatestOf(ys)
      {
        SameNewest(xs, ys);
      }
    } else {
      var r, q :| r in pool && q in pool && r.sensorId == q.sensorId && r.time == q.time && NewestIn(pool, r) && r != q;
      var rs := Enumerated(pool);
      assert forall x :: x in rs ==> x in Elements(rs);
      NewestFirstStays(r, rs);
      NewestFirstStays(q, rs);
      assert Elements([r] + rs) == pool && Elements([q] + rs) == pool;
      assert LatestOf([r] + rs) != LatestOf([q] + rs);
    }
  }

  /** So it is whenever there is at most one reading per sensor and time. */
  lemma StrongConvergence(xs: seq<Reading>, ys: seq<Reading>)
    requires Elements(xs) == Elements(ys)
    requires forall r, q :: r in xs && q in xs && r.sensorId == q.sensorId && r.time == q.time ==> r == q
    ensures LatestOf(xs) == LatestOf(ys)
  {
    assert forall r :: r in xs <==> r in Elements(xs);
    SameNewest(xs, ys);
  }

  // ------------------------------ Runs of the store ------------------------------

  datatype Event = Apply(r: Reading, live: bool) | Answer(sensorId: string, hours: nat, readings: seq<Reading>)

  function Step(s: Store, e: Event): Store {
    match e
    case Apply(r, live) => Applied(s, r, live)
    case Answer(id, hours, readings) => Answered(s, id, hours, readings)
  }

  function Run(s: Store, events: seq<Event>): Store
    decreases |events|
  {
    if events == [] then s else Run(Step(s, events[0]), events[1..])
  }

  function ReadingsOf(events: seq<Event>): seq<Reading> {
    if events == [] then []
    else (if events[0].Apply? then [events[0].r] else []) + ReadingsOf(events[1..])
  }

  lemma {:induction false} UpdatedInTurn(latest: map<string, Reading>, r: Reading, rs: seq<Reading>)
    ensures UpdatedAll(latest, [r] + rs) == UpdatedAll(Updated(latest, r), rs)
  {
    var all := [r] + rs;
    if rs == [] {
      assert all[..0] == [];
    } else {
      UpdatedInTurn(latest, r, rs[..|rs| - 1]);
      assert all[..|all| - 1] == [r] + rs[..|rs| - 1];
    }
  }

  lemma StepUpdates(s: Store, e: Event)
    ensures Step(s, e).latest == if e.Apply? then Updated(s.latest, e.r) else s.latest
  {
  }

  /** Live or not, and whatever histories are loaded in between: only the readings matter. */
  lemma {:induction false} LatestDependsOnReadingsOnly(s: Store, events: seq<Event>)
    ensures Run(s, events).latest == UpdatedAll(s.latest, ReadingsOf(events))
    decreases |events|
  {
    hide Step, Updated;
    if events != [] {
      StepUpdates(s, events[0]);
      LatestDependsOnReadingsOnly(Step(s, events[0]), events[1..]);
      if events[0].Apply? {
        UpdatedInTurn(s.latest, events[0].r, ReadingsOf(events[1..]));
      } else {
        assert ReadingsOf(events) == ReadingsOf(events[1..]);
      }
    }
  }

  // --------------------------------- History ---------------------------------

  predicate Strict(rs: seq<Reading>) {
    forall i, j :: 0 <= i < j < |rs| ==> rs[i].time < rs[j].time
  }

  predicate NotAhead(rs: seq<Reading>, id: string, latest: map<string, Reading>) {
    forall r :: r in rs ==> r.sensorId == id && id in latest && r.time <= latest[id].time
  }

  /** A response is ordered, about its sensor, and shows nothing newer than the live picture. */
  predicate InStep(s: Store, e: Event) {
    e.Answer? ==> Strict(e.readings) && NotAhead(e.readings, e.sensorId, s.latest)
  }

  predicate AllInStep(s: Store, events: seq<Event>)
    decreases |events|
  {
    events == [] || (InStep(s, events[0]) && AllInStep(Step(s, events[0]), events[1..]))
  }

  predicate HistoryOk(s: Store, id: string)
    requires id in s.rawHistory
  {
    Strict(s.rawHistory[id].readings) && NotAhead(s.rawHistory[id].readings, id, s.latest)
  }

  predicate HistoriesOk(s: Store) {
    forall id :: id in s.rawHistory ==> HistoryOk(s, id)
  }

  /** Shifting drops a prefix, all of it before the cutoff, and stops in time. */
  lemma {:induction false} ShiftedIsSuffix(rs: seq<Reading>, cutoff: int) returns (k: nat)
    ensures k <= |rs| && Shifted(rs, cutoff) == rs[k..]
    ensures forall i :: 0 <= i < k ==> rs[i].time < cutoff
    ensures k < |rs| ==> rs[k].time >= cutoff
  {
    if rs != [] && rs[0].time < cutoff {
      var j := ShiftedIsSuffix(rs[1..], cutoff);
      k := j + 1;
      assert rs[1..][j..] == rs[k..];
      assert forall i :: 0 < i < k ==> rs[i] == rs[1..][i - 1];
    } else {
      k := 0;
    }
  }

  lemma AppendKeepsStrict(rs: seq<Reading>, r: Reading)
    requires Strict(rs) && forall q :: q in rs ==> q.time < r.time
    ensures Strict(rs + [r]) && forall q :: q in rs + [r] <==> q in rs || q == r
  {
    forall i, j | 0 <= i < j < |rs + [r]|
      ensures (rs + [r])[i].time < (rs + [r])[j].time
    {
      assert (rs + [r])[i] in rs;
    }
  }

  lemma ConcatKeepsStrict(xs: seq<Reading>, ys: seq<Reading>)
    requires Strict(xs) && Strict(ys) && forall y :: y in ys ==> y.time > LastTime(xs)
    ensures Strict(xs + ys) && forall q :: q in xs + ys <==> q in xs || q in ys
  {
    forall i, j | 0 <= i < |xs| && 0 <= j < |ys|
      ensures xs[i].time < ys[j].time
    {
      assert ys[j] in ys && xs[i].time <= LastTime(xs);
    }
  }

  lemma {:induction false} AfterIsKept(rs: seq<Reading>, t: int)
    ensures forall r :: r in After(rs, t) <==> r in rs && r.time > t
    ensures Strict(rs) ==> Strict(After(rs, t))
  {
    if rs != [] {
      var n := |rs| - 1;
      AfterIsKept(rs[..n], t);
      assert rs == rs[..n] + [rs[n]];
      if Strict(rs) {
        AppendKeepsStrict(After(rs[..n], t), rs[n]);
      }
    }
  }

  /** The response ends at `time` or later; an empty one reaches to the start of the clock. */
  predicate ReachesTo(readings: seq<Reading>, time: int) {
    if readings == [] then time <= 0 else time <= readings[|readings| - 1].time
  }

  /** The merge: all of the response, then exactly the older history's newer readings, in order. */
  lemma MergeKeepsOrderAndNewer(s: Store, id: string, hours: nat, readings: seq<Reading>)
    requires Strict(readings)
    requires id in s.rawHistory ==> Strict(s.rawHistory[id].readings)
    ensures
      var h := Answered(s, id, hours, readings).rawHistory[id];
      var had := if id in s.rawHistory then s.rawHistory[id].readings else [];
      && h.hours == hours && Strict(h.readings) && readings <= h.readings
      && (forall r :: r in h.readings <==> r in readings || (r in had && !ReachesTo(readings, r.time)))
  {
    hide After;
    var had := if id in s.rawHistory then s.rawHistory[id].readings else [];
    AfterIsKept(had, LastTime(readings));
    ConcatKeepsStrict(readings, After(had, LastTime(readings)));
  }

  /** A live reading goes last, and the history is cut to its window: no less and no more. */
  lemma PushTrimsToWindow(h: History, r: Reading)
    requires Strict(h.readings) && forall q :: q in h.readings ==> q.time < r.time
    ensures
      var h' := Pushed(h, r);
      && Strict(h'.readings)
      && (forall q :: q in h'.readings <==> (q in h.readings || q == r) && q.time >= r.time - h.hours * 3_600_000)
      && h'.readings != [] && h'.readings[|h'.readings| - 1] == r
  {
    hide Shifted;
    var all := h.readings + [r];
    var cutoff := r.time - h.hours * HOUR;
    AppendKeepsStrict(h.readings, r);
    var k := ShiftedIsSuffix(all, cutoff);
    assert all[|h.readings|] == r;
    InWindow(all, cutoff, k);
    assert all[k..][|all[k..]| - 1] == r;
  }

  lemma InWindow(rs: seq<Reading>, cutoff: int, k: nat)
    requires Strict(rs) && k <= |rs|
    requires forall i :: 0 <= i < k ==> rs[i].time < cutoff
    requires k < |rs| ==> rs[k].time >= cutoff
    ensures Strict(rs[k..]) && forall q :: q in rs[k..] <==> q in rs && q.time >= cutoff
  {
    forall q
      ensures q in rs[k..] <==> q in rs && q.time >= cutoff
    {
      if q in rs && q.time >= cutoff {
        var i :| 0 <= i < |rs| && rs[i] == q;
        assert i >= k && rs[k..][i - k] == q;
      }
      if q in rs[k..] {
        var i :| 0 <= i < |rs[k..]| && rs[k..][i] == q;
        assert rs[k + i] == q && rs[k].time <= rs[k + i].time;
      }
    }
  }

  lemma StepKeepsHistories(s: Store, e: Event)
    requires HistoriesOk(s) && InStep(s, e)
    ensures HistoriesOk(Step(s, e))
  {
    var t := Step(s, e);
    forall id | id in t.rawHistory
      ensures HistoryOk(t, id)
    {
      match e
      case Answer(sensorId, hours, readings) =>
        if id == sensorId {
          assert id in s.rawHistory ==> HistoryOk(s, id);
          MergeKeepsOrderAndNewer(s, id, hours, readings);
        } else {
          assert HistoryOk(s, id);
        }
      case Apply(r, live) =>
        assert HistoryOk(s, id);
        if id == r.sensorId && live && Accepts(s.latest, r) {
          PushTrimsToWindow(s.rawHistory[id], r);
        }
    }
  }

  /** Whatever interleaving of pushes and responses: the histories stay strictly ordered. */
  lemma {:induction false} HistoriesStayOrdered(s: Store, events: seq<Event>)
    requires HistoriesOk(s) && AllInStep(s, events)
    ensures HistoriesOk(Run(s, events))
    decreases |events|
  {
    if events != [] {
      StepKeepsHistories(s, events[0]);
      HistoriesStayOrdered(Step(s, events[0]), events[1..]);
    }
  }

  /** The next push keeps the order exactly if it is newer than the last reading before it. */
  lemma PushKeepsOrderIff(h: History, r: Reading)
    requires Strict(h.readings)
    ensures Strict(Pushed(h, r).readings) <==> h.readings == [] || h.readings[|h.readings| - 1].time < r.time
  {
    var (all, n) := (h.readings + [r], |h.readings|);
    var k := ShiftedIsSuffix(all, r.time - h.hours * HOUR);
    assert all[n] == r && k <= n;
    if n > 0 && h.readings[n - 1].time >= r.time {
      assert k < n;
      assert all[k..][n - 1 - k] == all[n - 1] && all[k..][n - k] == r;
    } else {
      forall i | 0 <= i < n
        ensures all[i].time < r.time
      {
        assert i < n - 1 ==> h.readings[i].time < h.readings[n - 1].time;
      }
    }
  }

  // ----------------------------- Nothing gets lost -----------------------------

  /** `e` takes `r` off the screen: out of the window, or covered by a response. */
  predicate Supersedes(s: Store, e: Event, r: Reading)
    requires r.sensorId in s.rawHistory
  {
    match e
    case Apply(q, live) =>
      live && q.sensorId == r.sensorId && Accepts(s.latest, q) && r.time < q.time - s.rawHistory[r.sensorId].hours * 3_600_000
    case Answer(id, _, readings) => id == r.sensorId && ReachesTo(readings, r.time)
  }

  predicate Superseded(s: Store, events: seq<Event>, r: Reading)
    requires r.sensorId in s.rawHistory
    decreases |events|
  {
    events != [] && (Supersedes(s, events[0], r) || Superseded(Step(s, events[0]), events[1..], r))
  }

  lemma StepLosesNothing(s: Store, e: Event, r: Reading)
    requires r.sensorId in s.rawHistory && r in s.rawHistory[r.sensorId].readings
    ensures
      var t := Step(s, e);
      r.sensorId in t.rawHistory && (r in t.rawHistory[r.sensorId].readings || Supersedes(s, e, r))
  {
    var h := s.rawHistory[r.sensorId];
    match e
    case Answer(id, _, readings) =>
      AfterIsKept(h.readings, LastTime(readings));
    case Apply(q, live) =>
      var all := h.readings + [q];
      var k := ShiftedIsSuffix(all, q.time - h.hours * HOUR);
      var i :| 0 <= i < |h.readings| && h.readings[i] == r;
      assert all[i] == r && (i >= k ==> all[k..][i - k] == r);
  }

  /** A reading in a history stays in it until a window or a response has passed it by. */
  lemma {:induction false} NoReadingIsLost(s: Store, events: seq<Event>, r: Reading)
    requires r.sensorId in s.rawHistory && r in s.rawHistory[r.sensorId].readings
    ensures
      var t := Run(s, events);
      r.sensorId in t.rawHistory && (r in t.rawHistory[r.sensorId].readings || Superseded(s, events, r))
    decreases |events|
  {
    if events != [] {
      StepLosesNothing(s, events[0], r);
      if !Supersedes(s, events[0], r) {
        NoReadingIsLost(Step(s, events[0]), events[1..], r);
      } else {
        HistoriesRemain(Step(s, events[0]), events[1..], r.sensorId);
      }
    }
  }

  lemma {:induction false} HistoriesRemain(s: Store, events: seq<Event>, id: string)
    requires id in s.rawHistory
    ensures id in Run(s, events).rawHistory
    decreases |events|
  {
    if events != [] {
      HistoriesRemain(Step(s, events[0]), events[1..], id);
    }
  }

  lemma {:induction false} NoHistoryYet(s: Store, events: seq<Event>, id: string)
    requires id !in s.rawHistory
    requires forall i :: 0 <= i < |events| ==> events[i].Answer? ==> events[i].sensorId != id
    ensures id !in Run(s, events).rawHistory
    decreases |events|
  {
    if events != [] {
      NoHistoryYet(Step(s, events[0]), events[1..], id);
    }
  }

  lemma {:induction false} RunSnoc(s: Store, events: seq<Event>, e: Event)
    ensures Run(s, events + [e]) == Step(Run(s, events), e)
    decreases |events|
  {
    hide Step;
    var all := events + [e];
    if events == [] {
      assert all[1..] == [];
    } else {
      RunSnoc(Step(s, events[0]), events[1..], e);
      assert all[1..] == events[1..] + [e];
    }
  }

  /**
   * Before a sensor's first response there is nothing to append to: whatever comes in
   * while that request is under way, the history is then exactly the response, and a
   * live reading is in it if and only if the server put it there.
   */
  lemma FirstResponseIsTheHistory(
      s: Store, events: seq<Event>, id: string, hours: nat, readings: seq<Reading>, live: Reading)
    requires id !in s.rawHistory
    requires forall i :: 0 <= i < |events| ==> events[i].Answer? ==> events[i].sensorId != id
    ensures
      var t := Run(s, events + [Answer(id, hours, readings)]);
      && id in t.rawHistory && t.rawHistory[id] == History(hours, readings)
      && (live in t.rawHistory[id].readings <==> live in readings)
  {
    NoHistoryYet(s, events, id);
    RunSnoc(s, events, Answer(id, hours, readings));
    assert readings + [] == readings;
  }

  /** The loss: a live reading, newest in the picture, is missing from the history on screen. */
  lemma LiveReadingIsLost(first: Reading, live: Reading)
    requires first.sensorId == live.sensorId && first.time < live.time
    ensures
      var id := live.sensorId;
      var t := Run(EMPTY, [Apply(first, false), Apply(live, true)] + [Answer(id, 24, [first])]);
      && id in t.latest && t.latest[id] == live
      && id in t.rawHistory && live !in t.rawHistory[id].readings
  {
    var events := [Apply(first, false), Apply(live, true)];
    FirstResponseIsTheHistory(EMPTY, events, live.sensorId, 24, [first], live);
    RunSnoc(EMPTY, events, Answer(live.sensorId, 24, [first]));
    RunSnoc(EMPTY, [Apply(first, false)], Apply(live, true));
    RunSnoc(EMPTY, [], Apply(first, false));
    assert [] + [Apply(first, false)] == [Apply(first, false)];
    assert [Apply(first, false)] + [Apply(live, true)] == events;
  }

  // ------------------------ Order and contents, exactly ------------------------

  predicate Ordered(s: Store) {
    forall id :: id in s.rawHistory ==> Strict(s.rawHistory[id].readings)
  }

  /** A response in order, or a push that is newer than what the history ends with. */
  predicate KeepsOrder(s: Store, e: Event) {
    match e
    case Answer(_, _, readings) => Strict(readings)
    case Apply(r, live) =>
      live && Accepts(s.latest, r) && r.sensorId in s.rawHistory ==>
        var readings := s.rawHistory[r.sensorId].readings;
        readings == [] || readings[|readings| - 1].time < r.time
  }

  lemma PrefixIsStrict(xs: seq<Reading>, ys: seq<Reading>)
    requires Strict(xs + ys)
    ensures Strict(xs)
  {
    assert forall i :: 0 <= i < |xs| ==> (xs + ys)[i] == xs[i];
  }

  lemma StepOrderIff(s: Store, e: Event)
    requires Ordered(s)
    ensures Ordered(Step(s, e)) <==> KeepsOrder(s, e)
  {
    match e
    case Answer(id, hours, readings) =>
      var had := if id in s.rawHistory then s.rawHistory[id].readings else [];
      if Strict(readings) {
        MergeKeepsOrderAndNewer(s, id, hours, readings);
      } else if Ordered(Step(s, e)) {
        assert Step(s, e).rawHistory[id].readings == readings + After(had, LastTime(readings));
        assert Strict(Step(s, e).rawHistory[id].readings);
        hide Strict, After;
        PrefixIsStrict(readings, After(had, LastTime(readings)));
      }
    case Apply(r, live) =>
      if live && Accepts(s.latest, r) && r.sensorId in s.rawHistory {
        PushKeepsOrderIff(s.rawHistory[r.sensorId], r);
        assert Step(s, e).rawHistory[r.sensorId] == Pushed(s.rawHistory[r.sensorId], r);
        hide Pushed, Strict;
      }
  }

  predicate AlwaysOrdered(s: Store, events: seq<Event>) {
    forall n :: 0 <= n <= |events| ==> Ordered(Run(s, events[..n]))
  }

  predicate EveryStepKeepsOrder(s: Store, events: seq<Event>) {
    forall n :: 0 <= n < |events| ==> KeepsOrder(Run(s, events[..n]), events[n])
  }

  lemma NextOfRun(s: Store, events: seq<Event>, n: nat)
    requires n < |events|
    ensures Run(s, events[..n + 1]) == Step(Run(s, events[..n]), events[n])
  {
    RunSnoc(s, events[..n], events[n]);
    assert events[..n + 1] == events[..n] + [events[n]];
  }

  lemma {:induction false} OrderedUpTo(s: Store, events: seq<Event>, n: nat)
    requires Ordered(s) && EveryStepKeepsOrder(s, events) && n <= |events|
    ensures Ordered(Run(s, events[..n]))
  {
    hide Ordered, KeepsOrder, Step;
    if n > 0 {
      OrderedUpTo(s, events, n - 1);
      NextOfRun(s, events, n - 1);
      StepOrderIff(Run(s, events[..n - 1]), events[n - 1]);
    } else {
      assert events[..0] == [];
    }
  }

  /**
   * All histories stay strictly ordered through a run if and only if every response is
   * in order and every push is newer than what its history then ends with, whether or
   * not a response has run ahead of the picture.
   */
  lemma AlwaysOrderedIff(s: Store, events: seq<Event>)
    requires Ordered(s)
    ensures AlwaysOrdered(s, events) <==> EveryStepKeepsOrder(s, events)
  {
    hide Ordered, KeepsOrder, Step, Run;
    if AlwaysOrdered(s, events) {
      forall n | 0 <= n < |events|
        ensures KeepsOrder(Run(s, events[..n]), events[n])
      {
        NextOfRun(s, events, n);
        StepOrderIff(Run(s, events[..n]), events[n]);
      }
    }
    if EveryStepKeepsOrder(s, events) {
      forall n | 0 <= n <= |events|
        ensures Ordered(Run(s, events[..n]))
      {
        OrderedUpTo(s, events, n);
      }
    }
  }

  predicate OnScreen(s: Store, r: Reading) {
    r.sensorId in s.rawHistory && r in s.rawHistory[r.sensorId].readings
  }

  /** A response that holds `r`, or its live push if the picture has nothing as new and a history is loaded. */
  predicate Brings(s: Store, e: Event, r: Reading) {
    match e
    case Answer(id, _, readings) => id == r.sensorId && r in readings
    case Apply(q, live) => live && q == r && Accepts(s.latest, r) && r.sensorId in s.rawHistory
  }

  /** A response that reaches past `r` without it, or a push that moves the window past it. */
  predicate Removes(s: Store, e: Event, r: Reading) {
    match e
    case Answer(id, _, readings) => id == r.sensorId && r !in readings && ReachesTo(readings, r.time)
    case Apply(q, live) =>
      && live && q.sensorId == r.sensorId && Accepts(s.latest, q) && r.sensorId in s.rawHistory
      && r.time < q.time - s.rawHistory[r.sensorId].hours * 3_600_000
  }

  lemma StepShowsIff(s: Store, e: Event, r: Reading)
    requires Ordered(s) && KeepsOrder(s, e)
    ensures OnScreen(Step(s, e), r) <==> Brings(s, e, r) || (OnScreen(s, r) && !Removes(s, e, r))
  {
    match e
    case Answer(id, hours, readings) =>
      if id == r.sensorId {
        MergeKeepsOrderAndNewer(s, id, hours, readings);
      }
    case Apply(q, live) =>
      if live && q.sensorId == r.sensorId && Accepts(s.latest, q) && r.sensorId in s.rawHistory {
        var h := s.rawHistory[r.sensorId];
        OlderThanLast(h.readings, q);
        PushTrimsToWindow(h, q);
        assert Step(s, e).rawHistory[r.sensorId] == Pushed(h, q);
        hide Pushed;
      }
  }

  lemma OlderThanLast(rs: seq<Reading>, r: Reading)
    requires Strict(rs) && (rs == [] || rs[|rs| - 1].time < r.time)
    ensures forall q :: q in rs ==> q.time < r.time
  {
  }

  /** From the start, or by the `k`-th event. */
  predicate BroughtAt(s: Store, events: seq<Event>, k: nat, r: Reading)
    requires k <= |events|
  {
    if k == 0 then OnScreen(s, r) else Brings(Run(s, events[..k - 1]), events[k - 1], r)
  }

  predicate StaysFrom(s: Store, events: seq<Event>, k: nat, r: Reading) {
    forall j :: k <= j < |events| ==> !Removes(Run(s, events[..j]), events[j], r)
  }

  lemma OrderKeptBefore(s: Store, events: seq<Event>)
    requires events != [] && EveryStepKeepsOrder(s, events)
    ensures EveryStepKeepsOrder(s, events[..|events| - 1])
  {
    var before := events[..|events| - 1];
    assert forall n :: 0 <= n < |before| ==> before[..n] == events[..n];
    hide Run, KeepsOrder;
  }

  lemma OneMoreStep(s: Store, events: seq<Event>, k: nat, r: Reading)
    requires k < |events|
    ensures
      var (m, before) := (|events| - 1, events[..|events| - 1]);
      && (BroughtAt(s, events, k, r) <==> BroughtAt(s, before, k, r))
      && (StaysFrom(s, events, k, r) <==> StaysFrom(s, before, k, r) && !Removes(Run(s, before), events[m], r))
  {
    var (m, before) := (|events| - 1, events[..|events| - 1]);
    assert forall n :: 0 <= n <= m ==> before[..n] == events[..n];
    hide Run, Brings, Removes, OnScreen;
  }

  lemma LastStep(s: Store, events: seq<Event>, r: Reading)
    requires events != []
    ensures
      var n := |events|;
      && (BroughtAt(s, events, n, r) <==> Brings(Run(s, events[..n - 1]), events[n - 1], r))
      && StaysFrom(s, events, n, r)
  {
    hide Run, Brings, Removes, OnScreen;
  }

  /**
   * What is on screen after a run that keeps the order: a reading if and only if
   * something brought it and nothing has removed it since. In particular a live push
   * only if at that moment the picture held nothing as new, as after a poll that was
   * faster, and a history was loaded.
   */
  lemma {:induction false} OnScreenIff(s: Store, events: seq<Event>, r: Reading)
    requires Ordered(s) && EveryStepKeepsOrder(s, events)
    ensures OnScreen(Run(s, events), r) <==>
      exists k :: 0 <= k <= |events| && BroughtAt(s, events, k, r) && StaysFrom(s, events, k, r)
    decreases |events|
  {
    if events == [] {
      assert BroughtAt(s, events, 0, r) <==> OnScreen(s, r);
      assert StaysFrom(s, events, 0, r);
    } else {
      var m := |events| - 1;
      var (before, e) := (events[..m], events[m]);
      assert events[..m + 1] == events;
      OrderKeptBefore(s, events);
      OnScreenIff(s, before, r);
      OrderedUpTo(s, events, m);
      NextOfRun(s, events, m);
      StepShowsIff(Run(s, before), e, r);
      hide Step, Run, Brings, Removes, Ordered, EveryStepKeepsOrder, OnScreen, BroughtAt, StaysFrom;
      forall k | 0 <= k <= m
        ensures BroughtAt(s, events, k, r) <==> BroughtAt(s, before, k, r)
        ensures StaysFrom(s, events, k, r) <==> StaysFrom(s, before, k, r) && !Removes(Run(s, before), e, r)
      {
        OneMoreStep(s, events, k, r);
      }
      LastStep(s, events, r);
    }
  }

  /** The other loss: a poll that brings a reading first keeps its live push off the screen. */
  lemma PolledPushIsLost(s: Store, r: Reading)
    requires !OnScreen(s, r)
    ensures !OnScreen(Run(s, [Apply(r, false)] + [Apply(r, true)]), r)
  {
    RunSnoc(s, [Apply(r, false)], Apply(r, true));
    RunSnoc(s, [], Apply(r, false));
    assert [] + [Apply(r, false)] == [Apply(r, false)];
  }

  // ------------------------------ The last arrival ------------------------------

  /** The last live reading of the run that was new to the picture. */
  function LastNews(s: Store, events: seq<Event>): Option<Reading>
    decreases |events|
  {
    if events == [] then None
    else
      var (later, e) := (LastNews(Step(s, events[0]), events[1..]), events[0]);
      if later.Some? then later
      else if e.Apply? && e.live && (e.r.sensorId in s.latest ==> s.latest[e.r.sensorId].time < e.r.time) then Some(e.r)
      else None
  }

  /** What the map ripples for is the last live reading that was news, whatever polls brought since. */
  lemma {:induction false} LastLiveIsLastNews(s: Store, events: seq<Event>)
    ensures Run(s, events).lastLive == if LastNews(s, events).Some? then LastNews(s, events) else s.lastLive
    decreases |events|
  {
    hide After, Pushed;
    if events != [] {
      LastLiveIsLastNews(Step(s, events[0]), events[1..]);
    }
  }
}
