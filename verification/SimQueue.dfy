/**
 * One simulated device of services/simulator/src/index.ts: the promise chain that
 * `serial` keeps for it, the timer `schedule` keeps for it, and its frame counter.
 * Devices share the event loop and nothing else.
 */
module SimQueue {
  import opened Bytes
  import opened Options

  const DEFAULT_INTERVAL_S := 300

  /** What `serial` chains: a wake, or the delivery of a downlink. */
  datatype Job = WakeJob | DeliverJob(data: seq<Byte>)

  /** A call of the firmware and the sleep it answered, None if it failed; a wake passes `--boot` or not. */
  datatype Call = WakeCall(boot: bool, answer: Option<nat>) | DeliverCall(data: seq<Byte>, answer: Option<nat>)

  type Handle = nat

  /**
   * `queue` is the jobs chained behind the running one. `timer` is the handle in the
   * `timers` map; `live` is the timers of the event loop that may still fire, with the
   * sleep each was armed for, which `sleepMs` scales to simulated time; `boot` is that of the wake under way. `chained`, `begun` and `calls` are history: all jobs
   * ever chained, all ever begun, and all calls that have ended.
   */
  datatype Device = Device(
    queue: seq<Job>, running: Option<Job>, timer: Option<Handle>, live: map<Handle, nat>, nextHandle: Handle,
    frameCounter: nat, booted: bool, boot: bool, started: bool, chained: seq<Job>, begun: seq<Job>, calls: seq<Call>)

  const FRESH := Device([], None, None, map[], 0, 0, false, false, false, [], [], [])

  datatype Event =
    | Start                                   // `main` wakes every device once
    | TimerFires(h: Handle)
    | DownlinkArrives(data: seq<Byte>)
    | Begin                                   // the job in front settled: the next one runs
    | Settle(firmware: Option<nat>)           // the running job ends; the firmware's sleep, or it failed

  predicate Enabled(d: Device, e: Event) {
    match e
    case Start => !d.started
    case TimerFires(h) => h in d.live
    case DownlinkArrives(_) => true
    case Begin => d.running.None? && d.queue != []
    case Settle(_) => d.running.Some?
  }

  function Chained(d: Device, job: Job): Device {
    d.(queue := d.queue + [job], chained := d.chained + [job])
  }

  /** `clearTimeout` of the old timer, then a new one. */
  function Scheduled(d: Device, sleepS: nat): Device {
    var left := if d.timer.Some? then d.live - {d.timer.value} else d.live;
    d.(timer := Some(d.nextHandle), live := left[d.nextHandle := sleepS], nextHandle := d.nextHandle + 1)
  }

  /** A wake always schedules the next one; a delivery does only if the firmware ran. */
  function Ended(d: Device, job: Job, firmware: Option<nat>): Device {
    match job
    case WakeJob => Scheduled(d, firmware.GetOr(DEFAULT_INTERVAL_S))
    case DeliverJob(_) => if firmware.Some? then Scheduled(d, firmware.value) else d
  }

  function CallOf(d: Device, answer: Option<nat>): Call
    requires d.running.Some?
  {
    match d.running.value
    case WakeJob => WakeCall(d.boot, answer)
    case DeliverJob(data) => DeliverCall(data, answer)
  }

  function Step(d: Device, e: Event): Device
    requires Enabled(d, e)
  {
    match e
    case Start => Chained(d.(started := true), WakeJob)
    case TimerFires(h) => Chained(d.(live := d.live - {h}), WakeJob)
    case DownlinkArrives(data) => Chained(d, DeliverJob(data))
    case Begin =>
      var job := d.queue[0];
      d.(running := Some(job), queue := d.queue[1..], begun := d.begun + [job],
         frameCounter := if job.WakeJob? then d.frameCounter + 1 else d.frameCounter,
         boot := if job.WakeJob? then !d.booted else d.boot,
         booted := d.booted || job.WakeJob?)
    case Settle(firmware) =>
      Ended(d, d.running.value, firmware).(running := None, calls := d.calls + [CallOf(d, firmware)])
  }

  /** The device after any events, in the order the event loop ran them. */
  function After(events: seq<Event>): Device {
    if events == [] then FRESH
    else
      var d := After(events[..|events| - 1]);
      var e := events[|events| - 1];
      if Enabled(d, e) then Step(d, e) else d
  }

  // ------------------------------ The same, in place ------------------------------

  class SimDevice {
    var queue: seq<Job>
    var running: Option<Job>
    var timer: Option<Handle>
    var live: map<Handle, nat>
    var nextHandle: Handle
    var frameCounter: nat
    var booted: bool
    var boot: bool
    var started: bool
    ghost var chained: seq<Job>
    ghost var begun: seq<Job>
    ghost var calls: seq<Call>

    constructor ()
      ensures Value() == FRESH
    {
      queue, running, timer, live, nextHandle := [], None, None, map[], 0;
      frameCounter, booted, boot, started := 0, false, false, false;
      chained, begun, calls := [], [], [];
    }

    ghost function Value(): Device
      reads this
    {
      Device(queue, running, timer, live, nextHandle, frameCounter, booted, boot, started, chained, begun, calls)
    }

    /** `serial` */
    method Serial(job: Job)
      modifies this`queue, this`chained
      ensures Value() == Chained(old(Value()), job)
    {
      queue := queue + [job];
      chained := chained + [job];
    }

    /** `schedule` */
    method Schedule(sleepS: nat)
      modifies this`timer, this`live, this`nextHandle
      ensures Value() == Scheduled(old(Value()), sleepS)
    {
      if timer.Some? {
        live := live - {timer.value};
      }
      timer := Some(nextHandle);
      live := live[nextHandle := sleepS];
      nextHandle := nextHandle + 1;
    }

    /** The device is started: its first wake is chained. */
    method Start()
      requires Enabled(Value(), Event.Start)
      modifies this
      ensures Value() == Step(old(Value()), Event.Start)
    {
      started := true;
      Serial(WakeJob);
    }

    /** A timer's callback: `wake` chains itself. */
    method OnTimer(h: Handle)
      requires Enabled(Value(), TimerFires(h))
      modifies this
      ensures Value() == Step(old(Value()), TimerFires(h))
    {
      live := live - {h};
      Serial(WakeJob);
    }

    /** The gateway's downlink handler. */
    method OnDownlink(data: seq<Byte>)
      modifies this
      ensures Value() == Step(old(Value()), DownlinkArrives(data))
    {
      Serial(DeliverJob(data));
    }

    /** The promise in front settled: the next function of the chain starts. */
    method Begin()
      requires Enabled(Value(), Event.Begin)
      modifies this
      ensures Value() == Step(old(Value()), Event.Begin)
    {
      var job := queue[0];
      queue := queue[1..];
      running := Some(job);
      begun := begun + [job];
      if job.WakeJob? {
        frameCounter := frameCounter + 1;
        boot := !booted;
        booted := true;
      }
    }

    /** The end of the running function; None is a firmware call that failed. */
    method Settle(firmware: Option<nat>)
      requires Enabled(Value(), Event.Settle(firmware))
      modifies this
      ensures Value() == Step(old(Value()), Event.Settle(firmware))
    {
      calls := calls + [CallOf(Value(), firmware)];
      if running.value.WakeJob? {
        var sleepS := DEFAULT_INTERVAL_S;
        if firmware.Some? {
          sleepS := firmware.value;
        }
        Schedule(sleepS);
      } else if firmware.Some? {
        Schedule(firmware.value);
      }
      running := None;
    }
  }

  // ------------------------------- Invariants -------------------------------

  function Wakes(jobs: seq<Job>): nat {
    if jobs == [] then 0
    else Wakes(jobs[..|jobs| - 1]) + if jobs[|jobs| - 1].WakeJob? then 1 else 0
  }

  /** A wake is queued, running, or waits for a timer. */
  predicate Alive(d: Device) {
    WakeJob in d.queue || d.running == Some(WakeJob) || d.live != map[]
  }

  /** The bookkeeping of timers, jobs and counters. */
  predicate Consistent(d: Device) {
    && (forall h :: h in d.live ==> d.timer == Some(h))
    && (d.timer.Some? ==> d.timer.value < d.nextHandle)
    && d.chained == d.begun + d.queue
    && (d.running.Some? ==> d.begun != [] && d.running.value == d.begun[|d.begun| - 1])
    && d.frameCounter == Wakes(d.begun)
    && (d.booted <==> d.frameCounter > 0)
  }

  function WakeCalls(calls: seq<Call>): nat {
    if calls == [] then 0
    else WakeCalls(calls[..|calls| - 1]) + if calls[|calls| - 1].WakeCall? then 1 else 0
  }

  /** `--boot` is passed by the first wake call and by no other. */
  predicate BootsFirstOnly(calls: seq<Call>) {
    forall i :: 0 <= i < |calls| && calls[i].WakeCall? ==> (calls[i].boot <==> WakeCalls(calls[..i]) == 0)
  }

  predicate BootBookkeeping(d: Device) {
    && BootsFirstOnly(d.calls)
    && d.frameCounter == WakeCalls(d.calls) + (if d.running == Some(WakeJob) then 1 else 0)
    && (d.running == Some(WakeJob) ==> (d.boot <==> WakeCalls(d.calls) == 0))
  }

  predicate Inv(d: Device) {
    (d.started ==> Alive(d)) && Consistent(d) && BootBookkeeping(d)
  }

  lemma ChainKeepsInv(d: Device, job: Job)
    requires Consistent(d)
    ensures Consistent(Chained(d, job))
    ensures job.WakeJob? || Alive(d) ==> Alive(Chained(d, job))
  {
    var d' := Chained(d, job);
    assert d'.queue[|d.queue|] == job;
    assert WakeJob in d.queue ==> WakeJob in d'.queue;
  }

  lemma BeginKeepsInv(d: Device)
    requires Inv(d) && Enabled(d, Begin)
    ensures Inv(Step(d, Begin))
  {
    assert d.queue == [d.queue[0]] + d.queue[1..];
    assert (d.begun + [d.queue[0]])[..|d.begun|] == d.begun;
  }

  lemma OneMoreCall(calls: seq<Call>, call: Call)
    ensures WakeCalls(calls + [call]) == WakeCalls(calls) + if call.WakeCall? then 1 else 0
    ensures BootsFirstOnly(calls) && (call.WakeCall? ==> (call.boot <==> WakeCalls(calls) == 0)) ==>
      BootsFirstOnly(calls + [call])
  {
    var all := calls + [call];
    assert all[..|calls|] == calls;
    assert forall i :: 0 <= i < |calls| ==> all[..i] == calls[..i] && all[i] == calls[i];
  }

  lemma ScheduleKeepsTimers(d: Device, sleepS: nat)
    requires Consistent(d)
    ensures Consistent(Scheduled(d, sleepS)) && Scheduled(d, sleepS).live != map[]
  {
    hide Wakes;
    assert d.nextHandle in Scheduled(d, sleepS).live;
  }

  lemma SettleKeepsTimers(d: Device, firmware: Option<nat>)
    requires (d.started ==> Alive(d)) && Consistent(d) && Enabled(d, Settle(firmware))
    ensures
      var d' := Step(d, Settle(firmware));
      (d'.started ==> Alive(d')) && Consistent(d')
  {
    ScheduleKeepsTimers(d, firmware.GetOr(DEFAULT_INTERVAL_S));
    hide Wakes, CallOf, Scheduled;
  }

  lemma SettleKeepsCounters(d: Device, firmware: Option<nat>)
    requires Enabled(d, Settle(firmware))
    ensures
      var d' := Step(d, Settle(firmware));
      d'.frameCounter == d.frameCounter && d'.running.None? && d'.calls == d.calls + [CallOf(d, firmware)]
  {
    hide CallOf;
  }

  lemma SettleKeepsBoots(d: Device, firmware: Option<nat>)
    requires BootBookkeeping(d) && Enabled(d, Settle(firmware))
    ensures BootBookkeeping(Step(d, Settle(firmware)))
  {
    OneMoreCall(d.calls, CallOf(d, firmware));
    SettleKeepsCounters(d, firmware);
    hide BootsFirstOnly, WakeCalls, Step;
  }

  lemma SettleKeepsInv(d: Device, firmware: Option<nat>)
    requires Inv(d) && Enabled(d, Settle(firmware))
    ensures Inv(Step(d, Settle(firmware)))
  {
    SettleKeepsTimers(d, firmware);
    SettleKeepsBoots(d, firmware);
    hide Alive, Consistent, BootBookkeeping, Step;
  }

  lemma StepKeepsInv(d: Device, e: Event)
    requires Inv(d) && Enabled(d, e)
    ensures Inv(Step(d, e))
  {
    match e
    case Start => ChainKeepsInv(d.(started := true), WakeJob);
    case TimerFires(h) => ChainKeepsInv(d.(live := d.live - {h}), WakeJob);
    case DownlinkArrives(data) => ChainKeepsInv(d, DeliverJob(data));
    case Begin => BeginKeepsInv(d);
    case Settle(firmware) => SettleKeepsInv(d, firmware);
  }

  lemma {:induction false} EveryRunKeepsInv(events: seq<Event>)
    ensures Inv(After(events))
  {
    if events != [] {
      var n := |events| - 1;
      EveryRunKeepsInv(events[..n]);
      if Enabled(After(events[..n]), events[n]) {
        StepKeepsInv(After(events[..n]), events[n]);
      }
    }
  }

  // --------------------------------- Claims ---------------------------------

  lemma {:induction false} StartedIff(events: seq<Event>)
    ensures After(events).started <==> Start in events
  {
    if events != [] {
      var n := |events| - 1;
      StartedIff(events[..n]);
      assert events == events[..n] + [events[n]];
    }
  }

  /** A started device never goes silent, whatever fails and in whatever order. */
  lemma NeverSilent(events: seq<Event>)
    ensures Start in events <==> After(events).started
    ensures Start in events ==> Alive(After(events))
  {
    StartedIff(events);
    EveryRunKeepsInv(events);
  }

  /** At most one timer can fire. */
  lemma {:induction false} OneTimer(events: seq<Event>, g: Handle, h: Handle)
    requires g in After(events).live && h in After(events).live
    ensures g == h && After(events).timer == Some(h)
  {
    EveryRunKeepsInv(events);
  }

  /** Jobs begin in the order they were chained, one at a time, none left out. */
  lemma {:induction false} FirstInFirstOut(events: seq<Event>)
    ensures
      var d := After(events);
      d.begun <= d.chained && d.queue == d.chained[|d.begun|..]
      && (d.running.Some? ==> d.begun != [] && d.running.value == d.begun[|d.begun| - 1])
  {
    EveryRunKeepsInv(events);
  }

  /** The frame counter counts the wakes begun: one more for each, failed or not. */
  lemma {:induction false} FrameCounterCountsWakes(events: seq<Event>)
    ensures After(events).frameCounter == Wakes(After(events).begun)
  {
    EveryRunKeepsInv(events);
  }

  lemma StepGrows(d: Device, e: Event)
    requires Enabled(d, e)
    ensures d.begun <= Step(d, e).begun && d.chained <= Step(d, e).chained
  {
  }

  /** Histories only grow, so nothing that began can begin again. */
  lemma {:induction false} HistoryGrows(events: seq<Event>, more: seq<Event>)
    ensures After(events).begun <= After(events + more).begun
    ensures After(events).chained <= After(events + more).chained
    decreases |more|
  {
    if more == [] {
      assert events + more == events;
    } else {
      var n := |more| - 1;
      HistoryGrows(events, more[..n]);
      assert (events + more)[..|events + more| - 1] == events + more[..n];
      var d := After(events + more[..n]);
      if Enabled(d, more[n]) {
        StepGrows(d, more[n]);
      }
      hide Step, Enabled;
    }
  }

  /**
   * A downlink that arrives, in a wake or at any other time, is delivered once, and
   * not before everything chained ahead of it has begun. As the running job is always
   * the last one begun, a wake that was running has then ended.
   */
  lemma {:induction false} DeliveredInTurn(events: seq<Event>, data: seq<Byte>, more: seq<Event>)
    ensures
      var ahead := After(events).chained;
      var d := After(events + [DownlinkArrives(data)] + more);
      && |ahead| < |d.chained| && d.chained[|ahead|] == DeliverJob(data)
      && (|ahead| < |d.begun| ==> d.begun[..|ahead|] == ahead && d.begun[|ahead|] == DeliverJob(data))
  {
    var all := events + [DownlinkArrives(data)];
    assert all[..|all| - 1] == events;
    HistoryGrows(all, more);
    FirstInFirstOut(all + more);
    var d := After(all + more);
    assert After(all).chained == After(events).chained + [DeliverJob(data)];
    assert d.chained[..|After(all).chained|] == After(all).chained;
    assert d.begun == d.chained[..|d.begun|];
  }

  /** The first wake call of the run. */
  function FirstWakeCall(calls: seq<Call>): (r: Option<nat>)
    ensures r.Some? ==> r.value < |calls| && calls[r.value].WakeCall? && WakeCalls(calls[..r.value]) == 0
    ensures r.None? ==> WakeCalls(calls) == 0
  {
    if calls == [] then None
    else
      var n := |calls| - 1;
      var r := FirstWakeCall(calls[..n]);
      if r.Some? then
        assert calls[..n][..r.value] == calls[..r.value];
        r
      else if calls[n].WakeCall? then Some(n)
      else None
  }

  lemma {:induction false} EarlierWakesCount(calls: seq<Call>, i: nat, j: nat)
    requires i < j <= |calls| && calls[i].WakeCall?
    ensures WakeCalls(calls[..j]) > 0
    decreases j
  {
    assert calls[..j][..j - 1] == calls[..j - 1];
    if i < j - 1 {
      EarlierWakesCount(calls, i, j - 1);
    }
  }

  predicate WorkingBoot(call: Call) {
    call.WakeCall? && call.boot && call.answer.Some?
  }

  /**
   * Only the first wake tells the firmware of the power cycle, and it does not try
   * again: the restart reaches the firmware if and only if that one call works.
   */
  lemma {:induction false} PowerCycleSeenIff(events: seq<Event>)
    ensures
      var calls := After(events).calls;
      (exists i :: 0 <= i < |calls| && WorkingBoot(calls[i])) <==>
        FirstWakeCall(calls).Some? && calls[FirstWakeCall(calls).value].answer.Some?
  {
    EveryRunKeepsInv(events);
    var calls := After(events).calls;
    var first := FirstWakeCall(calls);
    assert calls[..|calls|] == calls;
    if i :| 0 <= i < |calls| && WorkingBoot(calls[i]) {
      assert WakeCalls(calls[..i]) == 0;
      if first.None? {
        EarlierWakesCount(calls, i, |calls|);
      } else if first.value < i {
        EarlierWakesCount(calls, first.value, i);
      } else if i < first.value {
        EarlierWakesCount(calls, i, first.value);
      }
    }
    if first.Some? && calls[first.value].answer.Some? {
      assert WorkingBoot(calls[first.value]);
    }
  }

  /** The failing restart: the first call, with `--boot`, fails, and the second goes without. */
  lemma RestartMayBeMissed()
    ensures
      var d1 := Step(Step(FRESH, Start), Begin);
      var d2 := Step(d1, Settle(None));
      var d3 := Step(Step(Step(d2, TimerFires(0)), Begin), Settle(Some(300)));
      d3.calls == [WakeCall(true, None), WakeCall(false, Some(300))]
  {
  }

  // ------------------------------ One wake at a time ------------------------------

  /** The wakes queued, running or waiting for a timer that can fire. */
  function WakesAhead(d: Device): nat {
    Wakes(d.queue) + (if d.running == Some(WakeJob) then 1 else 0) + |d.live|
  }

  /** What adds a wake: a start on top of one, or a delivery that schedules while one is queued. */
  predicate AddsWake(d: Device, e: Event) {
    match e
    case Start => WakesAhead(d) > 0
    case Settle(firmware) => d.running.Some? && d.running.value.DeliverJob? && firmware.Some? && Wakes(d.queue) > 0
    case _ => false
  }

  lemma {:induction false} WakesOfTail(jobs: seq<Job>)
    requires jobs != []
    ensures Wakes(jobs) == Wakes(jobs[1..]) + if jobs[0].WakeJob? then 1 else 0
  {
    var n := |jobs| - 1;
    if n > 0 {
      WakesOfTail(jobs[..n]);
      assert jobs[..n][1..] == jobs[1..][..n - 1];
    }
  }

  lemma WakesOfOneMore(jobs: seq<Job>, job: Job)
    ensures Wakes(jobs + [job]) == Wakes(jobs) + if job.WakeJob? then 1 else 0
  {
    assert (jobs + [job])[..|jobs|] == jobs;
  }

  lemma TimersAtMostOne(d: Device)
    requires Consistent(d)
    ensures d.live.Keys <= (if d.timer.Some? then {d.timer.value} else {})
    ensures |d.live| <= 1
  {
    var keys := if d.timer.Some? then {d.timer.value} else {};
    SubsetIsSmaller(d.live.Keys, keys);
    assert |d.live.Keys| == |d.live|;
  }

  lemma {:induction false} SubsetIsSmaller(a: set<Handle>, b: set<Handle>)
    requires a <= b
    ensures |a| <= |b|
    decreases a
  {
    if a != {} {
      var x :| x in a;
      SubsetIsSmaller(a - {x}, b - {x});
    }
  }

  lemma OneTimerAfter(d: Device, sleepS: nat)
    requires Consistent(d)
    ensures |Scheduled(d, sleepS).live| == 1
  {
    var left := if d.timer.Some? then d.live - {d.timer.value} else d.live;
    assert left == map[];
  }

  lemma FiredTimer(d: Device, h: Handle)
    requires h in d.live
    ensures |d.live - {h}| == |d.live| - 1
  {
    assert (d.live - {h}).Keys == d.live.Keys - {h};
    assert |d.live.Keys| == |d.live| && |(d.live - {h}).Keys| == |d.live - {h}|;
  }

  lemma OneWakeSettleIff(d: Device, firmware: Option<nat>)
    requires Consistent(d) && Enabled(d, Settle(firmware)) && WakesAhead(d) <= 1
    ensures WakesAhead(Step(d, Settle(firmware))) <= 1 <==> !AddsWake(d, Settle(firmware))
  {
    OneTimerAfter(d, firmware.GetOr(DEFAULT_INTERVAL_S));
    hide Wakes, Scheduled, CallOf, Consistent;
  }

  /** From one wake ahead at most, a step leaves more exactly in those two cases. */
  lemma OneWakeStepIff(d: Device, e: Event)
    requires Inv(d) && Enabled(d, e) && WakesAhead(d) <= 1
    ensures WakesAhead(Step(d, e)) <= 1 <==> !AddsWake(d, e)
  {
    hide Wakes, BootBookkeeping, Alive;
    match e
    case Start => WakesOfOneMore(d.queue, WakeJob);
    case TimerFires(h) =>
      WakesOfOneMore(d.queue, WakeJob);
      FiredTimer(d, h);
    case DownlinkArrives(data) => WakesOfOneMore(d.queue, DeliverJob(data));
    case Begin => WakesOfTail(d.queue);
    case Settle(firmware) => OneWakeSettleIff(d, firmware);
  }

  predicate AlwaysOneWake(events: seq<Event>) {
    forall n :: 0 <= n <= |events| ==> WakesAhead(After(events[..n])) <= 1
  }

  predicate NeverAddsWake(events: seq<Event>) {
    forall n :: 0 <= n < |events| && Enabled(After(events[..n]), events[n]) ==> !AddsWake(After(events[..n]), events[n])
  }

  lemma NextOfRun(events: seq<Event>, n: nat)
    requires n < |events|
    ensures
      var d := After(events[..n]);
      After(events[..n + 1]) == if Enabled(d, events[n]) then Step(d, events[n]) else d
  {
    assert events[..n + 1][..n] == events[..n];
  }

  lemma {:induction false} OneWakeUpTo(events: seq<Event>, n: nat)
    requires NeverAddsWake(events) && n <= |events|
    ensures WakesAhead(After(events[..n])) <= 1
  {
    hide Step, Enabled, Inv, AddsWake;
    if n > 0 {
      OneWakeUpTo(events, n - 1);
      NextOfRun(events, n - 1);
      var d := After(events[..n - 1]);
      EveryRunKeepsInv(events[..n - 1]);
      if Enabled(d, events[n - 1]) {
        OneWakeStepIff(d, events[n - 1]);
      }
    } else {
      assert events[..0] == [];
    }
  }

  /**
   * Through a run at most one wake is ever queued, running or timed, so that a sleep
   * lies between any two, if and only if the device is started before anything has
   * armed a timer and no delivery schedules while a wake is queued behind it.
   */
  lemma OneWakeIff(events: seq<Event>)
    ensures AlwaysOneWake(events) <==> NeverAddsWake(events)
  {
    hide Step, Enabled, Inv, AddsWake, WakesAhead, After;
    if AlwaysOneWake(events) {
      forall n | 0 <= n < |events| && Enabled(After(events[..n]), events[n])
        ensures !AddsWake(After(events[..n]), events[n])
      {
        NextOfRun(events, n);
        EveryRunKeepsInv(events[..n]);
        OneWakeStepIff(After(events[..n]), events[n]);
      }
    }
    if NeverAddsWake(events) {
      forall n | 0 <= n <= |events|
        ensures WakesAhead(After(events[..n])) <= 1
      {
        OneWakeUpTo(events, n);
      }
    }
  }

  /**
   * The failing case: a timer fires while a delivery runs, which then arms another; that
   * one fires during the wake, and the next wake begins as soon as this one has ended.
   */
  lemma WakesMayRunBackToBack(d: Device, data: seq<Byte>, h: Handle)
    requires Inv(d) && d.running == Some(DeliverJob(data)) && d.queue == [] && h in d.live
    ensures
      var delivered := Step(Step(d, TimerFires(h)), Settle(Some(300)));
      var waking := Step(Step(delivered, Begin), TimerFires(delivered.nextHandle - 1));
      var again := Step(Step(waking, Settle(Some(300))), Begin);
      waking.running == Some(WakeJob) && again.running == Some(WakeJob)
  {
  }

  // ------------------------------ How long it sleeps ------------------------------

  /** A call that arms a timer: every wake, and every delivery that worked. */
  predicate Arms(call: Call) {
    call.WakeCall? || call.answer.Some?
  }

  /** The sleep it asks for: the firmware's answer, or five minutes if it gave none. */
  function SleepOf(call: Call): nat {
    match call.answer
    case Some(sleepS) => sleepS
    case None => 300
  }

  function LastArming(calls: seq<Call>): Option<Call> {
    if calls == [] then None
    else if Arms(calls[|calls| - 1]) then Some(calls[|calls| - 1])
    else LastArming(calls[..|calls| - 1])
  }

  predicate TimersCarrySleep(d: Device) {
    forall h :: h in d.live ==> LastArming(d.calls).Some? && d.live[h] == SleepOf(LastArming(d.calls).value)
  }

  /** What a job that ends leaves armed: one timer with its sleep, or what was armed before. */
  lemma SettleArms(d: Device, firmware: Option<nat>)
    requires Inv(d) && d.running.Some?
    ensures
      var (d', wake) := (Step(d, Settle(firmware)), d.running == Some(WakeJob));
      && (wake || firmware.Some? ==> d'.timer.Some? && d'.live == map[d'.timer.value := if firmware.Some? then firmware.value else 300])
      && (!wake && firmware.None? ==> d'.live == d.live && d'.timer == d.timer)
  {
    hide BootBookkeeping, Alive, Wakes;
  }

  lemma SettleKeepsSleep(d: Device, firmware: Option<nat>)
    requires Inv(d) && d.running.Some? && TimersCarrySleep(d)
    ensures TimersCarrySleep(Step(d, Settle(firmware)))
  {
    SettleArms(d, firmware);
    SettleKeepsCounters(d, firmware);
    var calls := d.calls + [CallOf(d, firmware)];
    assert calls[..|d.calls|] == d.calls;
    hide Inv, Step;
  }

  lemma StepKeepsSleep(d: Device, e: Event)
    requires Inv(d) && Enabled(d, e) && TimersCarrySleep(d)
    ensures TimersCarrySleep(Step(d, e))
  {
    if e.Settle? {
      SettleKeepsSleep(d, e.firmware);
    }
    hide Inv;
  }

  /**
   * Over every run: the timer that can fire carries the sleep that the last call to arm
   * one returned, 300 s if that was a wake whose firmware failed.
   */
  lemma {:induction false} TimerCarriesTheSleep(events: seq<Event>)
    ensures TimersCarrySleep(After(events))
  {
    hide Step, Inv;
    if events != [] {
      var n := |events| - 1;
      TimerCarriesTheSleep(events[..n]);
      EveryRunKeepsInv(events[..n]);
      if Enabled(After(events[..n]), events[n]) {
        StepKeepsSleep(After(events[..n]), events[n]);
      }
    }
  }
}
