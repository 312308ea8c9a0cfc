/**
 * The live channel of the dashboard: `onConnection`, `stopPolling` and `stop` in
 * apps/dashboard/src/stores/air.ts, with the socket, the two timers and the pending
 * polls as they may interleave.
 */
module Connection {
  import opened Options

  datatype Channel = Connecting | Live | Reconnecting | Polling

  type Handle = nat

  /**
   * `pollDelay` and `pollTimer` are the store's variables; `delays` and `intervals` are
   * the timers that the event loop may still fire. `resyncs` counts the syncs that a
   * connect event asked for, `polls` the polls under way.
   */
  datatype Link = Link(
    channel: Channel, pollDelay: Option<Handle>, pollTimer: Option<Handle>,
    delays: set<Handle>, intervals: set<Handle>, nextHandle: Handle, polls: nat, resyncs: nat)

  const FRESH := Link(Connecting, None, None, {}, {}, 0, 0, 0)

  datatype Event =
    | Up                          // the socket connects
    | Down                        // it disconnects, or an attempt to connect fails
    | DelayFires(h: Handle)
    | IntervalFires(h: Handle)
    | PollSettles(ok: bool)

  predicate Enabled(l: Link, e: Event) {
    match e
    case DelayFires(h) => h in l.delays
    case IntervalFires(h) => h in l.intervals
    case PollSettles(_) => l.polls > 0
    case _ => true
  }

  function Held(h: Option<Handle>): set<Handle> {
    if h.Some? then {h.value} else {}
  }

  function Unpolled(l: Link): Link {
    l.(pollDelay := None, pollTimer := None,
       delays := l.delays - Held(l.pollDelay), intervals := l.intervals - Held(l.pollTimer))
  }

  function OnUp(l: Link): Link {
    Unpolled(l).(channel := Live, resyncs := if l.channel != Connecting then l.resyncs + 1 else l.resyncs)
  }

  function OnDown(l: Link): Link {
    var m := l.(channel := if l.channel == Live || l.channel == Connecting then Reconnecting else l.channel);
    if l.pollDelay.Some? || l.pollTimer.Some? then m
    else m.(pollDelay := Some(l.nextHandle), delays := l.delays + {l.nextHandle}, nextHandle := l.nextHandle + 1)
  }

  function Step(l: Link, e: Event): Link {
    match e
    case Up => OnUp(l)
    case Down => OnDown(l)
    case DelayFires(h) =>
      l.(pollDelay := None, delays := l.delays - {h}, polls := l.polls + 1,
         pollTimer := Some(l.nextHandle), intervals := l.intervals + {l.nextHandle}, nextHandle := l.nextHandle + 1)
    case IntervalFires(_) => l.(polls := l.polls + 1)
    case PollSettles(ok) =>
      l.(polls := if l.polls > 0 then l.polls - 1 else 0,
         channel := if l.channel == Live then Live else if ok then Polling else Reconnecting)
  }

  /** Any events, those that cannot happen left out. */
  function Run(start: Link, events: seq<Event>): Link {
    if events == [] then start
    else
      var l := Run(start, events[..|events| - 1]);
      var e := events[|events| - 1];
      if Enabled(l, e) then Step(l, e) else l
  }

  /** The link after any events since `load` subscribed to the socket. */
  function After(events: seq<Event>): Link {
    Run(FRESH, events)
  }

  class ConnectionState {
    var channel: Channel
    var pollDelay: Option<Handle>
    var pollTimer: Option<Handle>
    var delays: set<Handle>
    var intervals: set<Handle>
    var nextHandle: Handle
    var polls: nat
    var resyncs: nat

    constructor ()
      ensures Value() == FRESH
    {
      channel, pollDelay, pollTimer := Connecting, None, None;
      delays, intervals, nextHandle, polls, resyncs := {}, {}, 0, 0, 0;
    }

    function Value(): Link
      reads this
    {
      Link(channel, pollDelay, pollTimer, delays, intervals, nextHandle, polls, resyncs)
    }

    /** `stopPolling` */
    method StopPolling()
      modifies this`pollDelay, this`pollTimer, this`delays, this`intervals
      ensures Value() == Unpolled(old(Value()))
    {
      if pollDelay.Some? {
        delays := delays - {pollDelay.value};
      }
      if pollTimer.Some? {
        intervals := intervals - {pollTimer.value};
      }
      pollDelay := None;
      pollTimer := None;
    }

    /** `onConnection` */
    method OnConnection(connected: bool)
      modifies this
      ensures Value() == Step(old(Value()), if connected then Up else Down)
    {
      if connected {
        var wasDown := channel != Connecting;
        StopPolling();
        channel := Live;
        if wasDown {
          resyncs := resyncs + 1;
        }
        return;
      }
      if channel == Live || channel == Connecting {
        channel := Reconnecting;
      }
      if pollDelay.Some? || pollTimer.Some? {
        return;
      }
      pollDelay := Some(nextHandle);
      delays := delays + {nextHandle};
      nextHandle := nextHandle + 1;
    }

    /** The callback of the delay: poll once, and then at every tick. */
    method OnDelay(h: Handle)
      requires h in delays
      modifies this
      ensures Value() == Step(old(Value()), DelayFires(h))
    {
      delays := delays - {h};
      pollDelay := None;
      polls := polls + 1;
      pollTimer := Some(nextHandle);
      intervals := intervals + {nextHandle};
      nextHandle := nextHandle + 1;
    }

    /** `poll`, called by the interval. */
    method OnTick(h: Handle)
      requires h in intervals
      modifies this
      ensures Value() == Step(old(Value()), IntervalFires(h))
    {
      polls := polls + 1;
    }

    /** The continuation of a poll, however late. */
    method OnPollSettled(ok: bool)
      requires polls > 0
      modifies this
      ensures Value() == Step(old(Value()), PollSettles(ok))
    {
      polls := polls - 1;
      if ok {
        if channel != Live {
          channel := Polling;
        }
      } else {
        if channel != Live {
          channel := Reconnecting;
        }
      }
    }
  }

  // ------------------------------- Invariant -------------------------------

  predicate Inv(l: Link) {
    // no timer is live that the store has lost track of
    && l.delays == Held(l.pollDelay)
    && l.intervals == Held(l.pollTimer)
    && (forall h :: h in l.delays + l.intervals ==> h < l.nextHandle)
    // connecting or live: nothing is armed; otherwise exactly one of the two is
    && (l.channel in {Connecting, Live} ==> l.pollDelay.None? && l.pollTimer.None?)
    && (l.channel in {Reconnecting, Polling} ==> (l.pollDelay.Some? <==> l.pollTimer.None?))
    // a poll can only be under way after an outage
    && (l.channel == Connecting ==> l.polls == 0)
  }

  lemma {:induction false} EveryRunKeepsInv(events: seq<Event>)
    ensures Inv(After(events))
  {
    if events != [] {
      EveryRunKeepsInv(events[..|events| - 1]);
    }
  }

  // --------------------------------- Claims ---------------------------------

  /** Timers and state agree at every moment, over every interleaving. */
  lemma {:induction false} TimersMatchState(events: seq<Event>)
    ensures
      var l := After(events);
      && (l.channel in {Connecting, Live} <==> l.delays + l.intervals == {})
      && (l.channel in {Reconnecting, Polling} <==> |l.delays| + |l.intervals| == 1)
  {
    EveryRunKeepsInv(events);
    var l := After(events);
    assert l.delays == Held(l.pollDelay) && l.intervals == Held(l.pollTimer);
  }

  /** Two poll loops never run side by side, and never while the socket is up. */
  lemma {:induction false} OnePollLoop(events: seq<Event>, g: Handle, h: Handle)
    requires g in After(events).intervals && h in After(events).intervals
    ensures g == h && After(events).delays == {} && After(events).channel !in {Connecting, Live}
  {
    EveryRunKeepsInv(events);
  }

  /** How often the socket came up. */
  function Ups(events: seq<Event>): nat {
    if events == [] then 0 else Ups(events[..|events| - 1]) + if events[|events| - 1].Up? then 1 else 0
  }

  /** The first socket event of the run, if any, is a connect. */
  predicate UpAtFirst(events: seq<Event>) {
    if events == [] then false
    else
      var n := |events| - 1;
      if exists i :: 0 <= i < n && (events[i].Up? || events[i].Down?) then UpAtFirst(events[..n]) else events[n].Up?
  }

  lemma {:induction false} StillConnecting(events: seq<Event>)
    ensures After(events).channel == Connecting <==> !exists i :: 0 <= i < |events| && (events[i].Up? || events[i].Down?)
  {
    if events != [] {
      var n := |events| - 1;
      StillConnecting(events[..n]);
      EveryRunKeepsInv(events[..n]);
      assert forall i :: 0 <= i < n ==> events[..n][i] == events[i];
      if i :| 0 <= i < n && (events[i].Up? || events[i].Down?) {
        assert events[..n][i].Up? || events[..n][i].Down?;
      }
    }
  }

  /**
   * Every connect that follows another socket event asks for exactly one resync; only
   * the connect that opens the session does not.
   */
  lemma {:induction false} OneResyncPerReturn(events: seq<Event>)
    ensures After(events).resyncs + (if UpAtFirst(events) then 1 else 0) == Ups(events)
  {
    if events != [] {
      var n := |events| - 1;
      OneResyncPerReturn(events[..n]);
      StillConnecting(events[..n]);
      EveryRunKeepsInv(events[..n]);
      assert forall i :: 0 <= i < n ==> events[..n][i] == events[i];
      if i :| 0 <= i < n && (events[i].Up? || events[i].Down?) {
        assert events[..n][i].Up? || events[..n][i].Down?;
      } else {
        NoUps(events[..n]);
      }
    }
  }

  lemma {:induction false} NoUps(events: seq<Event>)
    requires forall i :: 0 <= i < |events| ==> !events[i].Up?
    ensures Ups(events) == 0 && !UpAtFirst(events)
  {
    if events != [] {
      NoUps(events[..|events| - 1]);
    }
  }

  /** Polls that settle, whether or not one is under way. */
  function Answers(events: seq<Event>): nat {
    if events == [] then 0
    else Answers(events[..|events| - 1]) + if events[|events| - 1].PollSettles? then 1 else 0
  }

  /**
   * Once the socket is up nothing but a disconnect matters: answers to polls of any
   * earlier outage may still come in, and repeated connects, but the state stays live,
   * no timer is armed and no poll is added.
   */
  lemma {:induction false} StaysLive(events: seq<Event>, more: seq<Event>)
    requires After(events).channel == Live && forall i :: 0 <= i < |more| ==> !more[i].Down?
    ensures
      var (l, n) := (After(events), Answers(more));
      Run(l, more) == l.(polls := if n < l.polls then l.polls - n else 0, resyncs := l.resyncs + Ups(more))
      && l.pollDelay.None? && l.pollTimer.None? && l.delays == l.intervals == {}
  {
    EveryRunKeepsInv(events);
    if more != [] {
      StaysLive(events, more[..|more| - 1]);
    }
  }

  lemma {:induction false} StoppedStaysUnarmed(l: Link, answers: seq<Event>)
    requires Inv(l) && forall i :: 0 <= i < |answers| ==> answers[i].PollSettles?
    ensures
      var t := Run(Unpolled(l), answers);
      && t.delays + t.intervals == {} && t.pollDelay.None? && t.pollTimer.None?
      && (t.channel in {Connecting, Live} <==> l.channel in {Connecting, Live})
      && (t.channel == Connecting ==> t.polls == 0)
  {
    if answers != [] {
      StoppedStaysUnarmed(l, answers[..|answers| - 1]);
    }
  }

  /**
   * `stop` clears the timers but not the state. Whatever polls under way then still
   * settle, the store is consistent exactly if it was stopped while connecting or live.
   * Stopped in an outage it says `polling` or `reconnecting` with no timer armed, until
   * the next socket event, which repairs it.
   */
  lemma {:induction false} StopIsCleanUnlessDown(events: seq<Event>, answers: seq<Event>)
    requires forall i :: 0 <= i < |answers| ==> answers[i].PollSettles?
    ensures
      var (l, t) := (After(events), Run(Unpolled(After(events)), answers));
      && t.delays + t.intervals == {}
      && (Inv(t) <==> l.channel in {Connecting, Live})
      && Inv(Step(t, Up)) && Inv(Step(t, Down))
  {
    EveryRunKeepsInv(events);
    StoppedStaysUnarmed(After(events), answers);
  }

  /** The failing case: stopped while polling, it says `polling` with no timer armed. */
  lemma StoppedWhilePolling()
    ensures
      var l := Step(Step(Step(FRESH, Down), DelayFires(0)), PollSettles(true));
      var t := Unpolled(l);
      l.channel == Polling && l.intervals != {} && t.channel == Polling && t.delays + t.intervals == {}
  {
  }

  // ------------------------------ Polls and ticks ------------------------------

  /** The events of a run that can happen when their turn comes. */
  function Happened(start: Link, events: seq<Event>): seq<Event> {
    if events == [] then []
    else
      var (before, e) := (events[..|events| - 1], events[|events| - 1]);
      Happened(start, before) + if Enabled(Run(start, before), e) then [e] else []
  }

  /** Delays that end and ticks of the interval. */
  function Fired(events: seq<Event>): nat {
    if events == [] then 0
    else
      var e := events[|events| - 1];
      Fired(events[..|events| - 1]) + if e.DelayFires? || e.IntervalFires? then 1 else 0
  }

  lemma OneMoreHappened(events: seq<Event>, e: Event)
    ensures Fired(events + [e]) == Fired(events) + if e.DelayFires? || e.IntervalFires? then 1 else 0
    ensures Answers(events + [e]) == Answers(events) + if e.PollSettles? then 1 else 0
  {
    assert (events + [e])[..|events|] == events;
  }

  lemma PollStep(l: Link, e: Event)
    requires Enabled(l, e)
    ensures Step(l, e).polls + (if e.PollSettles? then 1 else 0) == l.polls + if e.DelayFires? || e.IntervalFires? then 1 else 0
  {
  }

  /**
   * Over every run: each delay that ends and each tick starts exactly one poll, and a
   * poll is under way until it settles.
   */
  lemma {:induction false} EveryTickPolls(events: seq<Event>)
    ensures
      var happened := Happened(FRESH, events);
      After(events).polls + Answers(happened) == Fired(happened)
  {
    if events != [] {
      var (before, e) := (events[..|events| - 1], events[|events| - 1]);
      var (l, earlier) := (After(before), Happened(FRESH, before));
      EveryTickPolls(before);
      OneMoreHappened(earlier, e);
      if Enabled(l, e) {
        PollStep(l, e);
      }
      assert earlier + [] == earlier;
      hide Step, Enabled, Answers, Fired;
    }
  }
}
