/**
 * Restarting the simulator over kept state files: what the calls of services/simulator
 * (index.ts) do to the state file of firmware/sim/main.c.
 */
module SimRestart {
  import opened Options
  import opened Bytes
  import opened CodecAgreement
  import opened Downlink
  import opened NodeState
  import opened HostSim
  import opened SimQueue

  /** A call that failed has left the file alone. */
  function FileAfter(file: Option<string>, calls: seq<Call>): Option<string>
    decreases |calls|
  {
    if calls == [] then file
    else
      var (before, call) := (FileAfter(file, calls[..|calls| - 1]), calls[|calls| - 1]);
      if call.answer.None? then before
      else
        match call
        case WakeCall(boot, _) => Some(SaveState(StateAfterWake(before, boot)))
        case DeliverCall(data, _) => Some(SaveState(StateAfterDownlink(before, data, DOWNLINK_FPORT)))
  }

  /** The same calls had the simulator not been restarted. */
  function WithoutBoots(calls: seq<Call>): seq<Call> {
    seq(|calls|, i requires 0 <= i < |calls| => if calls[i].WakeCall? then calls[i].(boot := false) else calls[i])
  }

  lemma {:induction false} NoWorkingBoot(file: Option<string>, calls: seq<Call>)
    requires forall i :: 0 <= i < |calls| ==> !WorkingBoot(calls[i])
    ensures FileAfter(file, WithoutBoots(calls)) == FileAfter(file, calls)
    decreases |calls|
  {
    hide SaveState, StateAfterWake, StateAfterDownlink;
    if calls != [] {
      var n := |calls| - 1;
      assert WithoutBoots(calls)[..n] == WithoutBoots(calls[..n]);
      NoWorkingBoot(file, calls[..n]);
      assert !WorkingBoot(calls[n]);
    }
  }

  /**
   * If the first wake call after a restart fails, the restart never happened as far as
   * the node can tell: its state file goes on as if no call had passed `--boot`.
   */
  lemma RestartIsLost(file: Option<string>, events: seq<Event>)
    requires
      var (calls, first) := (After(events).calls, FirstWakeCall(After(events).calls));
      first.Some? && calls[first.value].answer.None?
    ensures FileAfter(file, WithoutBoots(After(events).calls)) == FileAfter(file, After(events).calls)
  {
    PowerCycleSeenIff(events);
    NoWorkingBoot(file, After(events).calls);
  }

  /** A wake with `--boot`: the config in the file is kept, and a report of it is left to send. */
  lemma BootedWake(file: Option<string>)
    ensures
      var cfg := if LoadState(file).Some? then LoadState(file).value.cfg else DEFAULT_CONFIG;
      LoadState(Some(SaveState(StateAfterWake(file, true)))) == Some(Fresh(Some(cfg)).(reportPending := 1))
  {
    LoadedIsValid(file);
    LoadUndoesSave(StateAfterWake(file, true));
    hide LoadState, SaveState;
  }

  lemma LoadedIsValid(file: Option<string>)
    ensures LoadState(file).Some? ==> ConfigValid(LoadState(file).value.cfg)
  {
  }

  lemma BootedCall(file: Option<string>, calls: seq<Call>, k: nat)
    requires k < |calls| && WorkingBoot(calls[k])
    ensures
      var before := LoadState(FileAfter(file, calls[..k]));
      var cfg := if before.Some? then before.value.cfg else DEFAULT_CONFIG;
      LoadState(FileAfter(file, calls[..k + 1])) == Some(Fresh(Some(cfg)).(reportPending := 1))
  {
    hide LoadState, SaveState, StateAfterWake, StateAfterDownlink;
    var upTo := calls[..k + 1];
    assert upTo[..k] == calls[..k] && upTo[k] == calls[k];
    BootedWake(FileAfter(file, calls[..k]));
  }

  /** The first wake call of a run passes `--boot`. */
  lemma FirstCallBoots(events: seq<Event>)
    ensures
      var (calls, first) := (After(events).calls, FirstWakeCall(After(events).calls));
      first.Some? ==> calls[first.value].WakeCall? && calls[first.value].boot
  {
    EveryRunKeepsInv(events);
  }

  /**
   * If it works, that call is a cold boot for the node: the config in the file is kept,
   * and of the rest only a report of that config is left to send.
   */
  lemma RestartIsAPowerCycle(file: Option<string>, events: seq<Event>)
    requires
      var (calls, first) := (After(events).calls, FirstWakeCall(After(events).calls));
      first.Some? && calls[first.value].answer.Some?
    ensures
      var calls := After(events).calls;
      var k := FirstWakeCall(calls).value;
      var before := LoadState(FileAfter(file, calls[..k]));
      var cfg := if before.Some? then before.value.cfg else DEFAULT_CONFIG;
      LoadState(FileAfter(file, calls[..k + 1])) == Some(Fresh(Some(cfg)).(reportPending := 1))
  {
    hide LoadState, FileAfter, After, FirstWakeCall;
    FirstCallBoots(events);
    BootedCall(file, After(events).calls, FirstWakeCall(After(events).calls).value);
  }

  // ------------------------------- The setting -------------------------------

  function ConfigIn(file: Option<string>): Config {
    match LoadState(file)
    case Some(st) => st.cfg
    case None => DEFAULT_CONFIG
  }

  /** What the downlinks that got through have told the node, as the server reads them. */
  function ConfigTold(cfg: Config, calls: seq<Call>): Config {
    if calls == [] then cfg
    else
      var (before, call) := (ConfigTold(cfg, calls[..|calls| - 1]), calls[|calls| - 1]);
      if call.DeliverCall? && call.answer.Some? then Told(call.data, before) else before
  }

  lemma WakeKeepsConfig(file: Option<string>, boot: bool)
    ensures ConfigIn(Some(SaveState(StateAfterWake(file, boot)))) == ConfigIn(file)
  {
    LoadedIsValid(file);
    LoadUndoesSave(StateAfterWake(file, boot));
    hide LoadState, SaveState;
  }

  lemma DownlinkChangesConfig(file: Option<string>, data: seq<Byte>)
    ensures ConfigIn(Some(SaveState(StateAfterDownlink(file, data, DOWNLINK_FPORT)))) == Told(data, ConfigIn(file))
  {
    LoadedIsValid(file);
    VerdictsAgree(data, ConfigIn(file));
    LoadUndoesSave(StateAfterDownlink(file, data, DOWNLINK_FPORT));
    hide LoadState, SaveState, Told, VerdictCode, ResultCode, Judge;
  }

  /**
   * Over any calls, restarts and failures: the config in the state file is the one it
   * began with, changed by each downlink that got through as the server reads it, and by
   * nothing else.
   */
  lemma {:induction false} FileFollowsDownlinks(file: Option<string>, calls: seq<Call>)
    ensures ConfigIn(FileAfter(file, calls)) == ConfigTold(ConfigIn(file), calls)
  {
    hide SaveState, StateAfterWake, StateAfterDownlink, ConfigIn, Told;
    if calls != [] {
      var (before, call) := (calls[..|calls| - 1], calls[|calls| - 1]);
      FileFollowsDownlinks(file, before);
      var was := FileAfter(file, before);
      match call
      case WakeCall(boot, _) => WakeKeepsConfig(was, boot);
      case DeliverCall(data, _) => DownlinkChangesConfig(was, data);
    }
  }
}
