/**
 * When the dashboard asks for the list of sensors because of a reading: the last part
 * of `applyReading` in apps/dashboard/src/stores/air.ts, and the two refreshes.
 */
module SensorLookup {
  /**
   * `registered` is the sensors with a row, `unknown` the devices already asked about,
   * `queued` whether the delayed refresh is armed.
   */
  datatype Lookup = Lookup(registered: set<string>, unknown: set<string>, queued: bool)

  datatype Event =
    | Heard(id: string)                 // a live reading that is new to the picture
    | DelayEnds                         // the delayed refresh asks for the list
    | Listed(registered: set<string>)   // the list is there
    | PeriodEnds                        // the periodic refresh starts over

  predicate AsksAbout(l: Lookup, id: string) {
    id !in l.registered && id !in l.unknown
  }

  function Noticed(l: Lookup, id: string): Lookup {
    if AsksAbout(l, id) then l.(unknown := l.unknown + {id}, queued := true) else l
  }

  function Step(l: Lookup, e: Event): Lookup {
    match e
    case Heard(id) => Noticed(l, id)
    case DelayEnds => l.(queued := false)
    case Listed(registered) => l.(registered := registered)
    case PeriodEnds => l.(unknown := {})
  }

  function Run(l: Lookup, events: seq<Event>): Lookup {
    if events == [] then l else Step(Run(l, events[..|events| - 1]), events[|events| - 1])
  }

  // --------------------------- What a run comes to ---------------------------

  /** The `k`-th event is a reading of a device that is not registered then. */
  predicate Stranger(l: Lookup, events: seq<Event>, k: nat, id: string)
    requires k < |events|
  {
    events[k] == Heard(id) && id !in Run(l, events[..k]).registered
  }

  predicate SamePeriod(events: seq<Event>, k: nat) {
    forall j :: k <= j < |events| ==> !events[j].PeriodEnds?
  }

  predicate StillDelayed(events: seq<Event>, k: nat) {
    forall j :: k <= j < |events| ==> !events[j].DelayEnds?
  }

  lemma PrefixesAgree(l: Lookup, events: seq<Event>)
    requires events != []
    ensures
      var before := events[..|events| - 1];
      forall k :: 0 <= k < |before| ==> before[k] == events[k] && before[..k] == events[..k]
  {
  }

  /** The devices asked about are exactly the strangers heard since the period began. */
  lemma {:induction false} AskedAboutIff(l: Lookup, events: seq<Event>, id: string)
    ensures id in Run(l, events).unknown <==>
      || (id in l.unknown && SamePeriod(events, 0))
      || exists k :: 0 <= k < |events| && Stranger(l, events, k, id) && SamePeriod(events, k)
  {
    if events != [] {
      var n := |events| - 1;
      var before := events[..n];
      AskedAboutIff(l, before, id);
      PrefixesAgree(l, events);
      assert forall k :: 0 <= k < n ==> (Stranger(l, events, k, id) <==> Stranger(l, before, k, id));
      assert forall k :: 0 <= k <= n ==> (SamePeriod(events, k) <==> SamePeriod(before, k) && !events[n].PeriodEnds?);
      assert Stranger(l, events, n, id) <==> events[n] == Heard(id) && id !in Run(l, before).registered;
      hide Run, Stranger, SamePeriod;
      assert Run(l, events) == Step(Run(l, before), events[n]) by {
        RunLast(l, events);
      }
    }
  }

  lemma RunLast(l: Lookup, events: seq<Event>)
    requires events != []
    ensures Run(l, events) == Step(Run(l, events[..|events| - 1]), events[|events| - 1])
  {
  }

  /** The `k`-th event asks: a stranger that was not asked about before. */
  predicate Asks(l: Lookup, events: seq<Event>, k: nat)
    requires k < |events|
  {
    events[k].Heard? && Stranger(l, events, k, events[k].id) && events[k].id !in Run(l, events[..k]).unknown
  }

  /** The delayed refresh is armed exactly if something asked since it last fired. */
  lemma {:induction false} QueuedIff(l: Lookup, events: seq<Event>)
    ensures Run(l, events).queued <==>
      || (l.queued && StillDelayed(events, 0))
      || exists k :: 0 <= k < |events| && Asks(l, events, k) && StillDelayed(events, k)
  {
    if events != [] {
      var n := |events| - 1;
      var before := events[..n];
      QueuedIff(l, before);
      PrefixesAgree(l, events);
      assert forall k :: 0 <= k < n ==> (Asks(l, events, k) <==> Asks(l, before, k));
      assert forall k :: 0 <= k <= n ==> (StillDelayed(events, k) <==> StillDelayed(before, k) && !events[n].DelayEnds?);
      var m := Run(l, before);
      assert Asks(l, events, n) <==> events[n].Heard? && events[n].id !in m.registered && events[n].id !in m.unknown;
      RunLast(l, events);
      hide Run, Asks, StillDelayed;
    }
  }

  /** The sensors known are those of the last list that came. */
  lemma {:induction false} RegisteredIsLastList(l: Lookup, events: seq<Event>, k: nat)
    requires k < |events| && events[k].Listed? && forall j :: k < j < |events| ==> !events[j].Listed?
    ensures Run(l, events).registered == events[k].registered
  {
    var n := |events| - 1;
    if k < n {
      PrefixesAgree(l, events);
      RegisteredIsLastList(l, events[..n], k);
    }
  }

  /**
   * Within a period no device is asked about twice, however many of its readings come
   * in and whatever lists come.
   */
  lemma {:induction false} AskedOnceAPeriod(l: Lookup, events: seq<Event>, i: nat, k: nat)
    requires i < k < |events| && Asks(l, events, i) && Asks(l, events, k) && events[i] == events[k]
    ensures exists j :: i < j < k && events[j].PeriodEnds?
  {
    var (id, before) := (events[i].id, events[..k]);
    AskedAboutIff(l, before, id);
    assert before[..i] == events[..i];
    assert Stranger(l, before, i, id);
    assert !SamePeriod(before, i);
    var j :| i <= j < k && before[j].PeriodEnds?;
    assert events[j].PeriodEnds? && events[i].Heard?;
  }
}
