/**
 * The network-wide hourly history of the dashboard: `loadCitySeries` in
 * apps/dashboard/src/stores/air.ts, with requests that overlap, are answered in any
 * order, and fail.
 */
module CitySeries {
  import opened Options

  datatype Request = Request(days: nat, force: bool)

  /** A settled request; None is a failure. */
  datatype Done<P> = Done(days: nat, points: Option<seq<P>>, force: bool)

  /**
   * `days` and `points` are the series on screen, `requests` and `loading` the counter
   * and the flag, `pending` the requests under way. `done` is history.
   */
  datatype Series<P> = Series(
    days: nat, points: seq<P>, requests: nat, loading: bool, pending: seq<Request>, done: seq<Done<P>>)

  datatype Event<P> =
    | Load(days: nat, force: bool)
    | Settle(k: nat, points: Option<seq<P>>)   // the k-th pending request is answered, or fails

  function Without<T>(s: seq<T>, k: nat): seq<T>
    requires k < |s|
  {
    s[..k] + s[k + 1..]
  }

  function Loaded<P>(s: Series<P>, days: nat, force: bool): Series<P> {
    if !force && s.days >= days then s
    else s.(requests := s.requests + 1, loading := true, pending := s.pending + [Request(days, force)])
  }

  /** What an answer does to the series on screen. */
  function Shown<P>(s: Series<P>, r: Request, points: Option<seq<P>>): Series<P> {
    match points
    case Some(p) => if r.force || r.days >= s.days then s.(days := r.days, points := p) else s
    case None => if r.days > s.days then s.(days := r.days) else s
  }

  function Settled<P>(s: Series<P>, k: nat, points: Option<seq<P>>): Series<P>
    requires k < |s.pending|
  {
    var r := s.pending[k];
    var left := if s.requests > 0 then s.requests - 1 else 0;
    Shown(s, r, points).(requests := left, loading := left > 0,
                         pending := Without(s.pending, k), done := s.done + [Done(r.days, points, r.force)])
  }

  function Step<P>(s: Series<P>, e: Event<P>): Series<P> {
    match e
    case Load(days, force) => Loaded(s, days, force)
    case Settle(k, points) => if k < |s.pending| then Settled(s, k, points) else s
  }

  function Run<P>(s: Series<P>, events: seq<Event<P>>): Series<P> {
    if events == [] then s
    else Step(Run(s, events[..|events| - 1]), events[|events| - 1])
  }

  function After<P>(events: seq<Event<P>>): Series<P> {
    Run(Series(0, [], 0, false, [], []), events)
  }

  class CityStore<P> {
    var days: nat
    var points: seq<P>
    var requests: int
    var loading: bool

    constructor ()
      ensures days == 0 && points == [] && requests == 0 && !loading
    {
      days, points, requests, loading := 0, [], 0, false;
    }

    /** The object stands for `s`, apart from what the event loop remembers. */
    ghost predicate Shows(s: Series<P>)
      reads this
    {
      days == s.days && points == s.points && requests == s.requests && loading == s.loading
    }

    /** `loadCitySeries` up to its request, if it makes one. */
    method Load(wanted: nat, force: bool, ghost s: Series<P>) returns (asked: bool)
      requires Shows(s)
      modifies this
      ensures Shows(Loaded(s, wanted, force))
      ensures Loaded(s, wanted, force).pending == if asked then s.pending + [Request(wanted, force)] else s.pending
    {
      if !force && days >= wanted {
        return false;
      }
      requests := requests + 1;
      loading := true;
      return true;
    }

    /** The rest of it: the answer, or the failure, and the `finally`. */
    method Settle(r: Request, answer: Option<seq<P>>, ghost s: Series<P>, ghost k: nat)
      requires Shows(s) && s.requests > 0 && k < |s.pending| && s.pending[k] == r
      modifies this
      ensures Shows(Settled(s, k, answer))
    {
      if answer.Some? {
        if r.force || r.days >= days {
          days, points := r.days, answer.value;
        }
      } else {
        if r.days > days {
          days := r.days;
        }
      }
      requests := requests - 1;
      loading := requests > 0;
    }
  }

  // ------------------------------ The loading flag ------------------------------

  /** The flag is set exactly while some request is under way, forced ones included. */
  lemma {:induction false} LoadingMeansPending<P>(events: seq<Event<P>>)
    ensures After(events).requests == |After(events).pending|
    ensures After(events).loading <==> After(events).pending != []
  {
    if events != [] {
      LoadingMeansPending(events[..|events| - 1]);
    }
  }

  // ------------------------------ Forced requests ------------------------------

  /** A step narrows the recorded range exactly if a narrower forced request is answered. */
  lemma NarrowsIff<P>(events: seq<Event<P>>, e: Event<P>)
    ensures
      var s := After(events);
      After(events + [e]).days < s.days <==>
        e.Settle? && e.k < |s.pending| && e.points.Some? && s.pending[e.k].force && s.pending[e.k].days < s.days
  {
    assert (events + [e])[..|events|] == events;
  }

  /** No forced request under way is narrower than the recorded range or than any other request. */
  predicate Safe<P>(s: Series<P>) {
    forall i :: 0 <= i < |s.pending| && s.pending[i].force ==>
      s.days <= s.pending[i].days && forall j :: 0 <= j < |s.pending| ==> s.pending[j].days <= s.pending[i].days
  }

  predicate OnlySettles<P>(events: seq<Event<P>>) {
    forall i :: 0 <= i < |events| ==> events[i].Settle?
  }

  /** The range never shrinks on the way. */
  predicate OnlyWidens<P>(s: Series<P>, events: seq<Event<P>>) {
    forall n :: 0 < n <= |events| ==> Run(s, events[..n - 1]).days <= Run(s, events[..n]).days
  }

  lemma OthersAreStillPending<T>(s: seq<T>, k: nat)
    requires k < |s|
    ensures |Without(s, k)| == |s| - 1
    ensures forall i :: 0 <= i < |s| - 1 ==> Without(s, k)[i] == s[if i < k then i else i + 1]
  {
  }

  lemma SettleIsSafe<P>(s: Series<P>, k: nat, points: Option<seq<P>>)
    requires Safe(s) && k < |s.pending|
    ensures Safe(Settled(s, k, points)) && s.days <= Settled(s, k, points).days
  {
    OthersAreStillPending(s.pending, k);
    hide Without;
  }

  lemma {:induction false} SafeOnlyWidens<P>(s: Series<P>, events: seq<Event<P>>)
    requires Safe(s) && OnlySettles(events)
    ensures Safe(Run(s, events)) && OnlyWidens(s, events)
  {
    if events != [] {
      var (m, e) := (|events| - 1, events[|events| - 1]);
      SafeOnlyWidens(s, events[..m]);
      var s' := Run(s, events[..m]);
      if e.k < |s'.pending| {
        SettleIsSafe(s', e.k, e.points);
      }
      hide Safe, Step;
      forall n | 0 < n <= |events|
        ensures Run(s, events[..n - 1]).days <= Run(s, events[..n]).days
      {
        if n <= m {
          assert events[..m][..n - 1] == events[..n - 1] && events[..m][..n] == events[..n];
        } else {
          assert events[..n] == events;
        }
      }
    }
  }

  /** In an unsafe state some order of answers narrows the range. */
  lemma UnsafeNarrows<P>(s: Series<P>) returns (events: seq<Event<P>>)
    requires !Safe(s)
    ensures OnlySettles(events) && !OnlyWidens(s, events)
  {
    var i :| 0 <= i < |s.pending| && s.pending[i].force
             && !(s.days <= s.pending[i].days && forall j :: 0 <= j < |s.pending| ==> s.pending[j].days <= s.pending[i].days);
    var last: Event<P> := Settle(i, Some([]));
    if s.pending[i].days < s.days {
      events := [last];
      assert events[..0] == [] && events[..1] == events;
      assert Run(s, events[..1]).days < Run(s, events[..0]).days;
    } else {
      var j :| 0 <= j < |s.pending| && s.pending[i].days < s.pending[j].days;
      var first: Event<P> := Settle(j, Some([]));
      last := Settle(if j < i then i - 1 else i, Some([]));
      events := [first, last];
      OthersAreStillPending(s.pending, j);
      assert events[..0] == [] && events[..1] == [first] && events[..2] == events;
      assert Run(s, [first]) == Step(Run(s, []), first);
      assert Run(s, events[..2]).days < Run(s, events[..1]).days;
    }
  }

  /**
   * The range on screen cannot shrink whatever is answered, in whatever order, if and
   * only if no forced request is narrower than what is recorded or under way.
   */
  lemma SafeIff<P(!new)>(s: Series<P>)
    ensures Safe(s) <==> forall events :: OnlySettles(events) ==> OnlyWidens(s, events)
  {
    hide Safe, OnlySettles, OnlyWidens;
    if Safe(s) {
      forall events | OnlySettles(events)
        ensures OnlyWidens(s, events)
      {
        SafeOnlyWidens(s, events);
      }
    } else {
      var events := UnsafeNarrows(s);
    }
  }

  /** The condition for that when a request is made. */
  predicate MayAsk<P>(s: Series<P>, days: nat, force: bool) {
    force || s.days < days ==>
      && (force ==> s.days <= days && forall j :: 0 <= j < |s.pending| ==> s.pending[j].days <= days)
      && (forall i :: 0 <= i < |s.pending| && s.pending[i].force ==> days <= s.pending[i].days)
  }

  lemma AskedSafelyIff<P>(s: Series<P>, days: nat, force: bool)
    requires Safe(s)
    ensures Safe(Loaded(s, days, force)) <==> MayAsk(s, days, force)
  {
    var (s', n) := (Loaded(s, days, force), |s.pending|);
    if force || s.days < days {
      assert s'.pending[n] == Request(days, force) && s'.pending[..n] == s.pending;
      assert forall i :: 0 <= i < n ==> s'.pending[i] == s.pending[i];
    }
  }

  /** Every request of the run meets it. */
  predicate Polite<P>(events: seq<Event<P>>) {
    events == [] ||
    (var (before, e) := (events[..|events| - 1], events[|events| - 1]);
     Polite(before) && (e.Load? ==> MayAsk(After(before), e.days, e.force)))
  }

  predicate AlwaysSafe<P>(events: seq<Event<P>>) {
    forall n :: 0 <= n <= |events| ==> Safe(After(events[..n]))
  }

  /** A run is safe throughout if and only if every request in it is polite. */
  lemma {:induction false} PoliteIff<P>(events: seq<Event<P>>)
    ensures Polite(events) <==> AlwaysSafe(events)
  {
    hide Safe, MayAsk, Step;
    if events == [] {
      EmptyIsSafe<P>();
    } else {
      var (m, e) := (|events| - 1, events[|events| - 1]);
      var s := After(events[..m]);
      PoliteIff(events[..m]);
      assert forall n :: 0 <= n <= m ==> events[..m][..n] == events[..n];
      assert events[..m][..m] == events[..m] && events[..m + 1] == events;
      assert AlwaysSafe(events) <==> AlwaysSafe(events[..m]) && Safe(After(events));
      assert Polite(events[..m]) ==> Safe(s);
      if Safe(s) {
        SafeStepIff(s, e);
      }
    }
  }

  lemma EmptyIsSafe<P>()
    ensures Safe(After<P>([])) && After<P>([][..0]) == After<P>([])
  {
  }

  lemma SafeStepIff<P>(s: Series<P>, e: Event<P>)
    requires Safe(s)
    ensures Safe(Step(s, e)) <==> (e.Load? ==> MayAsk(s, e.days, e.force))
  {
    hide Safe, MayAsk, Loaded, Settled;
    if e.Load? {
      AskedSafelyIff(s, e.days, e.force);
    } else if e.k < |s.pending| {
      SettleIsSafe(s, e.k, e.points);
    }
  }

  /** Unforced requests are polite among themselves, whatever their ranges. */
  lemma {:induction false} UnforcedIsPolite<P>(events: seq<Event<P>>)
    requires forall i :: 0 <= i < |events| ==> events[i].Load? ==> !events[i].force
    ensures Polite(events) && forall i :: 0 <= i < |After(events).pending| ==> !After(events).pending[i].force
  {
    if events != [] {
      var (m, e) := (|events| - 1, events[|events| - 1]);
      UnforcedIsPolite(events[..m]);
      if e.Settle? && e.k < |After(events[..m]).pending| {
        OthersAreStillPending(After(events[..m]).pending, e.k);
      }
    }
  }

  /**
   * What callers can see to: forced requests are for the recorded range, as those of
   * `refreshSeries`, while nothing wider is under way, and no wider range is asked for
   * until they are settled.
   */
  predicate Considerate<P>(events: seq<Event<P>>) {
    events == [] ||
    (var (before, e) := (events[..|events| - 1], events[|events| - 1]);
     var s := After(before);
     && Considerate(before)
     && (e.Load? && e.force ==> e.days == s.days && forall j :: 0 <= j < |s.pending| ==> s.pending[j].days <= s.days)
     && (e.Load? && !e.force && e.days > s.days ==> forall j :: 0 <= j < |s.pending| ==> !s.pending[j].force))
  }

  /** Such runs are polite, however refreshes and requests overlap otherwise. */
  lemma {:induction false} ConsiderateIsPolite<P>(events: seq<Event<P>>)
    requires Considerate(events)
    ensures Polite(events) && Safe(After(events))
  {
    if events == [] {
      EmptyIsSafe<P>();
    } else {
      var (m, e) := (|events| - 1, events[|events| - 1]);
      ConsiderateIsPolite(events[..m]);
      SafeStepIff(After(events[..m]), e);
      hide Step;
    }
  }

  // ------------------------------ What is on screen ------------------------------

  /** The widest range asked for and settled, with or without success. */
  function Widest<P>(done: seq<Done<P>>): nat {
    if done == [] then 0
    else
      var (w, d) := (Widest(done[..|done| - 1]), done[|done| - 1].days);
      if d > w then d else w
  }

  /** Answer `i` succeeded and is at least as wide as everything settled before it. */
  predicate Leads<P>(done: seq<Done<P>>, i: nat) {
    i < |done| && done[i].points.Some? && forall j :: 0 <= j < i ==> done[j].days <= done[i].days
  }

  function LastLeader<P>(done: seq<Done<P>>): (r: Option<nat>)
    ensures r.Some? ==> r.value < |done| && done[r.value].points.Some? && Leads(done, r.value)
    ensures forall i :: (if r.Some? then r.value < i else true) ==> !Leads(done, i)
  {
    if done == [] then None
    else
      var n := |done| - 1;
      if Leads(done, n) then Some(n)
      else
        var r := LastLeader(done[..n]);
        assert forall i :: 0 <= i < n ==> (Leads(done[..n], i) <==> Leads(done, i));
        r
  }

  lemma {:induction false} WidestIsMaximum<P>(done: seq<Done<P>>)
    ensures forall i :: 0 <= i < |done| ==> done[i].days <= Widest(done)
    ensures done != [] ==> exists i :: 0 <= i < |done| && done[i].days == Widest(done)
  {
    if done != [] {
      var n := |done| - 1;
      var earlier := done[..n];
      WidestIsMaximum(earlier);
      assert forall i :: 0 <= i < n ==> done[i] == earlier[i];
      if earlier == [] || done[n].days > Widest(earlier) {
        assert done[n].days == Widest(done);
      } else {
        var i :| 0 <= i < n && earlier[i].days == Widest(earlier);
        assert done[i].days == Widest(done);
      }
    }
  }

  predicate Inv<P(==)>(s: Series<P>) {
    && Safe(s)
    && s.days == Widest(s.done)
    && s.points == match LastLeader(s.done) { case Some(i) => s.done[i].points.value case None => [] }
  }

  /** One more completion leads if it succeeded and nothing before was wider. */
  lemma OneMoreDone<P>(done: seq<Done<P>>, d: Done<P>)
    ensures LastLeader(done + [d]) == if d.points.Some? && d.days >= Widest(done) then Some(|done|) else LastLeader(done)
    ensures Widest(done + [d]) == if d.days > Widest(done) then d.days else Widest(done)
  {
    var all := done + [d];
    assert all[..|all| - 1] == done;
    WidestIsMaximum(done);
    assert Leads(all, |done|) <==> d.points.Some? && d.days >= Widest(done);
  }

  lemma SettleKeepsInv<P>(s: Series<P>, k: nat, points: Option<seq<P>>)
    requires Inv(s) && k < |s.pending|
    ensures Inv(Settled(s, k, points))
  {
    SettleIsSafe(s, k, points);
    hide LastLeader, Widest, Leads, Without;
    var d := Done(s.pending[k].days, points, s.pending[k].force);
    OneMoreDone(s.done, d);
    assert LastLeader(s.done).Some? ==> (s.done + [d])[LastLeader(s.done).value] == s.done[LastLeader(s.done).value];
  }

  lemma {:induction false} EveryRunKeepsInv<P>(events: seq<Event<P>>)
    requires Polite(events)
    ensures Inv(After(events))
  {
    if events != [] {
      var n := |events| - 1;
      EveryRunKeepsInv(events[..n]);
      var (s, e) := (After(events[..n]), events[n]);
      SafeStepIff(s, e);
      if e.Settle? && e.k < |s.pending| {
        SettleKeepsInv(s, e.k, e.points);
      }
    }
  }

  /**
   * Whatever overlaps, in whatever order it is answered and whatever fails, the range
   * on record is the widest settled one, and the points shown are those of the last
   * answer that was no narrower than anything settled before it.
   */
  lemma {:induction false} WidestAnswerWins<P>(events: seq<Event<P>>)
    requires Polite(events)
    ensures
      var s := After(events);
      && (forall i :: 0 <= i < |s.done| ==> s.done[i].days <= s.days)
      && (s.done != [] ==> exists i :: 0 <= i < |s.done| && s.done[i].days == s.days)
      && s.points == match LastLeader(s.done) { case Some(i) => s.done[i].points.value case None => [] }
  {
    EveryRunKeepsInv(events);
    WidestIsMaximum(After(events).done);
  }

  /** The range of the answer whose points are shown. */
  function ShownDays<P>(s: Series<P>): nat {
    var r := LastLeader(s.done);
    if r.Some? then s.done[r.value].days else 0
  }

  /** Points are only ever replaced by those of an answer at least as wide. */
  lemma {:induction false} NeverNarrower<P>(events: seq<Event<P>>, e: Event<P>)
    requires Polite(events + [e])
    ensures ShownDays(After(events)) <= ShownDays(After(events + [e]))
    ensures After(events).days <= After(events + [e]).days
    ensures After(events).points != After(events + [e]).points ==>
      e.Settle? && e.k < |After(events).pending| && e.points == Some(After(events + [e]).points)
      && After(events).pending[e.k].days >= After(events).days
  {
    var all := events + [e];
    assert all[..|all| - 1] == events;
    EveryRunKeepsInv(events);
    EveryRunKeepsInv(all);
    var (s, t) := (After(events), After(all));
    if e.Settle? && e.k < |s.pending| {
      var d := Done(s.pending[e.k].days, e.points, s.pending[e.k].force);
      hide Widest, Leads;
      OneMoreDone(s.done, d);
      ShownAtMostRecorded(s);
      assert LastLeader(s.done).Some? ==> (s.done + [d])[LastLeader(s.done).value] == s.done[LastLeader(s.done).value];
    }
  }

  lemma ShownAtMostRecorded<P>(s: Series<P>)
    requires s.days == Widest(s.done)
    ensures ShownDays(s) <= s.days
  {
    WidestIsMaximum(s.done);
  }

  // ------------------- Whether the points cover the range -------------------

  /** A completion after `earlier` sets the recorded range: an answer that is shown, or a wider failure. */
  predicate Sets<P>(earlier: seq<Done<P>>, d: Done<P>)
    decreases |earlier|, 2
  {
    if d.points.Some? then d.force || Record(earlier) <= d.days else Record(earlier) < d.days
  }

  /** The last completion that set it. */
  function LastSet<P>(done: seq<Done<P>>): (r: Option<nat>)
    ensures r.Some? ==> r.value < |done|
    decreases |done|, 0
  {
    if done == [] then None
    else
      var (earlier, d) := (done[..|done| - 1], done[|done| - 1]);
      if Sets(earlier, d) then Some(|done| - 1) else LastSet(earlier)
  }

  function Record<P>(done: seq<Done<P>>): nat
    decreases |done|, 1
  {
    if LastSet(done).Some? then done[LastSet(done).value].days else 0
  }

  /** The last answer that was shown. */
  function LastShown<P>(done: seq<Done<P>>): (r: Option<nat>)
    ensures r.Some? ==> r.value < |done| && done[r.value].points.Some?
  {
    if done == [] then None
    else
      var (earlier, d) := (done[..|done| - 1], done[|done| - 1]);
      if d.points.Some? && Sets(earlier, d) then Some(|done| - 1) else LastShown(earlier)
  }

  lemma OneMoreCompletion<P>(done: seq<Done<P>>, d: Done<P>)
    ensures LastSet(done + [d]) == if Sets(done, d) then Some(|done|) else LastSet(done)
    ensures Record(done + [d]) == if Sets(done, d) then d.days else Record(done)
    ensures LastShown(done + [d]) == if d.points.Some? && Sets(done, d) then Some(|done|) else LastShown(done)
  {
    assert (done + [d])[..|done|] == done;
    hide Sets;
  }

  predicate History<P(==)>(s: Series<P>) {
    && s.days == Record(s.done)
    && s.points == match LastShown(s.done) { case Some(i) => s.done[i].points.value case None => [] }
  }

  lemma SettleKeepsHistory<P>(s: Series<P>, k: nat, points: Option<seq<P>>)
    requires History(s) && k < |s.pending|
    ensures History(Settled(s, k, points))
  {
    var d := Done(s.pending[k].days, points, s.pending[k].force);
    OneMoreCompletion(s.done, d);
    assert LastShown(s.done).Some? ==> (s.done + [d])[LastShown(s.done).value] == s.done[LastShown(s.done).value];
    assert Sets(s.done, d) <==> if points.Some? then d.force || s.days <= d.days else s.days < d.days;
    hide LastShown, Record, Sets, Without;
  }

  lemma {:induction false} HistoryOfRun<P>(events: seq<Event<P>>)
    ensures History(After(events))
  {
    if events != [] {
      var n := |events| - 1;
      HistoryOfRun(events[..n]);
      var (s, e) := (After(events[..n]), events[n]);
      if e.Settle? && e.k < |s.pending| {
        SettleKeepsHistory(s, e.k, e.points);
      }
    }
  }

  /** The range of the answer whose points are shown, in any run. */
  function RangeShown<P>(done: seq<Done<P>>): nat {
    var r := LastShown(done);
    if r.Some? then done[r.value].days else 0
  }

  lemma {:induction false} ShownAgainstRecord<P>(done: seq<Done<P>>)
    ensures RangeShown(done) <= Record(done)
    ensures RangeShown(done) == Record(done) <==> LastSet(done).None? || done[LastSet(done).value].points.Some?
  {
    if done != [] {
      var (earlier, d) := (done[..|done| - 1], done[|done| - 1]);
      ShownAgainstRecord(earlier);
      OneMoreCompletion(earlier, d);
      assert earlier + [d] == done;
    }
  }

  /**
   * Over every run, whatever is forced: the points shown are those of the last answer
   * that was shown, and they cover the range on record exactly if that was last set by
   * an answer and not by a failure.
   */
  lemma CoversItsRangeIff<P>(events: seq<Event<P>>)
    ensures
      var s := After(events);
      && s.points == (match LastShown(s.done) { case Some(i) => s.done[i].points.value case None => [] })
      && s.days == (match LastSet(s.done) { case Some(i) => s.done[i].days case None => 0 })
      && (RangeShown(s.done) == s.days <==> LastSet(s.done).None? || s.done[LastSet(s.done).value].points.Some?)
  {
    HistoryOfRun(events);
    ShownAgainstRecord(After(events).done);
  }

  /**
   * Over a polite run that means: exactly if a widest request succeeded. After a failure
   * it need not have: the failure raises the range, and a narrower answer that comes
   * later is dropped.
   */
  lemma {:induction false} WidestSucceededIff<P>(events: seq<Event<P>>)
    requires Polite(events) && After(events).days > 0
    ensures
      var s := After(events);
      ShownDays(s) == s.days <==> exists i :: 0 <= i < |s.done| && s.done[i].days == s.days && s.done[i].points.Some?
  {
    EveryRunKeepsInv(events);
    var s := After(events);
    WidestIsMaximum(s.done);
    var r := LastLeader(s.done);
    if i :| 0 <= i < |s.done| && s.done[i].days == s.days && s.done[i].points.Some? {
      assert Leads(s.done, i);
      assert r.Some? && i <= r.value;
      assert s.done[r.value].days >= s.done[i].days;
    }
  }

  lemma NoLeader<P>(wide: Done<P>, narrow: Done<P>)
    requires wide.points.None? && narrow.days < wide.days
    ensures LastLeader([wide, narrow]).None?
  {
    OneMoreDone([], wide);
    OneMoreDone([wide], narrow);
    assert [] + [wide] == [wide] && [wide] + [narrow] == [wide, narrow];
    assert LastLeader<P>([]).None? && Widest<P>([]) == 0;
  }

  /** The failing case: the narrower answer that is dropped was the only one. */
  lemma FailedWideHidesNarrow<P>(day: seq<P>)
    ensures
      var both := Step(Step(After([]), Load(30, false)), Load(1, false));
      var failed := Step(both, Settle(0, None));
      var answered := Step(failed, Settle(0, Some(day)));
      && answered.days == 30 && ShownDays(answered) == 0 && answered.points == [] && !answered.loading
  {
    hide LastLeader, Widest;
    var both := Step(Step(After([]), Load(30, false)), Load(1, false));
    assert both.pending == [Request(30, false), Request(1, false)];
    var failed := Step(both, Settle(0, None));
    assert failed.pending == [Request(1, false)];
    var answered := Step(failed, Settle(0, Some(day)));
    var (wide: Done<P>, narrow) := (Done(30, None, false), Done(1, Some(day), false));
    assert answered.done == [wide, narrow];
    NoLeader(wide, narrow);
  }

  /** Only narrower unforced requests are under way. */
  predicate OnlyNarrower<P>(s: Series<P>) {
    forall i :: 0 <= i < |s.pending| ==> !s.pending[i].force && s.pending[i].days < s.days
  }

  /**
   * And that lasts: from then on no run changes what is shown until a wider range or a
   * refresh is asked for, and none of its loads makes a request.
   */
  lemma {:induction false} StaysUntilWiderOrForced<P>(s: Series<P>, more: seq<Event<P>>)
    requires OnlyNarrower(s)
    requires forall i :: 0 <= i < |more| ==> more[i].Load? ==> !more[i].force && more[i].days <= s.days
    ensures
      var t := Run(s, more);
      t.days == s.days && t.points == s.points && OnlyNarrower(t) && |t.pending| <= |s.pending|
  {
    if more != [] {
      var (m, e) := (|more| - 1, more[|more| - 1]);
      StaysUntilWiderOrForced(s, more[..m]);
      var t := Run(s, more[..m]);
      if e.Settle? && e.k < |t.pending| {
        OthersAreStillPending(t.pending, e.k);
      }
    }
  }

  /** A forced refresh that overlaps a wider request can take the wider range away again. */
  lemma ForcedRefreshMayNarrow<P>(day: seq<P>, month: seq<P>)
    ensures
      var oneDay := Step(Step(After([]), Load(1, false)), Settle(0, Some(day)));
      var both := Step(Step(oneDay, Load(1, true)), Load(30, false));
      var wide := Step(both, Settle(1, Some(month)));
      var narrow := Step(wide, Settle(0, Some(day)));
      && wide.days == 30 && wide.points == month
      && narrow.days == 1 && narrow.points == day
  {
  }
}
