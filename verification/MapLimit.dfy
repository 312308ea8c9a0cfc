/**
 * `mapLimit` of apps/dashboard/src/lib/stats.ts: a pool of workers that share one
 * counter. Between two awaits a worker runs alone, so a run is the order in which
 * the pending tasks settle, each with a value or with a rejection.
 */
module MapLimit {
  import opened Options

  datatype Worker = InFlight(index: nat) | Finished | Rejected(index: nat)

  datatype Claim = Claim(index: nat, worker: nat)

  /**
   * `claims` and `answers` are history: which worker took which index, in order, and
   * how the task of each index settled (None is a rejection).
   */
  datatype Pool<R> = Pool(
    n: nat, next: nat, workers: seq<Worker>, results: seq<Option<R>>,
    claims: seq<Claim>, answers: map<nat, Option<R>>)

  function Min(a: nat, b: nat): nat {
    if a <= b then a else b
  }

  /** All workers run up to their first await before anything settles. */
  function Started<R>(n: nat, limit: nat): Pool<R> {
    var k := Min(limit, n);
    Pool(n, k, seq(k, i requires 0 <= i < k => InFlight(i)), seq(n, i => None),
         seq(k, i requires 0 <= i < k => Claim(i, i)), map[])
  }

  predicate Pending<R>(p: Pool<R>, w: nat) {
    w < |p.workers| && p.workers[w].InFlight? && p.workers[w].index < |p.results|
  }

  /** The task of worker `w` settles: store its value and claim the next index, or stop. */
  function Settled<R>(p: Pool<R>, w: nat, answer: Option<R>): Pool<R>
    requires Pending(p, w)
  {
    var i := p.workers[w].index;
    var q := p.(answers := p.answers[i := answer]);
    if answer.None? then q.(workers := p.workers[w := Rejected(i)])
    else
      var stored := q.(results := p.results[i := answer]);
      if p.next < p.n then
        stored.(next := p.next + 1, workers := p.workers[w := InFlight(p.next)], claims := p.claims + [Claim(p.next, w)])
      else stored.(workers := p.workers[w := Finished])
  }

  /** One event of a run: worker `w` gets `answer`. */
  datatype Settle<R> = Settle(w: nat, answer: Option<R>)

  /** The pool after some tasks have settled; an event for an idle worker cannot occur. */
  function After<R>(n: nat, limit: nat, events: seq<Settle<R>>): (p: Pool<R>)
    ensures p.n == n && |p.results| == n
  {
    if events == [] then Started(n, limit)
    else
      var p := After(n, limit, events[..|events| - 1]);
      var e := events[|events| - 1];
      if Pending(p, e.w) then Settled(p, e.w, e.answer) else p
  }

  // ------------------------------- Invariant -------------------------------

  predicate WorkerOk<R>(p: Pool<R>, w: nat)
    requires w < |p.workers|
  {
    match p.workers[w]
    case InFlight(i) => i < |p.claims| && p.claims[i].worker == w && i !in p.answers
    case Rejected(i) => i < |p.claims| && p.claims[i].worker == w && i in p.answers && p.answers[i].None?
    case Finished => p.next == p.n
  }

  /** Index `i` was claimed by one worker, which has it in flight unless it has settled. */
  predicate ClaimOk<R>(p: Pool<R>, i: nat)
    requires i < |p.claims|
  {
    && p.claims[i].index == i
    && p.claims[i].worker < |p.workers|
    && (i !in p.answers ==> p.workers[p.claims[i].worker] == InFlight(i))
    && (i in p.answers && p.answers[i].None? ==> p.workers[p.claims[i].worker] == Rejected(i))
  }

  ghost predicate SlotOk<R>(p: Pool<R>, i: nat)
    requires i < |p.results|
  {
    p.results[i] == if i in p.answers then p.answers[i] else None
  }

  ghost predicate Inv<R>(p: Pool<R>, limit: nat) {
    && |p.workers| == Min(limit, p.n)
    && |p.results| == p.n
    && |p.claims| == p.next
    && |p.workers| <= p.next <= p.n
    && (forall w :: 0 <= w < |p.workers| ==> WorkerOk(p, w))
    && (forall i :: 0 <= i < p.next ==> ClaimOk(p, i))
    && (forall i :: i in p.answers ==> i < p.next)
    && (forall i :: 0 <= i < p.n ==> SlotOk(p, i))
  }

  lemma StartKeepsInv<R>(n: nat, limit: nat)
    ensures Inv<R>(Started(n, limit), limit)
  {
  }

  lemma SettleKeepsInv<R>(p: Pool<R>, limit: nat, w: nat, answer: Option<R>)
    requires Inv(p, limit) && Pending(p, w)
    ensures Inv(Settled(p, w, answer), limit)
  {
    assert WorkerOk(p, w);
    var q := Settled(p, w, answer);
    forall v | 0 <= v < |q.workers|
      ensures WorkerOk(q, v)
    {
      assert WorkerOk(p, v);
    }
    forall i | 0 <= i < q.next
      ensures ClaimOk(q, i)
    {
      if i < p.next {
        assert ClaimOk(p, i);
      }
    }
    forall i | 0 <= i < q.n
      ensures SlotOk(q, i)
    {
      assert SlotOk(p, i);
    }
  }

  lemma {:induction false} EveryRunKeepsInv<R>(n: nat, limit: nat, events: seq<Settle<R>>)
    ensures Inv(After(n, limit, events), limit)
  {
    if events == [] {
      StartKeepsInv<R>(n, limit);
    } else {
      var m := |events| - 1;
      EveryRunKeepsInv(n, limit, events[..m]);
      var (p, e) := (After(n, limit, events[..m]), events[m]);
      if Pending(p, e.w) {
        SettleKeepsInv(p, limit, e.w, e.answer);
      }
    }
  }

  // --------------------------------- Claims ---------------------------------

  /** How many tasks are in flight. */
  function Flying(workers: seq<Worker>): (k: nat)
    ensures k <= |workers|
  {
    if workers == [] then 0
    else Flying(workers[..|workers| - 1]) + if workers[|workers| - 1].InFlight? then 1 else 0
  }

  /** Indices are handed out one after the other, each exactly once, at most `limit` at a time. */
  lemma {:induction false} ClaimedOnceWithinLimit<R>(n: nat, limit: nat, events: seq<Settle<R>>)
    ensures
      var p := After(n, limit, events);
      && p.next <= n
      && |p.claims| == p.next && (forall i :: 0 <= i < p.next ==> p.claims[i].index == i)
      && Flying(p.workers) <= limit
  {
    EveryRunKeepsInv(n, limit, events);
    var p := After(n, limit, events);
    forall i | 0 <= i < p.next
      ensures p.claims[i].index == i
    {
      assert ClaimOk(p, i);
    }
  }

  lemma {:induction false} AllFlying(workers: seq<Worker>)
    requires forall w :: 0 <= w < |workers| ==> workers[w].InFlight?
    ensures Flying(workers) == |workers|
  {
    if workers != [] {
      AllFlying(workers[..|workers| - 1]);
    }
  }

  /** While nothing was rejected and items remain unclaimed, no worker is idle. */
  lemma {:induction false} PoolIsFull<R>(n: nat, limit: nat, events: seq<Settle<R>>)
    requires
      var p := After(n, limit, events);
      p.next < n && forall i :: i in p.answers ==> p.answers[i].Some?
    ensures Flying(After(n, limit, events).workers) == Min(limit, n)
  {
    EveryRunKeepsInv(n, limit, events);
    var p := After(n, limit, events);
    forall w | 0 <= w < |p.workers|
      ensures p.workers[w].InFlight?
    {
      assert WorkerOk(p, w);
    }
    AllFlying(p.workers);
  }

  /** What is left to do: unclaimed plus in-flight items. */
  function Left<R>(p: Pool<R>): int {
    p.n - p.next + Flying(p.workers)
  }

  lemma {:induction false} FlyingUpdate(workers: seq<Worker>, w: nat, x: Worker)
    requires w < |workers|
    ensures Flying(workers[w := x]) ==
      Flying(workers) - (if workers[w].InFlight? then 1 else 0) + (if x.InFlight? then 1 else 0)
  {
    var n := |workers| - 1;
    if w == n {
      assert workers[w := x][..n] == workers[..n];
    } else {
      FlyingUpdate(workers[..n], w, x);
      assert workers[w := x][..n] == workers[..n][w := x];
    }
  }

  /** Every settled task leaves one less to do, so a run of n tasks has at most n steps. */
  lemma EverySettleIsProgress<R>(p: Pool<R>, limit: nat, w: nat, answer: Option<R>)
    requires Inv(p, limit) && Pending(p, w)
    ensures 0 <= Left(Settled(p, w, answer)) == Left(p) - 1
  {
    assert WorkerOk(p, w);
    FlyingUpdate(p.workers, w, Rejected(p.workers[w].index));
    FlyingUpdate(p.workers, w, Finished);
    FlyingUpdate(p.workers, w, InFlight(p.next));
  }

  predicate Quiet<R>(p: Pool<R>) {
    forall w :: 0 <= w < |p.workers| ==> !p.workers[w].InFlight?
  }

  predicate AnyRejected<R>(p: Pool<R>) {
    exists w :: 0 <= w < |p.workers| && p.workers[w].Rejected?
  }

  /**
   * When nothing is in flight and nothing was rejected, every slot holds the answer
   * of its own item: always, except that a limit of 0 starts no worker at all.
   */
  lemma CompleteUnlessLimitIsZero<R>(p: Pool<R>, limit: nat)
    requires Inv(p, limit) && Quiet(p) && !AnyRejected(p)
    ensures (forall i :: 0 <= i < p.n ==> i in p.answers && p.answers[i].Some? && p.results[i] == p.answers[i])
      <==> limit > 0 || p.n == 0
  {
    if limit > 0 && p.n > 0 {
      assert WorkerOk(p, 0);
      forall i | 0 <= i < p.n
        ensures i in p.answers && p.answers[i].Some? && p.results[i] == p.answers[i]
      {
        assert ClaimOk(p, i) && SlotOk(p, i);
      }
    } else if p.n > 0 {
      assert p.next > 0 ==> ClaimOk(p, 0);
      assert 0 !in p.answers;
    }
  }

  /** A pool can stop short only when all of its workers were rejected. */
  lemma StopsShortOnlyIfAllRejected<R>(p: Pool<R>, limit: nat)
    requires Inv(p, limit) && Quiet(p) && p.next < p.n
    ensures forall w :: 0 <= w < |p.workers| ==> p.workers[w].Rejected?
  {
    forall w | 0 <= w < |p.workers|
      ensures p.workers[w].Rejected?
    {
      assert WorkerOk(p, w);
    }
  }

  // ---------------------------- The call as a whole ----------------------------

  /**
   * `mapLimit`, with the pending task that settles next chosen arbitrarily: the call
   * resolves if and only if every task does, and then to the answers in item order.
   */
  method Run<T, R>(items: seq<T>, limit: nat, task: T -> Option<R>) returns (outcome: Result<seq<Option<R>>>)
    ensures limit > 0 ==>
      (outcome.Ok? <==> forall i :: 0 <= i < |items| ==> task(items[i]).Some?)
    ensures limit > 0 && outcome.Ok? ==>
      |outcome.value| == |items| && forall i :: 0 <= i < |items| ==> outcome.value[i] == task(items[i])
    ensures limit == 0 ==>
      outcome.Ok? && |outcome.value| == |items| && forall i :: 0 <= i < |items| ==> outcome.value[i].None?
  {
    hide ClaimOk, SlotOk;
    var n := |items|;
    var results := seq(n, i => None);
    var next := Min(limit, n);
    var workers := seq(next, i requires 0 <= i < next => InFlight(i));
    var rejected := false;
    ghost var p: Pool<R> := Started(n, limit);
    StartKeepsInv<R>(n, limit);
    while exists w :: 0 <= w < |workers| && workers[w].InFlight?
      invariant Inv(p, limit) && p.n == n && p.next == next && p.workers == workers && p.results == results
      invariant !rejected ==> forall i :: i in p.answers ==> p.answers[i].Some?
      invariant rejected ==> limit > 0 && exists i :: 0 <= i < n && task(items[i]).None?
      invariant forall i :: i in p.answers ==> i < n && p.answers[i] == task(items[i])
      decreases Left(p)
    {
      var w :| 0 <= w < |workers| && workers[w].InFlight?;
      assert WorkerOk(p, w);
      var index := workers[w].index;
      var answer := task(items[index]);
      EverySettleIsProgress(p, limit, w, answer);
      SettleKeepsInv(p, limit, w, answer);
      p := Settled(p, w, answer);
      if answer.None? {
        workers := workers[w := Rejected(index)];
        rejected := true;
      } else {
        results := results[index := answer];
        if next < n {
          workers := workers[w := InFlight(next)];
          next := next + 1;
        } else {
          workers := workers[w := Finished];
        }
      }
    }
    if rejected {
      return Throws;
    }
    NothingRejected(p, limit);
    CompleteUnlessLimitIsZero(p, limit);
    if limit == 0 {
      NothingRuns(p);
    }
    return Ok(results);
  }

  /** Without workers nothing is claimed and no slot is filled. */
  lemma NothingRuns<R>(p: Pool<R>)
    requires Inv(p, 0)
    ensures p.next == 0 && forall i :: 0 <= i < p.n ==> p.results[i].None?
  {
    assert p.next > 0 ==> ClaimOk(p, 0);
    forall i | 0 <= i < p.n
      ensures p.results[i].None?
    {
      assert SlotOk(p, i) && i !in p.answers;
    }
  }

  lemma NothingRejected<R>(p: Pool<R>, limit: nat)
    requires Inv(p, limit) && forall i :: i in p.answers ==> p.answers[i].Some?
    ensures !AnyRejected(p)
  {
    forall w | 0 <= w < |p.workers|
      ensures !p.workers[w].Rejected?
    {
      assert WorkerOk(p, w);
    }
  }
}
