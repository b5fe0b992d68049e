/** The managed-services apply queue (agent/managed_services.go): one active job, one pending job, waiters. */
module ApplyQueue {
  import opened Options

  datatype Desired = Desired(generation: int, hash: string)
  datatype Job = Job(desired: Desired, waiters: seq<nat>)

  // ---------------------------------------------------------------- specification

  /**
   * Waiters are numbered in the order they are issued: asked[w] is what waiter w asked for.
   * The requests of the current, or else the last, busy period begin at since; started lists
   * what it began to apply.
   */
  datatype State = State(
    active: Option<Job>, pending: Option<Job>, closed: seq<nat>,
    asked: seq<Desired>, since: nat, started: seq<Desired>)

  const IDLE := State(None, None, [], [], 0, [])

  function Join(job: Job, waiter: nat): Job {
    job.(waiters := job.waiters + [waiter])
  }

  datatype Fate = Starts | JoinsActive | Refused | Waits | JoinsPending | Supersedes

  function FateOf(q: State, desired: Desired): Fate {
    if q.active.None? then Starts
    else if q.active.value.desired == desired then JoinsActive
    else if desired.generation <= q.active.value.desired.generation then Refused
    else if q.pending.None? then Waits
    else if q.pending.value.desired == desired then JoinsPending
    else if desired.generation <= q.pending.value.desired.generation then Refused
    else Supersedes
  }

  /** A request: start it, join it to an equal one, refuse it as old, or let it supersede. */
  function Ask(q: State, desired: Desired): State {
    var waiter := |q.asked|;
    var job := Job(desired, [waiter]);
    var r := q.(asked := q.asked + [desired]);
    match FateOf(q, desired)
    case Starts => r.(active := Some(job), since := waiter, started := [desired])
    case JoinsActive => r.(active := Some(Join(q.active.value, waiter)))
    case Refused => r.(closed := q.closed + [waiter])
    case Waits => r.(pending := Some(job))
    case JoinsPending => r.(pending := Some(Join(q.pending.value, waiter)))
    case Supersedes => r.(pending := Some(job), closed := q.closed + q.pending.value.waiters)
  }

  /** The end of one apply, whether it succeeded or not. */
  function Finish(q: State): State {
    if q.active.None? then q
    else
      q.(active := q.pending, pending := None, closed := q.closed + q.active.value.waiters,
         started := q.started + if q.pending.Some? then [q.pending.value.desired] else [])
  }

  datatype Step = Request(desired: Desired) | Applied

  function Next(q: State, step: Step): State {
    match step
    case Request(desired) => Ask(q, desired)
    case Applied => Finish(q)
  }

  function Run(steps: seq<Step>): State {
    if steps == [] then IDLE else Next(Run(steps[..|steps| - 1]), steps[|steps| - 1])
  }

  // -------------------------------------------------------------------- the queue

  class Queue {
    var active: Option<Job>
    var pending: Option<Job>
    var closed: seq<nat>
    var issued: nat
    ghost var asked: seq<Desired>
    ghost var since: nat
    ghost var started: seq<Desired>

    ghost function Value(): State
      reads this
    {
      State(active, pending, closed, asked, since, started)
    }

    ghost predicate Valid()
      reads this
    {
      issued == |asked|
    }

    constructor ()
      ensures Valid() && Value() == IDLE
    {
      active, pending, closed, issued, asked, since, started := None, None, [], 0, [], 0, [];
    }

    method Sync(desired: Desired) returns (waiter: nat)
      requires Valid()
      modifies this
      ensures Valid() && waiter == old(issued)
      ensures Value() == Ask(old(Value()), desired)
    {
      waiter := issued;
      issued, asked := issued + 1, asked + [desired];
      var job := Job(desired, [waiter]);
      if active.None? {
        active, since, started := Some(job), waiter, [desired];
        return;
      }
      if active.value.desired == desired {
        active := Some(Join(active.value, waiter));
        return;
      }
      if desired.generation <= active.value.desired.generation {
        closed := closed + [waiter];
        return;
      }
      if pending.Some? {
        if pending.value.desired == desired {
          pending := Some(Join(pending.value, waiter));
          return;
        }
        if desired.generation <= pending.value.desired.generation {
          closed := closed + [waiter];
          return;
        }
        closed := closed + pending.value.waiters;
      }
      pending := Some(job);
    }

    method ApplyFinished()
      requires Valid() && active.Some?
      modifies this
      ensures Valid() && Value() == Finish(old(Value()))
    {
      closed := closed + active.value.waiters;
      started := started + if pending.Some? then [pending.value.desired] else [];
      active, pending := pending, None;
    }
  }

  /** Something else, at least as new, is being applied or is next. */
  predicate TooOld(q: State, desired: Desired) {
    && q.active.Some? && q.active.value.desired != desired
    && (|| desired.generation <= q.active.value.desired.generation
        || (q.pending.Some? && q.pending.value.desired != desired && desired.generation <= q.pending.value.desired.generation))
  }

  /**
   What a request does: closed at once exactly if it is too old; else it starts if nothing runs, waits
   with the job that applies the very same state, or is next, with the waiters of the same state and
   in place of any other, whose waiters are closed.
   */
  lemma RequestMeaning(q: State, desired: Desired)
    ensures var r, w := Ask(q, desired), |q.asked|;
            && r.asked == q.asked + [desired]
            && (TooOld(q, desired) ==> r == q.(asked := r.asked, closed := q.closed + [w]))
            && (q.active.None? ==> r.active == Some(Job(desired, [w])) && r.pending == q.pending && r.closed == q.closed && r.started == [desired] && r.since == w)
            && (q.active.Some? ==> r.started == q.started && r.since == q.since)
            && (q.active.Some? && q.active.value.desired == desired ==>
                  r.active == Some(Job(desired, q.active.value.waiters + [w])) && r.pending == q.pending && r.closed == q.closed)
            && (q.active.Some? && q.active.value.desired != desired && !TooOld(q, desired) ==>
                  && r.active == q.active
                  && r.pending == Some(Job(desired, if q.pending.Some? && q.pending.value.desired == desired then q.pending.value.waiters + [w] else [w]))
                  && r.closed == if q.pending.Some? && q.pending.value.desired != desired then q.closed + q.pending.value.waiters else q.closed)
  {
  }

  /** A run goes on with any request, and with the end of an apply. */
  lemma {:induction false} RunGoesOn(steps: seq<Step>, desired: Desired)
    ensures Run(steps + [Request(desired)]) == Ask(Run(steps), desired) && Run(steps + [Applied]) == Finish(Run(steps))
  {
    assert (steps + [Request(desired)])[..|steps|] == steps && (steps + [Applied])[..|steps|] == steps;
  }

  // ---------------------------------------------------------------------- waiters

  function Waiting(job: Option<Job>): seq<nat> {
    if job.None? then [] else job.value.waiters
  }

  function Count(ws: seq<nat>, w: nat): nat {
    if ws == [] then 0 else Count(ws[..|ws| - 1], w) + if ws[|ws| - 1] == w then 1 else 0
  }

  lemma {:induction false} CountConcat(a: seq<nat>, b: seq<nat>, w: nat)
    ensures Count(a + b, w) == Count(a, w) + Count(b, w)
  {
    if b == [] {
      assert a + b == a;
    } else {
      assert (a + b)[..|a + b| - 1] == a + b[..|b| - 1];
      CountConcat(a, b[..|b| - 1], w);
    }
  }

  lemma {:induction false} CountOne(a: seq<nat>, waiter: nat, w: nat)
    ensures Count(a + [waiter], w) == Count(a, w) + if w == waiter then 1 else 0
  {
    assert (a + [waiter])[..|a|] == a;
  }

  /** How often a waiter is closed or still waits. */
  function Times(q: State, w: nat): nat {
    Count(q.closed, w) + Count(Waiting(q.active), w) + Count(Waiting(q.pending), w)
  }

  lemma TimesAsk(q: State, desired: Desired, w: nat)
    requires Ordered(q)
    ensures Times(Ask(q, desired), w) == Times(q, w) + if w == |q.asked| then 1 else 0
  {
    var waiter := |q.asked|;
    var alone: seq<nat> := [waiter];
    assert Count(alone, w) == (if w == waiter then 1 else 0) by {
      CountOne([], waiter, w);
      assert [] + [waiter] == alone;
    }
    match FateOf(q, desired) {
      case Starts =>
      case JoinsActive => CountOne(Waiting(q.active), waiter, w);
      case Refused => CountOne(q.closed, waiter, w);
      case Waits =>
      case JoinsPending => CountOne(Waiting(q.pending), waiter, w);
      case Supersedes => CountConcat(q.closed, Waiting(q.pending), w);
    }
  }

  lemma TimesNext(q: State, step: Step, w: nat)
    requires Inv(q)
    ensures Times(Next(q, step), w) == Times(q, w) + if step.Request? && w == |q.asked| then 1 else 0
  {
    match step {
      case Request(desired) => TimesAsk(q, desired, w);
      case Applied => CountConcat(q.closed, Waiting(q.active), w);
    }
  }

  /** No waiter is closed twice, none is closed while it still waits, and none is forgotten. */
  lemma {:induction false} WaitersCloseOnce(steps: seq<Step>, w: nat)
    ensures var q := Run(steps);
            Times(q, w) == if w < |q.asked| then 1 else 0
  {
    if steps != [] {
      WaitersCloseOnce(steps[..|steps| - 1], w);
      InvRun(steps[..|steps| - 1]);
      TimesNext(Run(steps[..|steps| - 1]), steps[|steps| - 1], w);
    }
  }

  /** Once the queue is idle every waiter ever returned has been closed exactly once. */
  lemma {:induction false} IdleClosedAll(steps: seq<Step>, w: nat)
    requires Run(steps).active.None?
    ensures Count(Run(steps).closed, w) == if w < |Run(steps).asked| then 1 else 0
  {
    InvRun(steps);
    WaitersCloseOnce(steps, w);
  }

  // ------------------------------------------------------------------ generations

  predicate Rising(ds: seq<Desired>) {
    forall i, j :: 0 <= i < j < |ds| ==> ds[i].generation < ds[j].generation
  }

  /** Of the requests from since on, the first that no other outranks. */
  predicate FirstNewest(ds: seq<Desired>, since: nat, k: nat) {
    && since <= k < |ds|
    && (forall i :: since <= i < |ds| ==> ds[i].generation <= ds[k].generation)
    && (forall i :: since <= i < k ==> ds[i].generation < ds[k].generation)
  }

  predicate WaitForTheirOwn(q: State, job: Option<Job>) {
    forall w :: w in Waiting(job) ==> q.since <= w < |q.asked| && q.asked[w] == job.value.desired
  }

  function Top(q: State): Desired
    requires q.started != []
  {
    if q.pending.Some? then q.pending.value.desired else q.started[|q.started| - 1]
  }

  ghost predicate NewestIsTop(q: State) {
    q.started != [] && exists k: nat :: FirstNewest(q.asked, q.since, k) && q.asked[k] == Top(q)
  }

  predicate Ordered(q: State) {
    && (q.pending.Some? ==>
          q.active.Some? && q.active.value.desired.generation < q.pending.value.desired.generation)
    && (q.active.Some? ==> q.started != [] && q.started[|q.started| - 1] == q.active.value.desired)
    && Rising(q.started)
    && (q.asked == [] ==> q.active.None?)
    && q.since <= |q.asked|
  }

  ghost predicate Inv(q: State) {
    && Ordered(q)
    && WaitForTheirOwn(q, q.active) && WaitForTheirOwn(q, q.pending)
    && (q.asked != [] ==> NewestIsTop(q))
  }

  lemma OwnAfterAsk(q: State, desired: Desired)
    requires Ordered(q) && WaitForTheirOwn(q, q.active) && WaitForTheirOwn(q, q.pending)
    ensures WaitForTheirOwn(Ask(q, desired), Ask(q, desired).active)
    ensures WaitForTheirOwn(Ask(q, desired), Ask(q, desired).pending)
  {
    var r, waiter := Ask(q, desired), |q.asked|;
    forall w | w in Waiting(r.active) ensures r.since <= w < |r.asked| && r.asked[w] == r.active.value.desired {
      assert w == waiter || w in Waiting(q.active);
    }
    forall w | w in Waiting(r.pending) ensures r.since <= w < |r.asked| && r.asked[w] == r.pending.value.desired {
      assert w == waiter || w in Waiting(q.pending);
    }
  }

  lemma FirstNewestGrows(ds: seq<Desired>, since: nat, k: nat, d: Desired)
    requires FirstNewest(ds, since, k)
    ensures FirstNewest(ds + [d], since, if d.generation <= ds[k].generation then k else |ds|)
  {
  }

  lemma NewestAfterAsk(q: State, desired: Desired)
    requires Ordered(q) && (q.asked != [] ==> NewestIsTop(q))
    ensures NewestIsTop(Ask(q, desired))
  {
    var r := Ask(q, desired);
    if q.active.None? {
      assert FirstNewest(r.asked, r.since, |q.asked|);
    } else {
      var top := Top(q);
      var k: nat :| FirstNewest(q.asked, q.since, k) && q.asked[k] == top;
      FirstNewestGrows(q.asked, q.since, k, desired);
      assert Top(r) == if desired.generation <= top.generation then top else desired;
    }
  }

  lemma OrderedAfterAsk(q: State, desired: Desired)
    requires Ordered(q)
    ensures Ordered(Ask(q, desired))
  {
  }

  lemma InvAsk(q: State, desired: Desired)
    requires Inv(q)
    ensures Inv(Ask(q, desired))
  {
    OrderedAfterAsk(q, desired);
    OwnAfterAsk(q, desired);
    NewestAfterAsk(q, desired);
  }

  lemma InvFinish(q: State)
    requires Inv(q)
    ensures Inv(Finish(q))
  {
    var r := Finish(q);
    assert q.started != [] ==> Top(r) == Top(q);
  }

  lemma {:induction false} InvRun(steps: seq<Step>)
    ensures Inv(Run(steps))
  {
    if steps != [] {
      InvRun(steps[..|steps| - 1]);
      var q := Run(steps[..|steps| - 1]);
      match steps[|steps| - 1] {
        case Request(desired) => InvAsk(q, desired);
        case Applied => InvFinish(q);
      }
    }
  }

  /** Within a busy period the generations applied rise strictly, and each waiter waits for its own request. */
  lemma {:induction false} GenerationsRise(steps: seq<Step>)
    ensures var q := Run(steps);
            && Rising(q.started)
            && WaitForTheirOwn(q, q.active) && WaitForTheirOwn(q, q.pending)
  {
    InvRun(steps);
  }

  /** A busy period ends with the newest request made in it, the first one if several are equally new. */
  lemma {:induction false} NewestIsAppliedLast(steps: seq<Step>)
    requires var q := Run(steps); q.active.None? && q.asked != []
    ensures var q := Run(steps);
            && q.started != []
            && exists k: nat :: FirstNewest(q.asked, q.since, k) && q.asked[k] == q.started[|q.started| - 1]
  {
    InvRun(steps);
  }

  /** At most two more applies empty the queue when nobody asks again. */
  lemma {:induction false} TwoAppliesEmptyIt(steps: seq<Step>)
    ensures Run(steps + [Applied, Applied]).active.None?
  {
    InvRun(steps);
    var more := steps + [Applied, Applied];
    assert more[..|more| - 1] == steps + [Applied];
    assert (steps + [Applied])[..|steps|] == steps;
    assert Run(more) == Finish(Run(steps + [Applied]));
  }
}
