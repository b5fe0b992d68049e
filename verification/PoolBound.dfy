/**
 How many workers producers can block: with jobs that wait for later ones, two
 producers can get two workers stuck, so k producers do need k + 1.
 */
module PoolBound {
  import opened Options
  import opened WorkerPool

  // ------------------------------------------------------------- the crossed queue

  lemma {:induction false} AddLeft<Id(!new)>(q: seq<Id>, a: seq<Id>, b: seq<Id>, more: seq<Id>)
    requires Interleaves(q, a, b)
    ensures Interleaves(q + more, a + more, b)
    decreases |more|
  {
    if more == [] {
      assert q + more == q && a + more == a;
    } else {
      var init := more[..|more| - 1];
      AddLeft(q, a, b, init);
      assert (q + more)[..|q + more| - 1] == q + init && (a + more)[..|a + more| - 1] == a + init;
    }
  }

  lemma {:induction false} AddRight<Id(!new)>(q: seq<Id>, a: seq<Id>, b: seq<Id>, more: seq<Id>)
    requires Interleaves(q, a, b)
    ensures Interleaves(q + more, a, b + more)
    decreases |more|
  {
    if more == [] {
      assert q + more == q && b + more == b;
    } else {
      var init := more[..|more| - 1];
      AddRight(q, a, b, init);
      assert (q + more)[..|q + more| - 1] == q + init && (b + more)[..|b + more| - 1] == b + init;
    }
  }

  lemma {:induction false} FourParts<Id(!new)>(a1: seq<Id>, b1: seq<Id>, a2: seq<Id>, b2: seq<Id>)
    ensures Interleaves(a1 + b1 + a2 + b2, a1 + a2, b1 + b2)
  {
    var none: seq<Id> := [];
    assert none + a1 == a1 && none + b1 == b1;
    AddLeft(none, none, none, a1);
    AddRight(a1, a1, none, b1);
    AddLeft(a1 + b1, a1, b1, a2);
    AddRight(a1 + b1 + a2, a1 + a2, b1, b2);
  }

  /** The queue in which both producers stop right after a job that waits for a later one of its own. */
  function Crossed<Id>(a: seq<Id>, i: nat, b: seq<Id>, j: nat): seq<Id>
    requires i < |a| && j < |b|
  {
    a[..i + 1] + b[..j + 1] + a[i + 1..] + b[j + 1..]
  }

  lemma {:induction false} CrossedInterleaves<Id(!new)>(a: seq<Id>, i: nat, b: seq<Id>, j: nat)
    requires i < |a| && j < |b|
    ensures Interleaves(Crossed(a, i, b, j), a, b)
  {
    assert a[..i + 1] + a[i + 1..] == a && b[..j + 1] + b[j + 1..] == b;
    FourParts(a[..i + 1], b[..j + 1], a[i + 1..], b[j + 1..]);
  }

  ghost function CrossedWork<Id(!new)>(a: Work<Id>, i: nat, b: Work<Id>, j: nat): Work<Id>
    requires i < |a.queue| && j < |b.queue|
  {
    Work(Crossed(a.queue, i, b.queue, j), a.pre + b.pre)
  }

  lemma CrossedIsMerged<Id(!new)>(a: Work<Id>, i: nat, b: Work<Id>, j: nat)
    requires WellFormed(a) && WellFormed(b) && Apart(a, b) && i < |a.queue| && j < |b.queue|
    ensures Merged(a, b, CrossedWork(a, i, b, j)) && WellFormed(CrossedWork(a, i, b, j))
  {
    CrossedInterleaves(a.queue, i, b.queue, j);
    MergedIsWellFormed(a, b, CrossedWork(a, i, b, j));
  }

  // ------------------------------------------------------------------ running jobs

  ghost function Members<Id(!new)>(q: seq<Id>): set<Id> {
    set x | x in q
  }

  lemma ReachSnoc<Id(!new)>(w: Work<Id>, workers: nat, p: Pool<Id>, step: Step<Id>)
    requires Reachable(w, workers, p) && Enabled(w, workers, p, step)
    ensures Reachable(w, workers, Do(w, workers, p, step))
  {
    var steps :| Exec(w, workers, steps) == Some(p);
    var more := ExecSnoc(w, workers, steps, p, step);
  }

  /** Worker k runs the next job, whose prerequisites have finished. */
  lemma RunOne<Id(!new)>(w: Work<Id>, workers: nat, p: Pool<Id>, k: nat)
    requires Reachable(w, workers, p) && p.aside == {} && k < workers && k !in p.held
    requires p.taken < |w.queue| && w.queue[p.taken] !in p.finished && Ready(w, p, w.queue[p.taken])
    ensures Reachable(w, workers, Pool(p.taken + 1, p.held, {}, p.finished + {w.queue[p.taken]}))
  {
    var x := w.queue[p.taken];
    var busy := p.(taken := p.taken + 1, held := p.held[k := x]);
    ReachSnoc(w, workers, p, Take(k));
    ReachSnoc(w, workers, busy, Complete(k));
    assert busy.held - {k} == p.held;
  }

  lemma TakeNext<Id(!new)>(w: Work<Id>, workers: nat, p: Pool<Id>, k: nat)
    requires Reachable(w, workers, p) && p.aside == {} && k < workers && k !in p.held
    requires p.taken < |w.queue| && w.queue[p.taken] !in p.finished
    ensures Reachable(w, workers, Pool(p.taken + 1, p.held[k := w.queue[p.taken]], {}, p.finished))
  {
    ReachSnoc(w, workers, p, Take(k));
  }

  /** p after the jobs of the queue up to `end` have run. */
  ghost function Ran<Id(!new)>(w: Work<Id>, p: Pool<Id>, end: nat): Pool<Id>
    requires p.taken <= end <= |w.queue|
  {
    Pool(end, p.held, {}, p.finished + Members(w.queue[p.taken..end]))
  }

  /** The job at `end` waits for nothing that has not run by then. */
  ghost predicate Runs<Id(!new)>(w: Work<Id>, p: Pool<Id>, end: nat) {
    && p.taken <= end < |w.queue|
    && w.queue[end] !in Ran(w, p, end).finished && Ready(w, Ran(w, p, end), w.queue[end])
  }

  lemma RanNext<Id(!new)>(w: Work<Id>, p: Pool<Id>, end: nat)
    requires p.taken <= end < |w.queue|
    ensures Ran(w, p, end + 1) == Pool(end + 1, p.held, {}, Ran(w, p, end).finished + {w.queue[end]})
  {
    assert w.queue[p.taken..end + 1] == w.queue[p.taken..end] + [w.queue[end]];
  }

  lemma RunOneMore<Id(!new)>(w: Work<Id>, workers: nat, p: Pool<Id>, k: nat, end: nat)
    requires Runs(w, p, end) && Reachable(w, workers, Ran(w, p, end)) && k < workers && k !in p.held
    ensures Reachable(w, workers, Ran(w, p, end + 1))
  {
    RunOne(w, workers, Ran(w, p, end), k);
    RanNext(w, p, end);
  }

  lemma {:induction false} RunNext<Id(!new)>(w: Work<Id>, workers: nat, p: Pool<Id>, k: nat, end: nat)
    requires Reachable(w, workers, p) && p.aside == {} && k < workers && k !in p.held
    requires p.taken <= end <= |w.queue| && forall e: nat :: p.taken <= e < end ==> Runs(w, p, e)
    ensures Reachable(w, workers, Ran(w, p, end))
    decreases end
  {
    if p.taken == end {
      assert Ran(w, p, end) == p;
    } else {
      RunNext(w, workers, p, k, end - 1);
      RunOneMore(w, workers, p, k, end - 1);
    }
  }

  /** Within w the jobs of a wait for the same jobs as in a. */
  ghost predicate Inside<Id(!new)>(a: Work<Id>, w: Work<Id>) {
    forall x :: x in a.queue ==> x in a.pre && x in w.pre && w.pre[x] == a.pre[x]
  }

  lemma SliceOfSlice<Id(!new)>(q: seq<Id>, from: nat, n: nat, i: nat)
    requires i < n && from + n <= |q|
    ensures q[from + i] == q[from..from + n][i] && q[from..from + i] == q[from..from + n][..i]
  {
  }

  lemma OwnJob<Id(!new)>(a: Work<Id>, w: Work<Id>, p: Pool<Id>, n: nat, i: nat)
    requires WellFormed(a) && i < n <= |a.queue| && Inside(a, w) && !WaitsAhead(a, i)
    requires p.taken + n <= |w.queue| && w.queue[p.taken..p.taken + n] == a.queue[..n]
    requires forall x :: x in a.queue ==> x !in p.finished
    ensures Runs(w, p, p.taken + i)
  {
    var end := p.taken + i;
    SliceOfSlice(w.queue, p.taken, n, i);
    assert a.queue[..n][i] == a.queue[i] && a.queue[..n][..i] == a.queue[..i];
    assert a.queue[i] in a.queue && a.queue[i] !in a.queue[..i];
  }

  /** A producer's jobs up to the first that waits for a later one run through. */
  lemma OwnStretch<Id(!new)>(a: Work<Id>, w: Work<Id>, workers: nat, p: Pool<Id>, k: nat, n: nat)
    requires WellFormed(a) && n <= |a.queue| && Inside(a, w) && forall t: nat :: t < n ==> !WaitsAhead(a, t)
    requires p.taken + n <= |w.queue| && w.queue[p.taken..p.taken + n] == a.queue[..n]
    requires forall x :: x in a.queue ==> x !in p.finished
    requires Reachable(w, workers, p) && p.aside == {} && k < workers && k !in p.held
    ensures Reachable(w, workers, Pool(p.taken + n, p.held, {}, p.finished + Members(a.queue[..n])))
  {
    forall e: nat | p.taken <= e < p.taken + n ensures Runs(w, p, e) {
      OwnJob(a, w, p, n, e - p.taken);
    }
    RunNext(w, workers, p, k, p.taken + n);
  }

  // ------------------------------------------------------------------ both blocked

  ghost predicate FirstWait<Id(!new)>(a: Work<Id>, i: nat) {
    WaitsAhead(a, i) && forall n: nat :: n < i ==> !WaitsAhead(a, n)
  }

  ghost function OneBusy<Id(!new)>(a: Work<Id>, i: nat): Pool<Id>
    requires i < |a.queue|
  {
    Pool(i + 1, map[0 := a.queue[i]], {}, Members(a.queue[..i]))
  }

  /** Both workers hold a job that waits for one still queued. */
  ghost function BothBusy<Id(!new)>(a: Work<Id>, i: nat, b: Work<Id>, j: nat): Pool<Id>
    requires i < |a.queue| && j < |b.queue|
  {
    Pool(i + j + 2, map[0 := a.queue[i], 1 := b.queue[j]], {}, Members(a.queue[..i]) + Members(b.queue[..j]))
  }

  lemma ReachOneBusy<Id(!new)>(a: Work<Id>, i: nat, w: Work<Id>)
    requires WellFormed(a) && FirstWait(a, i) && Inside(a, w)
    requires i < |w.queue| && w.queue[0..i] == a.queue[..i] && w.queue[i] == a.queue[i]
    ensures Reachable(w, 2, OneBusy(a, i))
  {
    var start: Pool<Id> := START();
    assert Exec(w, 2, []) == Some(start);
    OwnStretch(a, w, 2, start, 0, i);
    var p := Pool(i, map[], {}, Members(a.queue[..i]));
    assert start.finished + Members(a.queue[..i]) == p.finished && a.queue[i] !in a.queue[..i];
    TakeNext(w, 2, p, 0);
    assert p.held[0 := a.queue[i]] == OneBusy(a, i).held;
  }

  /** The second producer's jobs have run up to the one that waits. */
  ghost function AlmostBoth<Id(!new)>(a: Work<Id>, i: nat, b: Work<Id>, j: nat): Pool<Id>
    requires i < |a.queue| && j < |b.queue|
  {
    Pool(i + 1 + j, OneBusy(a, i).held, {}, OneBusy(a, i).finished + Members(b.queue[..j]))
  }

  lemma BothBusyNext<Id(!new)>(a: Work<Id>, i: nat, b: Work<Id>, j: nat)
    requires WellFormed(b) && i < |a.queue| && j < |b.queue| && forall x :: x in b.queue ==> x !in a.queue
    ensures var q := AlmostBoth(a, i, b, j);
            && BothBusy(a, i, b, j) == Pool(q.taken + 1, q.held[1 := b.queue[j]], {}, q.finished)
            && b.queue[j] !in q.finished && 1 !in q.held
  {
    assert b.queue[j] in b.queue;
  }

  lemma ReachBothBusy<Id(!new)>(a: Work<Id>, i: nat, b: Work<Id>, j: nat, w: Work<Id>)
    requires WellFormed(b) && i < |a.queue| && FirstWait(b, j) && i + j + 2 <= |w.queue| && Inside(b, w)
    requires w.queue[i + 1..i + 1 + j] == b.queue[..j] && w.queue[i + 1 + j] == b.queue[j]
    requires Reachable(w, 2, OneBusy(a, i)) && forall x :: x in b.queue ==> x !in a.queue
    ensures Reachable(w, 2, BothBusy(a, i, b, j))
  {
    OwnStretch(b, w, 2, OneBusy(a, i), 1, j);
    BothBusyNext(a, i, b, j);
    TakeNext(w, 2, AlmostBoth(a, i, b, j), 1);
  }

  lemma NotReady<Id(!new)>(a: Work<Id>, i: nat, w: Work<Id>, p: Pool<Id>) returns (y: Id)
    requires WellFormed(a) && WaitsAhead(a, i) && Inside(a, w)
    requires forall x :: x in a.queue && x in p.finished ==> x in a.queue[..i]
    ensures y in a.queue && y !in p.finished && !Ready(w, p, a.queue[i])
  {
    y :| y in a.pre[a.queue[i]] && y !in a.queue[..i];
    assert a.queue[i] in a.queue;
  }

  lemma BothBusyIsStuck<Id(!new)>(a: Work<Id>, i: nat, b: Work<Id>, j: nat, w: Work<Id>)
    requires WellFormed(a) && WellFormed(b) && WaitsAhead(a, i) && WaitsAhead(b, j)
    requires Inside(a, w) && Inside(b, w) && forall x :: x in a.queue ==> x in w.queue && x !in b.queue
    ensures !AllFinished(w, BothBusy(a, i, b, j)) && !CanAdvance(w, 2, BothBusy(a, i, b, j))
  {
    var p := BothBusy(a, i, b, j);
    var y := NotReady(a, i, w, p);
    var z := NotReady(b, j, w, p);
    assert y in w.queue;
  }

  lemma CrossedFacts<Id(!new)>(a: Work<Id>, i: nat, b: Work<Id>, j: nat)
    requires WellFormed(a) && WellFormed(b) && Apart(a, b) && i < |a.queue| && j < |b.queue|
    ensures var w := CrossedWork(a, i, b, j);
            && Inside(a, w) && Inside(b, w) && i + j + 2 <= |w.queue|
            && (forall x :: x in a.queue ==> x in w.queue && x !in b.queue)
            && w.queue[0..i] == a.queue[..i] && w.queue[i] == a.queue[i]
            && w.queue[i + 1..i + 1 + j] == b.queue[..j] && w.queue[i + 1 + j] == b.queue[j]
  {
    var w := CrossedWork(a, i, b, j);
    CrossedInterleaves(a.queue, i, b.queue, j);
    forall x | x in a.queue ensures x in w.queue && x !in b.queue {
      InterleavedMembers(w.queue, a.queue, b.queue, x);
      assert x in a.pre && x !in b.pre;
    }
  }

  /** If each of two producers has a job that waits for a later one, some interleaving gets two workers stuck. */
  lemma TwoProducersStickTwoWorkers<Id(!new)>(a: Work<Id>, i: nat, b: Work<Id>, j: nat)
    requires WellFormed(a) && WellFormed(b) && Apart(a, b) && WaitsAhead(a, i) && WaitsAhead(b, j)
    ensures exists w, p :: Merged(a, b, w) && Reachable(w, 2, p) && !AllFinished(w, p) && !CanAdvance(w, 2, p)
  {
    var m := FirstAhead(a, i);
    var n := FirstAhead(b, j);
    var w := CrossedWork(a, m, b, n);
    CrossedIsMerged(a, m, b, n);
    CrossedFacts(a, m, b, n);
    ReachOneBusy(a, m, w);
    ReachBothBusy(a, m, b, n, w);
    BothBusyIsStuck(a, m, b, n, w);
  }
}
