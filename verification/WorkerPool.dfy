/**
 The worker pool (agent/actions.go, actionDispatcherLoop, actionWorkerLoop and
 finishActionJobOutcome): jobs are taken in queue order, a worker blocks until the
 prerequisites of its job have finished, and a job that is replaced or found stale
 is finished aside from the workers once its prerequisites have finished.
 */
module WorkerPool {
  import opened Options

  /** The queue in order and what each job waits for. */
  datatype Work<Id(!new)> = Work(queue: seq<Id>, pre: map<Id, seq<Id>>)

  /**
   The first `taken` jobs of the queue have left it; `held` maps busy workers to
   their jobs; `aside` are jobs that no worker will run but that are not finished.
   */
  datatype Pool<Id(!new)> = Pool(taken: nat, held: map<nat, Id>, aside: set<Id>, finished: set<Id>)

  datatype Step<Id(!new)> =
    | Take(worker: nat)       // a free worker takes the next job
    | Complete(worker: nat)   // its prerequisites finished, the job runs and finishes
    | CompleteAside(id: Id)   // the same for a job set aside
    | SetAside(id: Id)        // replaced in the queue, or found stale by the dispatcher
    | Abandon(worker: nat)    // found stale by its worker

  function START<Id(!new)>(): Pool<Id> { Pool(0, map[], {}, {}) }

  ghost predicate WellFormed<Id(!new)>(w: Work<Id>) {
    && (forall i, j :: 0 <= i < j < |w.queue| ==> w.queue[i] != w.queue[j])
    && (forall x :: x in w.queue ==> x in w.pre)
    && (forall x, y :: x in w.queue && y in w.pre[x] ==> y in w.queue)
  }

  ghost predicate Ready<Id(!new)>(w: Work<Id>, p: Pool<Id>, x: Id) {
    x in w.pre && forall y :: y in w.pre[x] ==> y in p.finished
  }

  ghost predicate Enabled<Id(!new)>(w: Work<Id>, workers: nat, p: Pool<Id>, s: Step<Id>) {
    match s
    case Take(k) => k < workers && k !in p.held && p.taken < |w.queue|
    case Complete(k) => k in p.held && Ready(w, p, p.held[k])
    case CompleteAside(x) => x in p.aside && Ready(w, p, x)
    case SetAside(x) => p.taken <= |w.queue| && x in w.queue[p.taken..] && x !in p.aside && x !in p.finished
    case Abandon(k) => k in p.held
  }

  ghost function Do<Id(!new)>(w: Work<Id>, workers: nat, p: Pool<Id>, s: Step<Id>): Pool<Id>
    requires Enabled(w, workers, p, s)
  {
    match s
    case Take(k) =>
      var x := w.queue[p.taken];
      if x in p.aside || x in p.finished then p.(taken := p.taken + 1)
      else p.(taken := p.taken + 1, held := p.held[k := x])
    case Complete(k) => p.(held := p.held - {k}, finished := p.finished + {p.held[k]})
    case CompleteAside(x) => p.(aside := p.aside - {x}, finished := p.finished + {x})
    case SetAside(x) => p.(aside := p.aside + {x})
    case Abandon(k) => p.(held := p.held - {k}, aside := p.aside + {p.held[k]})
  }

  ghost function Exec<Id(!new)>(w: Work<Id>, workers: nat, steps: seq<Step<Id>>): Option<Pool<Id>> {
    if steps == [] then Some(START())
    else
      var before := Exec(w, workers, steps[..|steps| - 1]);
      if before.None? || !Enabled(w, workers, before.value, steps[|steps| - 1]) then None
      else Some(Do(w, workers, before.value, steps[|steps| - 1]))
  }

  ghost predicate Reachable<Id(!new)>(w: Work<Id>, workers: nat, p: Pool<Id>) {
    exists steps :: Exec(w, workers, steps) == Some(p)
  }

  /** Some worker or finisher can advance: the pool is not stuck. */
  ghost predicate CanAdvance<Id(!new)>(w: Work<Id>, workers: nat, p: Pool<Id>) {
    exists s: Step<Id> :: (s.Take? || s.Complete? || s.CompleteAside?) && Enabled(w, workers, p, s)
  }

  ghost predicate AllFinished<Id(!new)>(w: Work<Id>, p: Pool<Id>) {
    forall x :: x in w.queue ==> x in p.finished
  }

  // ------------------------------------------------------------ the invariant

  ghost predicate Taken<Id(!new)>(w: Work<Id>, p: Pool<Id>, x: Id) {
    p.taken <= |w.queue| && x in w.queue[..p.taken]
  }

  ghost predicate Inv<Id(!new)>(w: Work<Id>, workers: nat, p: Pool<Id>) {
    && p.taken <= |w.queue|
    && (forall k :: k in p.held ==> k < workers && Taken(w, p, p.held[k]) && p.held[k] !in p.finished && p.held[k] !in p.aside)
    && (forall j, k :: j in p.held && k in p.held && p.held[j] == p.held[k] ==> j == k)
    && (forall x :: x in p.aside ==> x in w.queue && x !in p.finished)
    && (forall x :: x in p.finished ==> x in w.queue)
    && (forall x :: Taken(w, p, x) && x !in p.finished && x !in p.aside ==> exists k :: k in p.held && p.held[k] == x)
  }

  lemma TakenSplit<Id(!new)>(w: Work<Id>, n: nat, x: Id)
    requires n < |w.queue|
    ensures x in w.queue[..n + 1] <==> x in w.queue[..n] || x == w.queue[n]
  {
    assert w.queue[..n + 1] == w.queue[..n] + [w.queue[n]];
  }

  lemma InvTake<Id(!new)>(w: Work<Id>, workers: nat, p: Pool<Id>, k: nat)
    requires WellFormed(w) && Inv(w, workers, p) && Enabled(w, workers, p, Take(k))
    ensures Inv(w, workers, Do(w, workers, p, Take(k)))
  {
    var p' := Do(w, workers, p, Take(k));
    var next := w.queue[p.taken];
    forall x ensures Taken(w, p', x) <==> Taken(w, p, x) || x == next {
      TakenSplit(w, p.taken, x);
    }
    assert !Taken(w, p, next);
    forall x | Taken(w, p', x) && x !in p'.finished && x !in p'.aside ensures exists j :: j in p'.held && p'.held[j] == x {
      if x == next {
        assert k in p'.held && p'.held[k] == x;
      } else {
        var j :| j in p.held && p.held[j] == x;
        assert j in p'.held && p'.held[j] == x;
      }
    }
  }

  lemma InvStep<Id(!new)>(w: Work<Id>, workers: nat, p: Pool<Id>, s: Step<Id>)
    requires WellFormed(w) && Inv(w, workers, p) && Enabled(w, workers, p, s)
    ensures Inv(w, workers, Do(w, workers, p, s))
  {
    var p' := Do(w, workers, p, s);
    if s.Take? {
      InvTake(w, workers, p, s.worker);
    } else {
      if s.SetAside? {
        var i :| 0 <= i < |w.queue[p.taken..]| && w.queue[p.taken..][i] == s.id;
        assert !Taken(w, p, s.id);
      }
      forall x ensures Taken(w, p', x) <==> Taken(w, p, x) {
      }
      forall x | Taken(w, p', x) && x !in p'.finished && x !in p'.aside ensures exists j :: j in p'.held && p'.held[j] == x {
        var j :| j in p.held && p.held[j] == x;
        assert j in p'.held && p'.held[j] == x;
      }
    }
  }

  lemma {:induction false} InvRun<Id(!new)>(w: Work<Id>, workers: nat, steps: seq<Step<Id>>)
    requires WellFormed(w) && Exec(w, workers, steps).Some?
    ensures Inv(w, workers, Exec(w, workers, steps).value)
  {
    if steps != [] {
      InvRun(w, workers, steps[..|steps| - 1]);
      InvStep(w, workers, Exec(w, workers, steps[..|steps| - 1]).value, steps[|steps| - 1]);
    }
  }

  // ------------------------------------------------------------- never stuck

  /** `level` falls along every prerequisite. */
  ghost predicate Layered<Id(!new)>(w: Work<Id>, level: Id -> nat) {
    forall x, y :: x in w.queue && x in w.pre && y in w.pre[x] ==> level(y) < level(x)
  }

  /**
   Wherever the queue is cut, fewer than `workers` jobs before the cut wait,
   directly or through others before the cut, for something after it.
   */
  ghost predicate Narrow<Id(!new)>(w: Work<Id>, workers: nat) {
    forall cut: nat :: cut <= |w.queue| ==> NarrowAt(w, workers, cut)
  }

  ghost predicate NarrowAt<Id(!new)>(w: Work<Id>, workers: nat, cut: nat) {
    exists s: set<Id> :: |s| < workers && Closed(w, cut, s)
  }

  ghost predicate Closed<Id(!new)>(w: Work<Id>, cut: nat, s: set<Id>) {
    cut <= |w.queue| &&
    forall x, y :: x in w.queue[..cut] && x in w.pre && y in w.pre[x] && (y !in w.queue[..cut] || y in s) ==> x in s
  }

  /** If nothing can advance, every unfinished job taken so far is blocked by what is still queued. */
  lemma {:induction false} StuckIsBlocked<Id(!new)>(w: Work<Id>, workers: nat, p: Pool<Id>, level: Id -> nat, s: set<Id>, x: Id)
    requires WellFormed(w) && Inv(w, workers, p) && Layered(w, level) && Closed(w, p.taken, s)
    requires !CanAdvance(w, workers, p) && Taken(w, p, x) && x !in p.finished
    ensures x in s
    decreases level(x)
  {
    if x in p.aside {
      assert !Enabled(w, workers, p, CompleteAside(x));
    } else {
      var k :| k in p.held && p.held[k] == x;
      assert !Enabled(w, workers, p, Complete(k));
    }
    var y :| y in w.pre[x] && y !in p.finished;
    if y in w.queue[..p.taken] {
      StuckIsBlocked(w, workers, p, level, s, y);
    }
  }

  lemma {:induction false} FewerThan<Id(!new)>(held: map<nat, Id>, workers: nat, s: set<Id>)
    requires forall k: nat :: k < workers ==> k in held && held[k] in s
    requires forall j, k :: j in held && k in held && held[j] == held[k] ==> j == k
    ensures workers <= |s|
  {
    if workers > 0 {
      var x := held[workers - 1];
      FewerThan(held - {workers - 1}, workers - 1, s - {x});
    }
  }

  lemma {:induction false} LowestUnfinished<Id(!new)>(w: Work<Id>, p: Pool<Id>, level: Id -> nat, x: Id) returns (m: Id)
    requires WellFormed(w) && Layered(w, level) && x in w.queue && x !in p.finished
    ensures m in w.queue && m !in p.finished && Ready(w, p, m)
    decreases level(x)
  {
    if Ready(w, p, x) {
      m := x;
    } else {
      var y :| y in w.pre[x] && y !in p.finished;
      m := LowestUnfinished(w, p, level, y);
    }
  }

  /** In every reachable state with an unfinished job, some worker or finisher can advance. */
  lemma NeverStuck<Id(!new)>(w: Work<Id>, workers: nat, p: Pool<Id>, level: Id -> nat)
    requires WellFormed(w) && Layered(w, level) && Narrow(w, workers) && Reachable(w, workers, p)
    requires !AllFinished(w, p)
    ensures CanAdvance(w, workers, p)
  {
    var steps :| Exec(w, workers, steps) == Some(p);
    InvRun(w, workers, steps);
    if !CanAdvance(w, workers, p) {
      assert NarrowAt(w, workers, p.taken);
      var s :| |s| < workers && Closed(w, p.taken, s);
      if p.taken < |w.queue| {
        forall k: nat | k < workers ensures k in p.held && p.held[k] in s {
          assert !Enabled(w, workers, p, Take(k));
          StuckIsBlocked(w, workers, p, level, s, p.held[k]);
        }
        FewerThan(p.held, workers, s);
      } else {
        assert w.queue[..p.taken] == w.queue;
        var x :| x in w.queue && x !in p.finished;
        var m := LowestUnfinished(w, p, level, x);
        if m in p.aside {
          assert Enabled(w, workers, p, CompleteAside(m));
        } else {
          assert Taken(w, p, m);
          var k :| k in p.held && p.held[k] == m;
          assert Enabled(w, workers, p, Complete(k));
        }
      }
    }
  }

  ghost function Distance<Id(!new)>(w: Work<Id>, p: Pool<Id>): int {
    2 * |w.queue| - p.taken - |p.finished|
  }

  /** Every advance shrinks a distance that is never negative, so all jobs finish after finitely many. */
  lemma AdvanceIsFinite<Id(!new)>(w: Work<Id>, workers: nat, p: Pool<Id>, s: Step<Id>)
    requires WellFormed(w) && Reachable(w, workers, p) && Enabled(w, workers, p, s)
    ensures 0 <= Distance(w, Do(w, workers, p, s)) <= Distance(w, p)
    ensures s.Take? || s.Complete? || s.CompleteAside? ==> Distance(w, Do(w, workers, p, s)) < Distance(w, p)
  {
    var steps :| Exec(w, workers, steps) == Some(p);
    InvRun(w, workers, steps);
    InvStep(w, workers, p, s);
    var p' := Do(w, workers, p, s);
    SetWithin(p'.finished, w.queue);
  }

  lemma {:induction false} SetWithin<Id(!new)>(s: set<Id>, q: seq<Id>)
    requires forall x :: x in s ==> x in q
    ensures |s| <= |q|
  {
    if q != [] {
      SetWithin(s - {q[0]}, q[1..]);
    }
  }

  // -------------------------------------------------- one queue after another

  ghost function Concat<Id(!new)>(a: Work<Id>, b: Work<Id>): Work<Id> {
    Work(a.queue + b.queue, a.pre + b.pre)
  }

  ghost predicate Apart<Id(!new)>(a: Work<Id>, b: Work<Id>) {
    a.pre.Keys !! b.pre.Keys
  }

  /** Batches queued one after another are as harmless as each of them. */
  lemma ConcatNarrow<Id(!new)>(a: Work<Id>, b: Work<Id>, workers: nat)
    requires WellFormed(a) && WellFormed(b) && Apart(a, b) && Narrow(a, workers) && Narrow(b, workers)
    ensures WellFormed(Concat(a, b)) && Narrow(Concat(a, b), workers)
  {
    var w := Concat(a, b);
    forall cut: nat | cut <= |w.queue| ensures NarrowAt(w, workers, cut) {
      if cut <= |a.queue| {
        assert NarrowAt(a, workers, cut) && w.queue[..cut] == a.queue[..cut];
        var s :| |s| < workers && Closed(a, cut, s);
        ClosedConcatLeft(a, b, cut, s);
      } else {
        assert NarrowAt(b, workers, cut - |a.queue|);
        var s :| |s| < workers && Closed(b, cut - |a.queue|, s);
        ClosedConcatRight(a, b, cut, s);
      }
    }
    WellFormedConcat(a, b);
  }

  lemma WellFormedConcat<Id(!new)>(a: Work<Id>, b: Work<Id>)
    requires WellFormed(a) && WellFormed(b) && Apart(a, b)
    ensures WellFormed(Concat(a, b))
  {
    var w := Concat(a, b);
    forall i, j | 0 <= i < j < |w.queue| ensures w.queue[i] != w.queue[j] {
      if i < |a.queue| <= j {
        assert a.queue[i] in a.queue && b.queue[j - |a.queue|] in b.queue;
      }
    }
  }

  lemma ClosedConcatLeft<Id(!new)>(a: Work<Id>, b: Work<Id>, cut: nat, s: set<Id>)
    requires WellFormed(a) && Apart(a, b) && Closed(a, cut, s)
    ensures Closed(Concat(a, b), cut, s)
  {
    var w := Concat(a, b);
    assert w.queue[..cut] == a.queue[..cut];
    forall x, y | x in w.queue[..cut] && x in w.pre && y in w.pre[x] && (y !in w.queue[..cut] || y in s) ensures x in s {
      assert x in a.queue && w.pre[x] == a.pre[x];
    }
  }

  lemma ClosedConcatRight<Id(!new)>(a: Work<Id>, b: Work<Id>, cut: nat, s: set<Id>)
    requires WellFormed(a) && WellFormed(b) && Apart(a, b) && |a.queue| <= cut <= |a.queue| + |b.queue|
    requires Closed(b, cut - |a.queue|, s)
    ensures Closed(Concat(a, b), cut, set x | x in s && x in b.queue)
    ensures |set x | x in s && x in b.queue| <= |s|
  {
    var w, n := Concat(a, b), cut - |a.queue|;
    var s' := set x | x in s && x in b.queue;
    assert w.queue[..cut] == a.queue + b.queue[..n];
    forall x, y | x in a.queue && x in w.pre && y in w.pre[x] ensures y in a.queue && y !in b.queue {
      assert w.pre[x] == a.pre[x];
    }
    forall x, y | x in w.queue[..cut] && x in w.pre && y in w.pre[x] && (y !in w.queue[..cut] || y in s') ensures x in s' {
      assert x in b.queue[..n] && w.pre[x] == b.pre[x];
    }
    SmallerSet(s', s);
  }

  lemma {:induction false} SmallerSet<Id(!new)>(a: set<Id>, b: set<Id>)
    requires a <= b
    ensures |a| <= |b|
  {
    if a != {} {
      var x :| x in a;
      SmallerSet(a - {x}, b - {x});
    }
  }

  // ------------------------------------------------------ queues that interleave

  /** q holds a and b, each in its own order. */
  predicate Interleaves<Id(!new, ==)>(q: seq<Id>, a: seq<Id>, b: seq<Id>)
    decreases |q|
  {
    if q == [] then a == [] && b == []
    else
      var init, last := q[..|q| - 1], q[|q| - 1];
      || (a != [] && a[|a| - 1] == last && Interleaves(init, a[..|a| - 1], b))
      || (b != [] && b[|b| - 1] == last && Interleaves(init, a, b[..|b| - 1]))
  }

  /** Two producers queue their jobs without a common lock. */
  ghost predicate Merged<Id(!new)>(a: Work<Id>, b: Work<Id>, w: Work<Id>) {
    Interleaves(w.queue, a.queue, b.queue) && w.pre == a.pre + b.pre
  }

  lemma {:induction false} InterleavedMembers<Id(!new)>(q: seq<Id>, a: seq<Id>, b: seq<Id>, x: Id)
    requires Interleaves(q, a, b)
    ensures x in q <==> x in a || x in b
    ensures |q| == |a| + |b|
    decreases |q|
  {
    if q != [] {
      var init, last := q[..|q| - 1], q[|q| - 1];
      assert q == init + [last];
      if a != [] && a[|a| - 1] == last && Interleaves(init, a[..|a| - 1], b) {
        InterleavedMembers(init, a[..|a| - 1], b, x);
        assert a == a[..|a| - 1] + [last];
      } else {
        InterleavedMembers(init, a, b[..|b| - 1], x);
        assert b == b[..|b| - 1] + [last];
      }
    }
  }

  /** Any cut of the interleaved queue is a cut of both. */
  lemma {:induction false} InterleavedCut<Id(!new)>(q: seq<Id>, a: seq<Id>, b: seq<Id>, cut: nat) returns (i: nat, j: nat)
    requires Interleaves(q, a, b) && cut <= |q|
    ensures i <= |a| && j <= |b| && Interleaves(q[..cut], a[..i], b[..j])
    decreases |q|
  {
    if cut == |q| {
      i, j := |a|, |b|;
      assert q[..cut] == q && a[..i] == a && b[..j] == b;
    } else {
      var init, last := q[..|q| - 1], q[|q| - 1];
      assert init[..cut] == q[..cut];
      if a != [] && a[|a| - 1] == last && Interleaves(init, a[..|a| - 1], b) {
        i, j := InterleavedCut(init, a[..|a| - 1], b, cut);
        assert a[..|a| - 1][..i] == a[..i];
      } else {
        i, j := InterleavedCut(init, a, b[..|b| - 1], cut);
        assert b[..|b| - 1][..j] == b[..j];
      }
    }
  }

  ghost predicate Distinct<Id(!new)>(q: seq<Id>) {
    forall i, j :: 0 <= i < j < |q| ==> q[i] != q[j]
  }

  lemma {:induction false} InterleavedDistinct<Id(!new)>(q: seq<Id>, a: seq<Id>, b: seq<Id>)
    requires Interleaves(q, a, b) && Distinct(a) && Distinct(b) && forall x :: !(x in a && x in b)
    ensures Distinct(q)
    decreases |q|
  {
    if q != [] {
      var init, last := q[..|q| - 1], q[|q| - 1];
      var left := a != [] && a[|a| - 1] == last && Interleaves(init, a[..|a| - 1], b);
      var a', b' := if left then a[..|a| - 1] else a, if left then b else b[..|b| - 1];
      assert forall x :: (x in a' ==> x in a) && (x in b' ==> x in b);
      InterleavedDistinct(init, a', b');
      InterleavedMembers(init, a', b', last);
      assert last !in a' && last !in b' by {
        if left {
          assert last in a;
        } else {
          assert last in b;
        }
      }
      assert last !in init;
    }
  }

  lemma MergedIsWellFormed<Id(!new)>(a: Work<Id>, b: Work<Id>, w: Work<Id>)
    requires WellFormed(a) && WellFormed(b) && Apart(a, b) && Merged(a, b, w)
    ensures WellFormed(w)
  {
    forall x ensures x in w.queue <==> x in a.queue || x in b.queue {
      InterleavedMembers(w.queue, a.queue, b.queue, x);
    }
    forall x ensures !(x in a.queue && x in b.queue) {
      assert x in a.queue ==> x in a.pre;
    }
    InterleavedDistinct(w.queue, a.queue, b.queue);
    forall x | x in w.queue ensures x in w.pre && w.pre[x] == if x in a.queue then a.pre[x] else b.pre[x] {
    }
  }

  lemma {:induction false} UnionSize<Id(!new)>(s: set<Id>, t: set<Id>)
    ensures |s + t| <= |s| + |t|
  {
    assert s + t == s + (t - s);
    SmallerSet(t - s, t);
  }

  /** What each queue has blocked before the cut is, together, what the interleaved one has. */
  lemma ClosedMerge<Id(!new)>(a: Work<Id>, b: Work<Id>, w: Work<Id>, cut: nat, i: nat, j: nat, s: set<Id>, t: set<Id>)
    requires WellFormed(a) && WellFormed(b) && Apart(a, b) && Merged(a, b, w) && cut <= |w.queue|
    requires i <= |a.queue| && j <= |b.queue| && Interleaves(w.queue[..cut], a.queue[..i], b.queue[..j])
    requires Closed(a, i, s) && Closed(b, j, t)
    requires (forall x :: x in s ==> x in a.queue) && forall x :: x in t ==> x in b.queue
    ensures Closed(w, cut, s + t)
  {
    forall x ensures x in w.queue[..cut] <==> x in a.queue[..i] || x in b.queue[..j] {
      InterleavedMembers(w.queue[..cut], a.queue[..i], b.queue[..j], x);
    }
    forall x, y | x in w.queue[..cut] && x in w.pre && y in w.pre[x] && (y !in w.queue[..cut] || y in s + t) ensures x in s + t {
      if x in a.queue[..i] {
        assert x in a.queue && w.pre[x] == a.pre[x] && y in a.queue && y !in b.queue;
      } else {
        assert x in b.queue && w.pre[x] == b.pre[x] && y in b.queue && y !in a.queue;
      }
    }
  }

  /** What is blocked at a cut, kept to jobs of the queue. */
  lemma BlockedWithin<Id(!new)>(a: Work<Id>, m: nat, cut: nat) returns (s: set<Id>)
    requires WellFormed(a) && Narrow(a, m) && cut <= |a.queue|
    ensures |s| < m && Closed(a, cut, s) && forall x :: x in s ==> x in a.queue
  {
    assert NarrowAt(a, m, cut);
    var all :| |all| < m && Closed(a, cut, all);
    s := set x | x in all && x in a.queue;
    SmallerSet(s, all);
  }

  lemma MergedNarrowAt<Id(!new)>(a: Work<Id>, b: Work<Id>, w: Work<Id>, m: nat, n: nat, k: nat, cut: nat)
    requires WellFormed(a) && WellFormed(b) && Apart(a, b) && Merged(a, b, w) && cut <= |w.queue|
    requires Narrow(a, m) && Narrow(b, n) && k + 1 == m + n
    ensures NarrowAt(w, k, cut)
  {
    var i, j := InterleavedCut(w.queue, a.queue, b.queue, cut);
    var s := BlockedWithin(a, m, i);
    var t := BlockedWithin(b, n, j);
    ClosedMerge(a, b, w, cut, i, j, s, t);
    UnionSize(s, t);
  }

  /** Interleaving adds up what may be blocked: m - 1 and n - 1 jobs make m + n - 2. */
  lemma MergedNarrow<Id(!new)>(a: Work<Id>, b: Work<Id>, w: Work<Id>, m: nat, n: nat, k: nat)
    requires WellFormed(a) && WellFormed(b) && Apart(a, b) && Merged(a, b, w)
    requires Narrow(a, m) && Narrow(b, n) && k + 1 == m + n
    ensures Narrow(w, k)
  {
    forall cut: nat | cut <= |w.queue| ensures NarrowAt(w, k, cut) {
      MergedNarrowAt(a, b, w, m, n, k, cut);
    }
  }

  lemma MergedLayered<Id(!new)>(a: Work<Id>, b: Work<Id>, w: Work<Id>, level: Id -> nat)
    requires WellFormed(a) && WellFormed(b) && Apart(a, b) && Merged(a, b, w)
    requires Layered(a, level) && Layered(b, level)
    ensures Layered(w, level)
  {
    forall x, y | x in w.queue && x in w.pre && y in w.pre[x] ensures level(y) < level(x) {
      InterleavedMembers(w.queue, a.queue, b.queue, x);
      if x in a.queue {
        assert w.pre[x] == a.pre[x];
      } else {
        assert w.pre[x] == b.pre[x];
      }
    }
  }

  // ------------------------------------------------------------- one worker only

  ghost predicate WaitsAhead<Id(!new)>(w: Work<Id>, j: nat) {
    j < |w.queue| && w.queue[j] in w.pre && exists y :: y in w.pre[w.queue[j]] && y !in w.queue[..j]
  }

  lemma ExecSnoc<Id(!new)>(w: Work<Id>, workers: nat, steps: seq<Step<Id>>, p: Pool<Id>, s: Step<Id>) returns (steps': seq<Step<Id>>)
    requires Exec(w, workers, steps) == Some(p) && Enabled(w, workers, p, s)
    ensures Exec(w, workers, steps') == Some(Do(w, workers, p, s))
  {
    steps' := steps + [s];
    assert steps'[..|steps'| - 1] == steps;
  }

  /** The first n jobs are finished and nothing else has happened. */
  ghost function Solo<Id(!new)>(w: Work<Id>, n: nat): Pool<Id>
    requires n <= |w.queue|
  {
    Pool(n, map[], {}, set x | x in w.queue[..n])
  }

  ghost function SoloBusy<Id(!new)>(w: Work<Id>, n: nat): Pool<Id>
    requires n < |w.queue|
  {
    Pool(n + 1, map[0 := w.queue[n]], {}, set x | x in w.queue[..n])
  }

  lemma SoloTake<Id(!new)>(w: Work<Id>, n: nat)
    requires WellFormed(w) && n < |w.queue|
    ensures Enabled(w, 1, Solo(w, n), Take(0)) && Do(w, 1, Solo(w, n), Take(0)) == SoloBusy(w, n)
  {
    assert w.queue[n] !in w.queue[..n];
  }

  lemma SoloComplete<Id(!new)>(w: Work<Id>, n: nat)
    requires WellFormed(w) && n < |w.queue| && !WaitsAhead(w, n)
    ensures Enabled(w, 1, SoloBusy(w, n), Complete(0)) && Do(w, 1, SoloBusy(w, n), Complete(0)) == Solo(w, n + 1)
  {
    var p := SoloBusy(w, n);
    assert w.queue[n] in w.queue && Ready(w, p, w.queue[n]);
    assert p.held - {0} == map[];
    forall x ensures x in p.finished + {w.queue[n]} <==> x in Solo(w, n + 1).finished {
      TakenSplit(w, n, x);
    }
  }

  lemma {:induction false} RunFirst<Id(!new)>(w: Work<Id>, n: nat) returns (steps: seq<Step<Id>>)
    requires WellFormed(w) && n <= |w.queue| && forall i: nat :: i < n ==> !WaitsAhead(w, i)
    ensures Exec(w, 1, steps) == Some(Solo(w, n))
  {
    if n == 0 {
      steps := [];
      assert Solo(w, 0).finished == {};
    } else {
      steps := RunFirst(w, n - 1);
      SoloTake(w, n - 1);
      steps := ExecSnoc(w, 1, steps, Solo(w, n - 1), Take(0));
      SoloComplete(w, n - 1);
      steps := ExecSnoc(w, 1, steps, SoloBusy(w, n - 1), Complete(0));
    }
  }

  /** A single worker gets stuck exactly when some job waits for one behind it in the queue. */
  lemma OneWorkerSticks<Id(!new)>(w: Work<Id>, level: Id -> nat)
    requires WellFormed(w) && Layered(w, level)
    ensures (exists j: nat :: WaitsAhead(w, j)) <==>
            exists p :: Reachable(w, 1, p) && !AllFinished(w, p) && !CanAdvance(w, 1, p)
  {
    if j: nat :| WaitsAhead(w, j) {
      var m := FirstAhead(w, j);
      var p := StuckAt(w, m);
    } else {
      forall cut: nat | cut <= |w.queue| ensures NarrowAt(w, 1, cut) {
        forall x, y | x in w.queue[..cut] && x in w.pre && y in w.pre[x] ensures y in w.queue[..cut] {
          var i: nat :| i < cut && w.queue[i] == x;
          assert !WaitsAhead(w, i);
          assert w.queue[..i] <= w.queue[..cut];
        }
        var none: set<Id> := {};
        assert |none| < 1 && Closed(w, cut, none);
      }
      forall p | Reachable(w, 1, p) && !AllFinished(w, p) ensures CanAdvance(w, 1, p) {
        NeverStuck(w, 1, p, level);
      }
    }
  }

  lemma {:induction false} FirstAhead<Id(!new)>(w: Work<Id>, j: nat) returns (m: nat)
    requires WaitsAhead(w, j)
    ensures WaitsAhead(w, m) && forall i: nat :: i < m ==> !WaitsAhead(w, i)
  {
    if i: nat :| i < j && WaitsAhead(w, i) {
      m := FirstAhead(w, i);
    } else {
      m := j;
    }
  }

  lemma BusyBlocked<Id(!new)>(w: Work<Id>, j: nat)
    requires WellFormed(w) && WaitsAhead(w, j)
    ensures !AllFinished(w, SoloBusy(w, j)) && !CanAdvance(w, 1, SoloBusy(w, j))
  {
    var p := SoloBusy(w, j);
    var y :| y in w.pre[w.queue[j]] && y !in w.queue[..j];
    assert y !in p.finished && !Ready(w, p, w.queue[j]);
    assert w.queue[j] in w.queue && w.queue[j] !in p.finished;
  }

  lemma StuckAt<Id(!new)>(w: Work<Id>, j: nat) returns (p: Pool<Id>)
    requires WellFormed(w) && WaitsAhead(w, j) && forall i: nat :: i < j ==> !WaitsAhead(w, i)
    ensures Reachable(w, 1, p) && !AllFinished(w, p) && !CanAdvance(w, 1, p)
  {
    var steps := RunFirst(w, j);
    SoloTake(w, j);
    steps := ExecSnoc(w, 1, steps, Solo(w, j), Take(0));
    p := SoloBusy(w, j);
    BusyBlocked(w, j);
  }
}
