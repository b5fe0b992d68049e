/**
 Planned batches on the worker pool: k producers that each queue planned batches, in
 any interleaving, never get k + 1 workers stuck, although a shared runtime may wait
 for one that is queued behind it.
 */
module BatchProgress {
  import opened ActionKeys
  import opened Options
  import opened Planner
  import opened PoolBound
  import opened WorkerPool

  /** A producer, and the number of one of its batches. */
  datatype Label = Label(producer: nat, batch: nat)

  type Id = (Label, JobId)

  const ONLY := Label(0, 0)

  function Tagged(n: Label, ids: seq<JobId>): seq<Id> {
    seq(|ids|, k requires 0 <= k < |ids| => (n, ids[k]))
  }

  lemma TaggedMember(n: Label, ids: seq<JobId>, x: Id)
    ensures x in Tagged(n, ids) <==> x.0 == n && x.1 in ids
  {
    if x.0 == n && x.1 in ids {
      var k :| 0 <= k < |ids| && ids[k] == x.1;
      assert Tagged(n, ids)[k] == x;
    }
  }

  ghost function WorkOf(n: Label, b: Batch, g: Graph): Work<Id> {
    Work(Tagged(n, QueueOrder(b)), map x: Id | x in Tagged(n, QueueOrder(b)) :: Tagged(n, Prereqs(g, x.1)))
  }

  // ------------------------------------------------------ the shape of the queue

  lemma {:induction false} RuntimeIdsAt(n: nat)
    ensures |RuntimeIds(n)| == n && forall k :: 0 <= k < n ==> RuntimeIds(n)[k] == RuntimeOf(k)
  {
    if n > 0 {
      RuntimeIdsAt(n - 1);
    }
  }

  lemma {:induction false} RemainingIdsAt(n: nat)
    ensures |RemainingIds(n)| == n && forall k :: 0 <= k < n ==> RemainingIds(n)[k] == RemainingOf(k)
  {
    if n > 0 {
      RemainingIdsAt(n - 1);
    }
  }

  lemma {:induction false} HandoffsAscend(b: Batch, n: nat)
    ensures forall k :: 0 <= k < |Handoffs(b, n)| ==> Handoffs(b, n)[k].HandoffOf? && Handoffs(b, n)[k].i < n
    ensures forall j, k :: 0 <= j < k < |Handoffs(b, n)| ==> Handoffs(b, n)[j] != Handoffs(b, n)[k]
  {
    if n > 0 {
      HandoffsAscend(b, n - 1);
    }
  }

  /** Handoffs come first, then shared runtimes, then the rest, nothing twice. */
  lemma {:induction false} QueueShape(b: Batch)
    ensures var q, h, r, n := QueueOrder(b), |Handoffs(b, |b.remaining|)|, |b.runtime|, |b.remaining|;
            && |q| == h + r + n
            && (forall k :: 0 <= k < h ==> q[k].HandoffOf?)
            && (forall k :: h <= k < h + r ==> q[k] == RuntimeOf(k - h))
            && (forall k :: h + r <= k < h + r + n ==> q[k] == RemainingOf(k - h - r))
            && (forall j, k :: 0 <= j < k < |q| ==> q[j] != q[k])
  {
    HandoffsAscend(b, |b.remaining|);
    RuntimeIdsAt(|b.runtime|);
    RemainingIdsAt(|b.remaining|);
  }

  lemma QueueMembers(b: Batch, x: JobId)
    ensures x in QueueOrder(b) <==>
            match x
            case HandoffOf(i) => HasHandoff(b, i)
            case RuntimeOf(r) => r < |b.runtime|
            case RemainingOf(i) => i < |b.remaining|
  {
    QueueShape(b);
    HandoffsMeaning(b, |b.remaining|, x);
    RuntimeIdsAt(|b.runtime|);
    RemainingIdsAt(|b.remaining|);
    match x
    case HandoffOf(i) =>
    case RuntimeOf(r) =>
      if r < |b.runtime| {
        assert RuntimeIds(|b.runtime|)[r] == x;
      }
    case RemainingOf(i) =>
      if i < |b.remaining| {
        assert RemainingIds(|b.remaining|)[i] == x;
      }
  }

  /** What is already behind a cut that contains a runtime, or one of the rest. */
  lemma QueueCut(b: Batch, cut: nat, x: JobId, y: JobId)
    requires cut <= |QueueOrder(b)| && x in QueueOrder(b)[..cut] && y in QueueOrder(b)
    requires (x.RuntimeOf? && y.HandoffOf?) || (x.RemainingOf? && y.RuntimeOf?)
    ensures y in QueueOrder(b)[..cut]
  {
    QueueShape(b);
    var q := QueueOrder(b);
    var j :| 0 <= j < cut && q[..cut][j] == x;
    var k :| 0 <= k < |q| && q[k] == y;
    assert q[j] == x && k < j;
    assert q[..cut][k] == y;
  }

  lemma PrereqsInQueue(b: Batch, g: Graph, x: JobId, y: JobId)
    requires IsPlan(b, g) && x in QueueOrder(b) && y in Prereqs(g, x)
    ensures y in QueueOrder(b)
  {
    PrereqMeaning(b, g, x, y);
    QueueMembers(b, y);
    if x.RuntimeOf? && y.RuntimeOf? {
      LinkedInRange(b, y.r, x.r);
    }
  }

  // ----------------------------------------------------------------- one batch

  ghost predicate Waits(b: Batch, cut: nat, d: nat) {
    cut <= |QueueOrder(b)| && exists p :: Linked(b, p, d) && RuntimeOf(p) !in QueueOrder(b)[..cut]
  }

  /** At any cut, at most the one linked runtime waits for something behind the cut. */
  ghost function BlockedAt(b: Batch, n: Label, cut: nat): set<Id> {
    set d: nat | d < |b.runtime| && Waits(b, cut, d) :: (n, RuntimeOf(d))
  }

  lemma AtMostOneBlocked(b: Batch, n: Label, cut: nat)
    ensures |BlockedAt(b, n, cut)| < 2
  {
    var s := BlockedAt(b, n, cut);
    if x :| x in s {
      forall y | y in s ensures y == x {
        var p, q :| Linked(b, p, x.1.r) && Linked(b, q, y.1.r);
        var f, t :| LinkedBy(b, f, t, p, x.1.r);
        var f', t' :| LinkedBy(b, f', t', q, y.1.r);
        LinkUnique(b, f, t, p, x.1.r, f', t', q, y.1.r);
      }
      assert s == {x};
    }
  }

  lemma BlockedIsClosed(b: Batch, g: Graph, n: Label, cut: nat)
    requires IsPlan(b, g) && cut <= |QueueOrder(b)|
    ensures Closed(WorkOf(n, b, g), cut, BlockedAt(b, n, cut))
  {
    var w, q, s := WorkOf(n, b, g), QueueOrder(b), BlockedAt(b, n, cut);
    assert w.queue[..cut] == Tagged(n, q[..cut]);
    forall x, y | x in w.queue[..cut] && x in w.pre && y in w.pre[x] && (y !in w.queue[..cut] || y in s) ensures x in s {
      TaggedMember(n, q[..cut], x);
      assert x.1 in q && w.pre[x] == Tagged(n, Prereqs(g, x.1));
      BlockedTagged(b, g, n, cut, x, y);
    }
  }

  lemma BlockedTagged(b: Batch, g: Graph, n: Label, cut: nat, x: Id, y: Id)
    requires IsPlan(b, g) && cut <= |QueueOrder(b)|
    requires x.0 == n && x.1 in QueueOrder(b)[..cut] && y in Tagged(n, Prereqs(g, x.1))
    requires y !in Tagged(n, QueueOrder(b)[..cut]) || y in BlockedAt(b, n, cut)
    ensures x in BlockedAt(b, n, cut)
  {
    TaggedMember(n, QueueOrder(b)[..cut], y);
    TaggedMember(n, Prereqs(g, x.1), y);
    BlockedStep(b, g, n, cut, x.1, y.1);
  }

  lemma BlockedStep(b: Batch, g: Graph, n: Label, cut: nat, x: JobId, y: JobId)
    requires IsPlan(b, g) && cut <= |QueueOrder(b)| && x in QueueOrder(b)[..cut] && y in Prereqs(g, x)
    requires y !in QueueOrder(b)[..cut] || (n, y) in BlockedAt(b, n, cut)
    ensures (n, x) in BlockedAt(b, n, cut)
  {
    PrereqMeaning(b, g, x, y);
    PrereqsInQueue(b, g, x, y);
    match x
    case HandoffOf(_) =>
    case RuntimeOf(d) =>
      if y.HandoffOf? {
        QueueCut(b, cut, x, y);
      } else {
        LinkedInRange(b, y.r, d);
        assert Waits(b, cut, d);
      }
    case RemainingOf(i) =>
      QueueCut(b, cut, x, y);
      var p :| Linked(b, p, y.r) && RuntimeOf(p) !in QueueOrder(b)[..cut];
      LinkedInRange(b, p, y.r);
      QueueMembers(b, RuntimeOf(p));
      QueueCut(b, cut, x, RuntimeOf(p));
  }

  ghost function LevelOf(b: Batch): Id -> nat {
    (x: Id) => Level(b, x.1)
  }

  lemma BatchIsGood(n: Label, b: Batch, g: Graph, workers: nat)
    requires IsPlan(b, g) && workers >= 2
    ensures WellFormed(WorkOf(n, b, g)) && Narrow(WorkOf(n, b, g), workers) && Layered(WorkOf(n, b, g), LevelOf(b))
  {
    var w := WorkOf(n, b, g);
    QueueShape(b);
    forall x | x in w.queue ensures x in w.pre && x.0 == n && x.1 in QueueOrder(b) && w.pre[x] == Tagged(n, Prereqs(g, x.1)) {
      TaggedMember(n, QueueOrder(b), x);
    }
    forall x, y | x in w.queue && y in w.pre[x] ensures y in w.queue && Level(b, y.1) < Level(b, x.1) {
      TaggedMember(n, Prereqs(g, x.1), y);
      PrereqsInQueue(b, g, x.1, y.1);
      TaggedMember(n, QueueOrder(b), y);
      PlanIsAcyclic(b, g, x.1, y.1);
    }
    forall cut: nat | cut <= |w.queue| ensures NarrowAt(w, workers, cut) {
      AtMostOneBlocked(b, n, cut);
      BlockedIsClosed(b, g, n, cut);
    }
  }

  // ---------------------------------------------------- producers with many batches

  /** The batches of one producer, in the order it queues them. */
  type Stream = seq<(Batch, Graph)>

  ghost predicate AllPlanned(bs: Stream) {
    forall i :: 0 <= i < |bs| ==> IsPlan(bs[i].0, bs[i].1)
  }

  ghost function NoWork(): Work<Id> {
    Work([], map[])
  }

  /** The first n batches queued one after another. */
  ghost function StreamWork(producer: nat, bs: Stream, n: nat): Work<Id>
    requires n <= |bs|
  {
    if n == 0 then NoWork()
    else Concat(StreamWork(producer, bs, n - 1), WorkOf(Label(producer, n - 1), bs[n - 1].0, bs[n - 1].1))
  }

  ghost function WholeStream(streams: seq<Stream>, producer: nat): Work<Id>
    requires producer < |streams|
  {
    StreamWork(producer, streams[producer], |streams[producer]|)
  }

  /** chain[k] holds the jobs of the first k producers, each producer's in its own order. */
  ghost predicate Chain(streams: seq<Stream>, chain: seq<Work<Id>>) {
    && |chain| == |streams| + 1 && chain[0] == NoWork()
    && forall k :: 0 <= k < |streams| ==> Merged(chain[k], WholeStream(streams, k), chain[k + 1])
  }

  /** w holds the jobs of all producers, each producer's in its own order. */
  ghost predicate Interleaved(streams: seq<Stream>, w: Work<Id>) {
    exists chain :: Chain(streams, chain) && chain[|streams|] == w
  }

  ghost function Levels(streams: seq<Stream>): Id -> nat {
    (x: Id) => if x.0.producer < |streams| && x.0.batch < |streams[x.0.producer]|
               then Level(streams[x.0.producer][x.0.batch].0, x.1) else 0
  }

  lemma NoWorkIsGood(workers: nat, level: Id -> nat)
    requires workers >= 1
    ensures WellFormed(NoWork()) && Narrow(NoWork(), workers) && Layered(NoWork(), level)
  {
    forall cut: nat | cut <= |NoWork().queue| ensures NarrowAt(NoWork(), workers, cut) {
      var none: set<Id> := {};
      assert |none| < workers && Closed(NoWork(), cut, none);
    }
  }

  lemma LayeredAs(w: Work<Id>, level: Id -> nat, other: Id -> nat)
    requires WellFormed(w) && Layered(w, level) && forall x :: x in w.pre ==> level(x) == other(x)
    ensures Layered(w, other)
  {
    forall x, y | x in w.queue && x in w.pre && y in w.pre[x] ensures other(y) < other(x) {
      assert y in w.queue && y in w.pre && level(y) < level(x);
    }
  }

  /** Jobs that two workers can always get through, of the first n batches of one producer. */
  ghost predicate GoodStream(w: Work<Id>, level: Id -> nat, producer: nat, n: nat) {
    && WellFormed(w) && Narrow(w, 2) && Layered(w, level)
    && forall x :: x in w.pre ==> x.0.producer == producer && x.0.batch < n
  }

  lemma LevelsOfBatch(streams: seq<Stream>, producer: nat, n: nat, w: Work<Id>)
    requires producer < |streams| && n < |streams[producer]| && forall x :: x in w.pre ==> x.0 == Label(producer, n)
    ensures forall x :: x in w.pre ==> LevelOf(streams[producer][n].0)(x) == Levels(streams)(x)
  {
  }

  lemma OneMoreBatch(a: Work<Id>, streams: seq<Stream>, producer: nat, n: nat, b: Batch, g: Graph)
    requires producer < |streams| && n < |streams[producer]| && streams[producer][n] == (b, g) && IsPlan(b, g)
    requires GoodStream(a, Levels(streams), producer, n)
    ensures GoodStream(Concat(a, WorkOf(Label(producer, n), b, g)), Levels(streams), producer, n + 1)
  {
    var c := WorkOf(Label(producer, n), b, g);
    BatchIsGood(Label(producer, n), b, g, 2);
    assert Apart(a, c);
    ConcatNarrow(a, c, 2);
    LevelsOfBatch(streams, producer, n, c);
    LayeredAs(c, LevelOf(b), Levels(streams));
    LayeredConcat(a, c, Levels(streams));
  }

  lemma {:induction false} StreamIsGood(streams: seq<Stream>, producer: nat, n: nat)
    requires producer < |streams| && n <= |streams[producer]| && AllPlanned(streams[producer])
    ensures GoodStream(StreamWork(producer, streams[producer], n), Levels(streams), producer, n)
  {
    if n == 0 {
      NoWorkIsGood(2, Levels(streams));
    } else {
      var (b, g) := streams[producer][n - 1];
      StreamIsGood(streams, producer, n - 1);
      OneMoreBatch(StreamWork(producer, streams[producer], n - 1), streams, producer, n - 1, b, g);
    }
  }

  lemma LayeredConcat(a: Work<Id>, c: Work<Id>, level: Id -> nat)
    requires WellFormed(a) && WellFormed(c) && Apart(a, c) && Layered(a, level) && Layered(c, level)
    ensures Layered(Concat(a, c), level)
  {
    var w := Concat(a, c);
    forall x, y | x in w.queue && x in w.pre && y in w.pre[x] ensures level(y) < level(x) {
      if x in a.queue {
        assert w.pre[x] == a.pre[x];
      } else {
        assert x in c.queue && w.pre[x] == c.pre[x];
      }
    }
  }

  /** Jobs of the first k producers that k + 1 workers can always get through. */
  ghost predicate GoodMerge(w: Work<Id>, level: Id -> nat, k: nat) {
    && WellFormed(w) && Narrow(w, k + 1) && Layered(w, level)
    && forall x :: x in w.pre ==> x.0.producer < k
  }

  /** Each producer adds at most one blocked job. */
  lemma OneMoreProducer(before: Work<Id>, own: Work<Id>, w: Work<Id>, k: nat, n: nat, level: Id -> nat)
    requires GoodMerge(before, level, k) && GoodStream(own, level, k, n) && Merged(before, own, w)
    ensures GoodMerge(w, level, k + 1)
  {
    assert Apart(before, own);
    MergedIsWellFormed(before, own, w);
    MergedNarrow(before, own, w, k + 1, 2, k + 2);
    MergedLayered(before, own, w, level);
  }

  lemma ChainStep(streams: seq<Stream>, before: Work<Id>, w: Work<Id>, k: nat)
    requires k < |streams| && AllPlanned(streams[k]) && GoodMerge(before, Levels(streams), k)
    requires Merged(before, WholeStream(streams, k), w)
    ensures GoodMerge(w, Levels(streams), k + 1)
  {
    StreamIsGood(streams, k, |streams[k]|);
    OneMoreProducer(before, WholeStream(streams, k), w, k, |streams[k]|, Levels(streams));
  }

  lemma {:induction false} ChainIsGood(streams: seq<Stream>, chain: seq<Work<Id>>, k: nat)
    requires Chain(streams, chain) && k <= |streams| && forall i :: 0 <= i < |streams| ==> AllPlanned(streams[i])
    ensures GoodMerge(chain[k], Levels(streams), k)
  {
    if k == 0 {
      NoWorkIsGood(1, Levels(streams));
    } else {
      var before := chain[k - 1];
      ChainIsGood(streams, chain, k - 1);
      assert Merged(before, WholeStream(streams, k - 1), chain[k - 1 + 1]);
      ChainStep(streams, before, chain[k], k - 1);
    }
  }

  lemma MoreWorkers(w: Work<Id>, few: nat, many: nat)
    requires Narrow(w, few) && few <= many
    ensures Narrow(w, many)
  {
    forall cut: nat | cut <= |w.queue| ensures NarrowAt(w, many, cut) {
      assert NarrowAt(w, few, cut);
    }
  }

  /**
   However k producers interleave the jobs of their planned batches, k + 1 workers or more
   are never stuck before every job has finished.
   */
  lemma InterleavedBatchesProgress(streams: seq<Stream>, w: Work<Id>, workers: nat, p: Pool<Id>)
    requires (forall i :: 0 <= i < |streams| ==> AllPlanned(streams[i])) && Interleaved(streams, w)
    requires workers > |streams| && Reachable(w, workers, p) && !AllFinished(w, p)
    ensures CanAdvance(w, workers, p)
  {
    var chain :| Chain(streams, chain) && chain[|streams|] == w;
    ChainIsGood(streams, chain, |streams|);
    EnoughWorkers(w, Levels(streams), |streams| + 1, workers, p);
  }

  lemma EnoughWorkers(w: Work<Id>, level: Id -> nat, few: nat, workers: nat, p: Pool<Id>)
    requires WellFormed(w) && Narrow(w, few) && Layered(w, level) && few <= workers
    requires Reachable(w, workers, p) && !AllFinished(w, p)
    ensures CanAdvance(w, workers, p)
  {
    MoreWorkers(w, few, workers);
    NeverStuck(w, workers, p, level);
  }

  /** In particular batches queued one after another need two workers. */
  lemma {:induction false} PlannedBatchesProgress(bs: Stream, workers: nat, p: Pool<Id>)
    requires AllPlanned(bs) && workers >= 2 && Reachable(StreamWork(0, bs, |bs|), workers, p)
    requires !AllFinished(StreamWork(0, bs, |bs|), p)
    ensures CanAdvance(StreamWork(0, bs, |bs|), workers, p)
  {
    StreamIsGood([bs], 0, |bs|);
    EnoughWorkers(StreamWork(0, bs, |bs|), Levels([bs]), 2, workers, p);
  }

  /** Waiting for a later job, said without the batch number. */
  ghost predicate WaitsBehind(b: Batch, g: Graph, j: nat) {
    j < |QueueOrder(b)| && exists y :: y in Prereqs(g, QueueOrder(b)[j]) && y !in QueueOrder(b)[..j]
  }

  lemma Untag(b: Batch, g: Graph, n: Label, j: nat)
    ensures WaitsAhead(WorkOf(n, b, g), j) <==> WaitsBehind(b, g, j)
  {
    var w, q := WorkOf(n, b, g), QueueOrder(b);
    if j < |q| {
      assert q[j] in q && w.queue[j] == (n, q[j]) && w.pre[w.queue[j]] == Tagged(n, Prereqs(g, q[j]));
      assert w.queue[..j] == Tagged(n, q[..j]);
      forall y: Id ensures y in w.pre[w.queue[j]] && y !in w.queue[..j] <==> y.0 == n && y.1 in Prereqs(g, q[j]) && y.1 !in q[..j] {
        TaggedMember(n, Prereqs(g, q[j]), y);
        TaggedMember(n, q[..j], y);
      }
      if y :| y in Prereqs(g, q[j]) && y !in q[..j] {
        assert (n, y) in w.pre[w.queue[j]] && (n, y) !in w.queue[..j];
      }
    }
  }

  lemma {:induction false} RuntimePlace(b: Batch, r: nat, j: nat)
    requires r < |b.runtime| && j <= |QueueOrder(b)|
    ensures var h := |Handoffs(b, |b.remaining|)|;
            h + r < |QueueOrder(b)| && QueueOrder(b)[h + r] == RuntimeOf(r) && (RuntimeOf(r) in QueueOrder(b)[..j] <==> h + r < j)
  {
    QueueShape(b);
    var h := |Handoffs(b, |b.remaining|)|;
    if h + r < j {
      assert QueueOrder(b)[..j][h + r] == RuntimeOf(r);
    }
  }

  lemma {:induction false} AheadOf(b: Batch, g: Graph, p: nat, d: nat)
    requires IsPlan(b, g) && Linked(b, p, d) && d < p
    ensures WaitsBehind(b, g, |Handoffs(b, |b.remaining|)| + d)
  {
    var j := |Handoffs(b, |b.remaining|)| + d;
    LinkedInRange(b, p, d);
    RuntimePlace(b, d, 0);
    RuntimePlace(b, p, j);
    PrereqMeaning(b, g, RuntimeOf(d), RuntimeOf(p));
  }

  lemma BehindIsLinked(b: Batch, g: Graph, j: nat, y: JobId)
    requires IsPlan(b, g) && j < |QueueOrder(b)| && y in Prereqs(g, QueueOrder(b)[j]) && y !in QueueOrder(b)[..j]
    ensures exists p, d :: Linked(b, p, d) && d < p
  {
    var q := QueueOrder(b);
    var x := q[j];
    assert x in q && q[..j + 1] == q[..j] + [x];
    PrereqMeaning(b, g, x, y);
    PrereqsInQueue(b, g, x, y);
    if (x.RuntimeOf? && y.HandoffOf?) || x.RemainingOf? {
      QueueCut(b, j + 1, x, y);
    }
    PlanIsAcyclic(b, g, x, y);
    assert x.RuntimeOf? && y.RuntimeOf?;
    LinkedInRange(b, y.r, x.r);
    RuntimePlace(b, x.r, j);
    RuntimePlace(b, x.r, j + 1);
    RuntimePlace(b, y.r, j);
  }

  lemma SomethingAhead(b: Batch, g: Graph, n: Label)
    requires IsPlan(b, g)
    ensures (exists j: nat :: WaitsAhead(WorkOf(n, b, g), j)) <==> exists p, d :: Linked(b, p, d) && d < p
  {
    if p, d :| Linked(b, p, d) && d < p {
      AheadOf(b, g, p, d);
      Untag(b, g, n, |Handoffs(b, |b.remaining|)| + d);
    }
    if j: nat :| WaitsAhead(WorkOf(n, b, g), j) {
      Untag(b, g, n, j);
      var y :| y in Prereqs(g, QueueOrder(b)[j]) && y !in QueueOrder(b)[..j];
      BehindIsLinked(b, g, j, y);
    }
  }

  /** One worker would get stuck on exactly the batches where a shared runtime waits for a later one. */
  lemma OneWorkerIsNotEnough(b: Batch, g: Graph)
    requires IsPlan(b, g)
    ensures (exists p, d :: Linked(b, p, d) && d < p) <==>
            exists s :: Reachable(WorkOf(ONLY, b, g), 1, s) && !AllFinished(WorkOf(ONLY, b, g), s) && !CanAdvance(WorkOf(ONLY, b, g), 1, s)
  {
    BatchIsGood(ONLY, b, g, 2);
    OneWorkerSticks(WorkOf(ONLY, b, g), LevelOf(b));
    SomethingAhead(b, g, ONLY);
  }

  lemma {:induction false} OneBatchStream(producer: nat, b: Batch, g: Graph)
    ensures StreamWork(producer, [(b, g)], 1) == WorkOf(Label(producer, 0), b, g)
  {
    var w := WorkOf(Label(producer, 0), b, g);
    assert StreamWork(producer, [(b, g)], 0) == NoWork();
    assert NoWork().queue + w.queue == w.queue && NoWork().pre + w.pre == w.pre;
  }

  lemma OnlyProducer(own: Work<Id>)
    ensures Merged(NoWork(), own, own)
  {
    var none: seq<Id> := [];
    AddRight(none, none, none, own.queue);
    assert none + own.queue == own.queue && NoWork().pre + own.pre == own.pre;
  }

  lemma TwoProducers(b: Batch, g: Graph, c: Batch, h: Graph, w: Work<Id>)
    requires Merged(WorkOf(Label(0, 0), b, g), WorkOf(Label(1, 0), c, h), w)
    ensures Interleaved([[(b, g)], [(c, h)]], w)
  {
    var streams := [[(b, g)], [(c, h)]];
    OneBatchStream(0, b, g);
    OneBatchStream(1, c, h);
    OnlyProducer(WorkOf(Label(0, 0), b, g));
    assert Chain(streams, [NoWork(), WorkOf(Label(0, 0), b, g), w]);
  }

  lemma WaitingBatch(b: Batch, g: Graph, n: Label) returns (j: nat)
    requires IsPlan(b, g) && exists p, d :: Linked(b, p, d) && d < p
    ensures WellFormed(WorkOf(n, b, g)) && WaitsAhead(WorkOf(n, b, g), j)
  {
    BatchIsGood(n, b, g, 2);
    SomethingAhead(b, g, n);
    j :| WaitsAhead(WorkOf(n, b, g), j);
  }

  /** Two such batches from two producers can interleave so that two workers get stuck: k + 1 is the least. */
  lemma TwoBatchesStickTwoWorkers(b: Batch, g: Graph, c: Batch, h: Graph)
    requires IsPlan(b, g) && exists p, d :: Linked(b, p, d) && d < p
    requires IsPlan(c, h) && exists p, d :: Linked(c, p, d) && d < p
    ensures exists w, s :: Interleaved([[(b, g)], [(c, h)]], w) && Reachable(w, 2, s) && !AllFinished(w, s) && !CanAdvance(w, 2, s)
  {
    var i := WaitingBatch(b, g, Label(0, 0));
    var j := WaitingBatch(c, h, Label(1, 0));
    var left, right := WorkOf(Label(0, 0), b, g), WorkOf(Label(1, 0), c, h);
    assert Apart(left, right);
    TwoProducersStickTwoWorkers(left, i, right, j);
    var w, s :| Merged(left, right, w) && Reachable(w, 2, s) && !AllFinished(w, s) && !CanAdvance(w, 2, s);
    TwoProducers(b, g, c, h, w);
  }

  // ------------------------------------------------------------- one such batch

  function SyncJob(t: ForwardType): PlanJob {
    PlanJob(PlanAction(true, true, t, NO_TYPE, 0, 0, 0, Tcp, None),
            Snapshot(false, false, 0, 0, NO_TYPE, None, false), NO_TYPE, false)
  }

  /** Rule 1 moves port 80 from nginx to gost. */
  const MOVED := PlanJob(PlanAction(true, false, Gost, NO_TYPE, 80, 1, 0, Tcp, None),
                         Snapshot(true, false, 1, 0, Nginx, Some(Tcp), true), NO_TYPE, false)

  const MOVE_JOBS := [SyncJob(GostSync), SyncJob(NginxSync), MOVED]
  const MOVE_BATCH := Batch([SyncJob(GostSync).action, SyncJob(NginxSync).action], [MemberOf(MOVED)])

  /** Gost, queued first, waits for nginx, queued second. */
  lemma {:induction false} GostWaitsForNginx()
    ensures SplitJobs(MOVE_JOBS) == MOVE_BATCH && Linked(MOVE_BATCH, 1, 0)
  {
    var b := MOVE_BATCH;
    assert MOVE_JOBS[..2][..1][..0] == [] && MOVE_JOBS[..2][..1] == [SyncJob(GostSync)] && MOVE_JOBS[..2][..1][0] == SyncJob(GostSync);
    assert SplitJobs(MOVE_JOBS[..2][..1]) == Batch([SyncJob(GostSync).action], []);
    assert SplitJobs(MOVE_JOBS[..2]) == Batch(b.runtime, []);
    assert MovesOwner(b.remaining[0], NginxSync, GostSync);
    assert b.runtime[..1] == [b.runtime[0]];
    assert LinkedBy(b, NginxSync, GostSync, 1, 0);
  }

  /** That batch alone gets one worker stuck, and two producers with it get two workers stuck. */
  lemma MoveSticks(g: Graph)
    requires IsPlan(MOVE_BATCH, g)
    ensures exists s :: && Reachable(WorkOf(ONLY, MOVE_BATCH, g), 1, s) && !AllFinished(WorkOf(ONLY, MOVE_BATCH, g), s)
                        && !CanAdvance(WorkOf(ONLY, MOVE_BATCH, g), 1, s)
    ensures exists w, s :: && Interleaved([[(MOVE_BATCH, g)], [(MOVE_BATCH, g)]], w)
                           && Reachable(w, 2, s) && !AllFinished(w, s) && !CanAdvance(w, 2, s)
  {
    GostWaitsForNginx();
    OneWorkerIsNotEnough(MOVE_BATCH, g);
    TwoBatchesStickTwoWorkers(MOVE_BATCH, g, MOVE_BATCH, g);
  }
}
