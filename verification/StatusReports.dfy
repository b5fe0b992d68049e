/**
 The action status queue (agent/action_status.go): one pending report per key in
 arrival order, superseded by issue time, taken in batches by a single reporter and
 put back in front when sending fails.
 */
module StatusReports {
  import opened Options

  type Key = string
  datatype Report = Report(key: Key, issuedAt: int, body: nat)

  datatype Queue = Queue(pending: map<Key, Report>, order: seq<Key>, latest: map<Key, int>)

  const EMPTY := Queue(map[], [], map[])

  function Latest(q: Queue, k: Key): int {
    if k in q.latest then q.latest[k] else 0
  }

  /** A report older than the latest issue time of its key is obsolete. */
  predicate Obsolete(q: Queue, r: Report) {
    Latest(q, r.key) > 0 && (r.issuedAt <= 0 || r.issuedAt < Latest(q, r.key))
  }

  function Enqueued(q: Queue, r: Report): Queue {
    if Obsolete(q, r) then q
    else Queue(
           q.pending[r.key := r],
           if r.key in q.pending then q.order else q.order + [r.key],
           if r.issuedAt > Latest(q, r.key) then q.latest[r.key := r.issuedAt] else q.latest)
  }

  ghost predicate NoRepeats(s: seq<Key>) {
    forall i, j :: 0 <= i < j < |s| ==> s[i] != s[j]
  }

  /** The order list and the pending map hold the same keys, each once, and reports carry their key's latest issue time. */
  ghost predicate Valid(q: Queue) {
    && NoRepeats(q.order)
    && (forall k :: k in q.pending <==> k in q.order)
    && (forall k :: k in q.pending ==> q.pending[k].key == k && Current(q, q.pending[k]))
    && (forall k :: k in q.latest ==> q.latest[k] > 0)
  }

  /** The report carries its key's latest issue time, or its key has none. */
  predicate Current(q: Queue, r: Report) {
    if Latest(q, r.key) > 0 then r.issuedAt == Latest(q, r.key) else r.issuedAt <= 0
  }

  function KeysIn(s: seq<Key>): set<Key> {
    set k | k in s
  }

  /** The reports of the first n keys, oldest first. */
  function FirstReports(q: Queue, n: nat): seq<Report>
    requires n <= |q.order| && forall i :: 0 <= i < n ==> q.order[i] in q.pending
  {
    seq(n, i requires 0 <= i < n => q.pending[q.order[i]])
  }

  function Taken(q: Queue, n: nat): Queue
    requires n <= |q.order|
  {
    q.(pending := q.pending - KeysIn(q.order[..n]), order := q.order[n..])
  }

  lemma TakeStep(q: Queue, n: nat)
    requires Valid(q) && n < |q.order|
    ensures var k, left := q.order[n], q.pending - KeysIn(q.order[..n]);
            && k in left && left[k] == q.pending[k] && left - {k} == q.pending - KeysIn(q.order[..n + 1])
            && FirstReports(q, n + 1) == FirstReports(q, n) + [q.pending[k]]
  {
    assert q.order[..n + 1] == q.order[..n] + [q.order[n]];
    assert q.order[n] !in q.order[..n];
  }

  function RestoredOne(q: Queue, r: Report): Queue {
    if Obsolete(q, r) || r.key in q.pending then q
    else q.(pending := q.pending[r.key := r], order := [r.key] + q.order)
  }

  /** Newest first, each put in front: the batch ends up ahead of everything else, in its own order. */
  function Restored(q: Queue, reports: seq<Report>): Queue
    decreases |reports|
  {
    if reports == [] then q else Restored(RestoredOne(q, reports[|reports| - 1]), reports[..|reports| - 1])
  }

  // ------------------------------------------------------------ the imperative form

  class StatusQueue {
    var pending: map<Key, Report>
    var order: seq<Key>
    var latest: map<Key, int>

    ghost function Value(): Queue
      reads this
    {
      Queue(pending, order, latest)
    }

    constructor ()
      ensures Value() == EMPTY
    {
      pending, order, latest := map[], [], map[];
    }

    method Enqueue(r: Report)
      modifies this
      ensures Value() == Enqueued(old(Value()), r)
    {
      var latestIssuedAt := if r.key in latest then latest[r.key] else 0;
      if latestIssuedAt > 0 && (r.issuedAt <= 0 || r.issuedAt < latestIssuedAt) {
        return;
      }
      if r.issuedAt > latestIssuedAt {
        latest := latest[r.key := r.issuedAt];
      }
      if r.key !in pending {
        order := order + [r.key];
      }
      pending := pending[r.key := r];
    }

    method Take(limit: nat) returns (reports: seq<Report>)
      requires Valid(Value())
      modifies this
      ensures var n := if limit < |old(order)| then limit else |old(order)|;
              reports == FirstReports(old(Value()), n) && Value() == Taken(old(Value()), n)
    {
      reports := [];
      var consumed := 0;
      var n := if limit < |order| then limit else |order|;
      while consumed < |order| && |reports| < n
        invariant order == old(order) && latest == old(latest)
        invariant consumed == |reports| <= n <= |order|
        invariant reports == FirstReports(old(Value()), consumed)
        invariant pending == old(pending) - KeysIn(order[..consumed])
      {
        var key := order[consumed];
        TakeStep(old(Value()), consumed);
        consumed := consumed + 1;
        if key in pending {
          reports := reports + [pending[key]];
          pending := pending - {key};
        }
      }
      order := order[consumed..];
    }

    method Restore(reports: seq<Report>)
      modifies this
      ensures Value() == Restored(old(Value()), reports)
    {
      var toRestore: seq<Key> := [];
      ghost var front: seq<Key> := [];
      var index := |reports|;
      assert reports[..index] == reports && front + order == order;
      while index > 0
        invariant 0 <= index <= |reports| && latest == old(latest) && order == old(order)
        invariant front == Reversed(toRestore)
        invariant Restored(Queue(pending, front + order, latest), reports[..index]) == Restored(old(Value()), reports)
      {
        index := index - 1;
        var r := reports[index];
        RestoreRound(Queue(pending, front + order, latest), reports, index);
        var latestIssuedAt := if r.key in latest then latest[r.key] else 0;
        if latestIssuedAt > 0 && (r.issuedAt <= 0 || r.issuedAt < latestIssuedAt) {
          continue;
        }
        if r.key in pending {
          continue;
        }
        pending := pending[r.key := r];
        FrontGrows(toRestore, front, order, r.key);
        toRestore := toRestore + [r.key];
        front := [r.key] + front;
      }
      toRestore := Reverse(toRestore);
      order := toRestore + order;
    }
  }

  /** One round of the restoring loop. */
  lemma {:induction false} RestoreRound(q: Queue, reports: seq<Report>, index: nat)
    requires index < |reports|
    ensures Restored(q, reports[..index + 1]) == Restored(RestoredOne(q, reports[index]), reports[..index])
  {
    assert reports[..index + 1][..index] == reports[..index];
  }

  lemma {:induction false} FrontGrows(back: seq<Key>, front: seq<Key>, order: seq<Key>, k: Key)
    requires front == Reversed(back)
    ensures [k] + front == Reversed(back + [k]) && ([k] + front) + order == [k] + (front + order)
  {
    ReversedSnoc(back, k);
  }

  function Reversed(s: seq<Key>): seq<Key> {
    if s == [] then [] else Reversed(s[1..]) + [s[0]]
  }

  lemma {:induction false} ReversedSnoc(s: seq<Key>, k: Key)
    ensures Reversed(s + [k]) == [k] + Reversed(s)
  {
    if s == [] {
      assert s + [k] == [k];
    } else {
      assert (s + [k])[1..] == s[1..] + [k] && (s + [k])[0] == s[0];
      ReversedSnoc(s[1..], k);
    }
  }

  lemma {:induction false} ReversedAt(s: seq<Key>)
    ensures |Reversed(s)| == |s| && forall i :: 0 <= i < |s| ==> Reversed(s)[i] == s[|s| - 1 - i]
  {
    if s != [] {
      ReversedAt(s[1..]);
    }
  }

  /** The swap loop of restoreActionStatusReports. */
  method Reverse(s: seq<Key>) returns (r: seq<Key>)
    ensures r == Reversed(s)
  {
    r := s;
    var i, j := 0, |s| - 1;
    while i < j
      invariant 0 <= i <= j + 1 && i + j == |s| - 1 && |r| == |s|
      invariant forall k :: 0 <= k < i || j < k < |s| ==> r[k] == s[|s| - 1 - k]
      invariant forall k :: i <= k <= j ==> r[k] == s[k]
    {
      r := r[i := r[j]][j := r[i]];
      i, j := i + 1, j - 1;
    }
    ReversedAt(s);
  }

  // ----------------------------------------------------------- the queue by itself

  lemma EnqueueValid(q: Queue, r: Report)
    requires Valid(q)
    ensures Valid(Enqueued(q, r))
  {
  }

  lemma TakeValid(q: Queue, n: nat)
    requires Valid(q) && n <= |q.order|
    ensures Valid(Taken(q, n))
  {
    var q' := Taken(q, n);
    assert q.order == q.order[..n] + q.order[n..];
    forall k ensures k in q'.pending <==> k in q'.order {
      assert k in q.order <==> k in q.order[..n] || k in q.order[n..];
    }
  }

  lemma RestoreOneValid(q: Queue, r: Report)
    requires Valid(q) && (!Obsolete(q, r) ==> Current(q, r))
    ensures Valid(RestoredOne(q, r)) && RestoredOne(q, r).latest == q.latest
  {
  }

  lemma UntakeOne(q: Queue, n: nat)
    requires Valid(q) && n < |q.order|
    ensures RestoredOne(Taken(q, n + 1), q.pending[q.order[n]]) == Taken(q, n)
  {
    var k := q.order[n];
    TakeStep(q, n);
    assert [k] + q.order[n + 1..] == q.order[n..];
    assert k !in Taken(q, n + 1).pending;
    assert Taken(q, n + 1).pending[k := q.pending[k]] == Taken(q, n).pending;
  }

  lemma {:induction false} RestoredSnoc(q: Queue, reports: seq<Report>, r: Report)
    ensures Restored(q, reports + [r]) == Restored(RestoredOne(q, r), reports)
  {
    assert (reports + [r])[..|reports|] == reports;
  }

  /** The queue with its first n reports taken, and those reports. */
  ghost predicate Split(q: Queue, n: nat, left: Queue, batch: seq<Report>) {
    n <= |q.order| && (forall i :: 0 <= i < n ==> q.order[i] in q.pending) && left == Taken(q, n) && batch == FirstReports(q, n)
  }

  lemma SplitStep(q: Queue, n: nat) returns (left: Queue, batch: seq<Report>, r: Report)
    requires Valid(q) && n < |q.order|
    ensures Split(q, n, RestoredOne(left, r), batch) && Split(q, n + 1, left, batch + [r])
  {
    left, batch, r := Taken(q, n + 1), FirstReports(q, n), q.pending[q.order[n]];
    UntakeOne(q, n);
    TakeStep(q, n);
  }

  lemma SplitUnique(q: Queue, n: nat, left: Queue, batch: seq<Report>, left2: Queue, batch2: seq<Report>)
    requires Split(q, n, left, batch) && Split(q, n, left2, batch2)
    ensures left == left2 && batch == batch2
  {
  }

  lemma {:induction false} SplitThenRestore(q: Queue, n: nat, left: Queue, batch: seq<Report>)
    requires Valid(q) && Split(q, n, left, batch)
    ensures Restored(left, batch) == q
  {
    if n == 0 {
      assert q.order[..0] == [] && Taken(q, 0) == q;
    } else {
      var left', batch', r := SplitStep(q, n - 1);
      SplitUnique(q, n, left, batch, left', batch' + [r]);
      RestoredSnoc(left', batch', r);
      SplitThenRestore(q, n - 1, RestoredOne(left', r), batch');
    }
  }

  /** Taking a batch and putting it straight back changes nothing. */
  lemma TakeThenRestore(q: Queue, n: nat)
    requires Valid(q) && n <= |q.order|
    ensures Restored(Taken(q, n), FirstReports(q, n)) == q
  {
    SplitThenRestore(q, n, Taken(q, n), FirstReports(q, n));
  }

  // -------------------------------------------------------- producers and reporter

  /** `newest` is the last accepted report of each key, `delivered` what has reached the panel. */
  datatype Sys = Sys(q: Queue, inflight: seq<Report>, delivered: set<Report>, newest: map<Key, Report>)

  datatype Step =
    | Enqueue(r: Report)
    | Take(limit: nat)
    | SendOk
    | SendFail(sent: set<Report>)  // some of the batch may have got through

  predicate Enabled(s: Sys, c: Step) {
    match c
    case Enqueue(_) => true
    case Take(_) => s.inflight == [] && forall k :: k in s.q.order ==> k in s.q.pending
    case SendOk => s.inflight != []
    case SendFail(sent) => s.inflight != [] && forall r :: r in sent ==> r in s.inflight
  }

  function Do(s: Sys, c: Step): Sys
    requires Enabled(s, c)
  {
    match c
    case Enqueue(r) => s.(q := Enqueued(s.q, r), newest := if Obsolete(s.q, r) then s.newest else s.newest[r.key := r])
    case Take(limit) =>
      var n := if limit < |s.q.order| then limit else |s.q.order|;
      s.(q := Taken(s.q, n), inflight := FirstReports(s.q, n))
    case SendOk => s.(inflight := [], delivered := s.delivered + set r | r in s.inflight)
    case SendFail(sent) => s.(q := Restored(s.q, s.inflight), inflight := [], delivered := s.delivered + sent)
  }

  function Exec(steps: seq<Step>): Option<Sys> {
    if steps == [] then Some(Sys(EMPTY, [], {}, map[]))
    else
      var before := Exec(steps[..|steps| - 1]);
      if before.None? || !Enabled(before.value, steps[|steps| - 1]) then None
      else Some(Do(before.value, steps[|steps| - 1]))
  }

  /** The newest accepted report of k is waiting, on its way or has arrived. */
  ghost predicate Safe(s: Sys, k: Key) {
    k in s.newest ==>
      || (k in s.q.pending && s.q.pending[k] == s.newest[k])
      || s.newest[k] in s.inflight
      || s.newest[k] in s.delivered
  }

  ghost predicate InflightOk(s: Sys) {
    && (forall i, j :: 0 <= i < j < |s.inflight| ==> s.inflight[i].key != s.inflight[j].key)
    && (forall i :: 0 <= i < |s.inflight| ==>
          var r := s.inflight[i];
          r.key in s.newest && (r.key !in s.q.pending ==> s.newest[r.key] == r))
  }

  ghost predicate NewestOk(s: Sys) {
    && (forall k :: k in s.q.pending ==> k in s.newest && s.q.pending[k] == s.newest[k])
    && (forall k :: k in s.newest ==> s.newest[k].key == k && Current(s.q, s.newest[k]))
  }

  ghost predicate Inv(s: Sys) {
    Valid(s.q) && InflightOk(s) && NewestOk(s) && forall k :: Safe(s, k)
  }

  /** Putting a batch back keeps the queue valid, adds exactly the keys with nothing newer waiting, and touches no other. */
  lemma {:induction false} RestoredProps(q: Queue, reports: seq<Report>)
    requires Valid(q) && Restorable(q, reports)
    ensures Valid(Restored(q, reports)) && PutBack(q, reports, Restored(q, reports))
    decreases |reports|
  {
    if reports != [] {
      var n := |reports| - 1;
      RestorableStep(q, reports);
      RestoredProps(RestoredOne(q, reports[n]), reports[..n]);
      RestoreRound(q, reports, n);
      assert reports[..n + 1] == reports && reports == reports[..n] + [reports[n]];
      PutBackOne(q, RestoredOne(q, reports[n]), reports[..n], reports[n], Restored(q, reports));
    }
  }

  /** Reports with distinct keys, current unless something newer waits. */
  ghost predicate Restorable(q: Queue, reports: seq<Report>) {
    && (forall i :: 0 <= i < |reports| ==> (reports[i].key !in q.pending ==> Current(q, reports[i])))
    && (forall i, j :: 0 <= i < j < |reports| ==> reports[i].key != reports[j].key)
  }

  lemma RestorableStep(q: Queue, reports: seq<Report>)
    requires Valid(q) && Restorable(q, reports) && reports != []
    ensures var q1, init, last := RestoredOne(q, reports[|reports| - 1]), reports[..|reports| - 1], reports[|reports| - 1];
            && Valid(q1) && Restorable(q1, init)
            && (last.key !in q.pending ==> !Obsolete(q, last))
            && forall x :: x in init ==> x.key != last.key
  {
    if reports[|reports| - 1].key !in q.pending {
      RestoreOneValid(q, reports[|reports| - 1]);
    }
  }

  /** `r` is `q` with exactly the reports of `reports` added whose key had nothing waiting. */
  ghost predicate PutBack(q: Queue, reports: seq<Report>, r: Queue) {
    && r.latest == q.latest
    && (forall k :: k in q.pending ==> k in r.pending && r.pending[k] == q.pending[k])
    && (forall x :: x in reports && x.key !in q.pending ==> x.key in r.pending && r.pending[x.key] == x)
    && (forall k :: k in r.pending && k !in q.pending ==> r.pending[k] in reports && r.pending[k].key == k)
  }

  lemma PutBackOne(q: Queue, q1: Queue, init: seq<Report>, last: Report, r: Queue)
    requires q1 == RestoredOne(q, last) && PutBack(q1, init, r) && (last.key !in q.pending ==> !Obsolete(q, last))
    requires forall x :: x in init ==> x.key != last.key
    ensures PutBack(q, init + [last], r)
  {
  }

  lemma EnqueueInv(s: Sys, r: Report)
    requires Inv(s)
    ensures Inv(Do(s, Enqueue(r)))
  {
    var s' := Do(s, Enqueue(r));
    EnqueueValid(s.q, r);
    forall k ensures Safe(s', k) {
      assert Safe(s, k);
    }
  }

  lemma TakeInv(s: Sys, limit: nat)
    requires Inv(s) && Enabled(s, Take(limit))
    ensures Inv(Do(s, Take(limit)))
  {
    var s' := Do(s, Take(limit));
    var n := |s'.inflight|;
    TakeValid(s.q, n);
    assert s.q.order == s.q.order[..n] + s.q.order[n..];
    forall i | 0 <= i < n ensures s'.inflight[i] == s.q.pending[s.q.order[i]] && s'.inflight[i].key == s.q.order[i] {
      assert s.q.order[i] in s.q.order;
    }
    forall k ensures Safe(s', k) {
      assert Safe(s, k);
      if k in s.q.pending && k !in s'.q.pending {
        assert k in s.q.order[..n];
        var i :| 0 <= i < n && s.q.order[i] == k;
        assert s'.inflight[i] == s.newest[k];
      }
    }
  }

  lemma SendFailInv(s: Sys, sent: set<Report>)
    requires Inv(s) && Enabled(s, SendFail(sent))
    ensures Inv(Do(s, SendFail(sent)))
  {
    var s' := Do(s, SendFail(sent));
    RestoredProps(s.q, s.inflight);
    forall x | x in s.inflight ensures x.key in s.newest && (x.key !in s.q.pending ==> s.newest[x.key] == x) {
    }
    forall k ensures Safe(s', k) {
      assert Safe(s, k);
    }
  }

  lemma InvStep(s: Sys, c: Step)
    requires Inv(s) && Enabled(s, c)
    ensures Inv(Do(s, c))
  {
    match c
    case Enqueue(r) => EnqueueInv(s, r);
    case Take(limit) => TakeInv(s, limit);
    case SendOk =>
      forall k ensures Safe(Do(s, c), k) {
        assert Safe(s, k);
      }
    case SendFail(sent) => SendFailInv(s, sent);
  }

  lemma {:induction false} InvRun(steps: seq<Step>)
    requires Exec(steps).Some?
    ensures Inv(Exec(steps).value)
  {
    if steps != [] {
      InvRun(steps[..|steps| - 1]);
      InvStep(Exec(steps[..|steps| - 1]).value, steps[|steps| - 1]);
    }
  }

  /**
   In every interleaving of producers with the reporter: the order list and the
   pending map agree key by key, every pending report carries its key's latest
   issue time, and the newest accepted report of each key is never lost.
   */
  lemma {:induction false} NothingNewestIsLost(steps: seq<Step>, s: Sys)
    requires Exec(steps) == Some(s)
    ensures Valid(s.q) && forall k :: Safe(s, k)
    ensures forall k :: k in s.q.pending ==> k in s.newest && s.q.pending[k] == s.newest[k]
    ensures s.q.pending == map[] && s.inflight == [] ==> forall k :: k in s.newest ==> s.newest[k] in s.delivered
  {
    InvRun(steps);
    if s.q.pending == map[] && s.inflight == [] {
      forall k | k in s.newest ensures s.newest[k] in s.delivered {
        assert Safe(s, k);
      }
    }
  }

  /** A report is dropped exactly if one of its key with a later, positive issue time has come in. */
  ghost predicate Outdated(steps: seq<Step>, r: Report) {
    exists i :: 0 <= i < |steps| && steps[i].Enqueue? && steps[i].r.key == r.key && steps[i].r.issuedAt > 0 && r.issuedAt < steps[i].r.issuedAt
  }

  lemma {:induction false} OutdatedSnoc(steps: seq<Step>, r: Report)
    requires steps != []
    ensures var n := |steps| - 1; var c := steps[n];
            Outdated(steps, r) <==>
              Outdated(steps[..n], r) || (c.Enqueue? && c.r.key == r.key && c.r.issuedAt > 0 && r.issuedAt < c.r.issuedAt)
  {
    var n := |steps| - 1;
    if i :| 0 <= i < n && steps[..n][i].Enqueue? && steps[..n][i].r.key == r.key && steps[..n][i].r.issuedAt > 0 && r.issuedAt < steps[..n][i].r.issuedAt {
      assert steps[i] == steps[..n][i];
    }
    if i :| 0 <= i < |steps| && steps[i].Enqueue? && steps[i].r.key == r.key && steps[i].r.issuedAt > 0 && r.issuedAt < steps[i].r.issuedAt {
      assert i < n ==> steps[..n][i] == steps[i];
    }
  }

  lemma {:induction false} LatestKept(q: Queue, reports: seq<Report>)
    ensures Restored(q, reports).latest == q.latest
    decreases |reports|
  {
    if reports != [] {
      LatestKept(RestoredOne(q, reports[|reports| - 1]), reports[..|reports| - 1]);
    }
  }

  lemma {:induction false} ObsoleteMeaning(steps: seq<Step>, s: Sys, r: Report)
    requires Exec(steps) == Some(s)
    ensures Obsolete(s.q, r) <==> Outdated(steps, r)
  {
    if steps != [] {
      var n := |steps| - 1;
      var before, c := Exec(steps[..n]).value, steps[n];
      ObsoleteMeaning(steps[..n], before, r);
      OutdatedSnoc(steps, r);
      if c.SendFail? {
        LatestKept(before.q, before.inflight);
      }
      if c.Enqueue? {
        ObsoleteMeaning(steps[..n], before, c.r);
      }
    }
  }

  lemma {:induction false} ExecSnoc(steps: seq<Step>, s: Sys, c: Step)
    requires Exec(steps) == Some(s) && Enabled(s, c)
    ensures Exec(steps + [c]) == Some(Do(s, c))
  {
    assert (steps + [c])[..|steps|] == steps;
  }

  /** One batch taken and sent. */
  lemma {:induction false} SendAll(steps: seq<Step>, s: Sys) returns (more: seq<Step>, s': Sys)
    requires Exec(steps) == Some(s) && s.inflight == []
    ensures Exec(more) == Some(s') && s'.newest == s.newest && s.delivered <= s'.delivered
    ensures forall k :: k in s.q.pending ==> s.q.pending[k] in s'.delivered
  {
    InvRun(steps);
    if s.q.order == [] {
      more, s' := steps, s;
    } else {
      var take := Take(|s.q.order|);
      ExecSnoc(steps, s, take);
      var s1 := Do(s, take);
      ExecSnoc(steps + [take], s1, SendOk);
      more, s' := steps + [take] + [SendOk], Do(s1, SendOk);
      forall k | k in s.q.pending ensures s.q.pending[k] in s'.delivered {
        var i :| 0 <= i < |s.q.order| && s.q.order[i] == k;
        assert s1.inflight[i] == s.q.pending[k] && s1.inflight[i] in s1.inflight;
      }
    }
  }

  /** From every reachable state the newest report of a key can still be delivered, without any new report. */
  lemma {:induction false} NewestCanArrive(steps: seq<Step>, s: Sys, k: Key) returns (more: seq<Step>, s': Sys)
    requires Exec(steps) == Some(s) && k in s.newest
    ensures Exec(more) == Some(s') && s'.newest == s.newest && s.newest[k] in s'.delivered
  {
    InvRun(steps);
    assert Safe(s, k);
    var steps1, s1 := steps, s;
    if s.inflight != [] {
      ExecSnoc(steps, s, SendOk);
      steps1, s1 := steps + [SendOk], Do(s, SendOk);
    }
    more, s' := SendAll(steps1, s1);
  }

  /** A batch is the oldest keys' reports, which then wait no longer; all others wait as before. */
  lemma TakeMeaning(s: Sys, limit: nat)
    requires Valid(s.q) && Enabled(s, Take(limit))
    ensures var s', n := Do(s, Take(limit)), |Do(s, Take(limit)).inflight|;
            && n == (if limit < |s.q.order| then limit else |s.q.order|) && s'.q.order == s.q.order[n..]
            && (forall i :: 0 <= i < n ==> s'.inflight[i] == s.q.pending[s.q.order[i]] && s.q.order[i] !in s'.q.pending)
            && (forall i :: n <= i < |s.q.order| ==> s.q.order[i] in s'.q.pending && s'.q.pending[s.q.order[i]] == s.q.pending[s.q.order[i]])
            && s'.delivered == s.delivered && s'.newest == s.newest && s'.q.latest == s.q.latest
  {
    var n := |Do(s, Take(limit)).inflight|;
    assert forall i :: n <= i < |s.q.order| ==> s.q.order[i] !in KeysIn(s.q.order[..n]);
  }

  /** What was sent has arrived; a failed batch is put back, whatever part of it has arrived. */
  lemma SentMeaning(s: Sys, sent: set<Report>)
    requires Enabled(s, SendFail(sent))
    ensures var ok, failed := Do(s, SendOk), Do(s, SendFail(sent));
            && ok.q == s.q && ok.inflight == [] && (forall r :: r in ok.delivered <==> r in s.delivered || r in s.inflight)
            && failed.q == Restored(s.q, s.inflight) && failed.inflight == [] && failed.delivered == s.delivered + sent
            && ok.newest == failed.newest == s.newest
  {
  }
}
