/**
 The coalescing ingress queue (agent/actions.go, actionIngressBuffer): a slice of
 items with a moving head, lazily deleted items and a map from queue identity to
 the live item. It is proved to be an ordered queue with one job per identity.
 */
module Ingress {
  import opened ActionKeys
  import opened Options

  datatype QueueKey = QueueKey(handoff: bool, identity: seq<StaleKey>)

  /** An action without any stale key has no identity and is never replaced. */
  function QueueKeyOf(a: Action): Option<QueueKey> {
    var identity := StaleKeys(a);
    if |identity| == 0 then None else Some(QueueKey(a.handoffOnly, identity))
  }

  /** An item of the queue: a job with the key computed when it is pushed; `tag` stands for everything else. */
  datatype Job = Job(key: Option<QueueKey>, action: Action, tag: nat)

  function JobOf(a: Action, tag: nat): Job {
    Job(QueueKeyOf(a), a, tag)
  }

  predicate Keyed(j: Job) {
    j.key == QueueKeyOf(j.action)
  }

  /** A later job takes the place of a waiting one: the same keys to compete for, at least one, in the same phase. */
  predicate Rivals(a: Action, b: Action) {
    StaleKeys(a) == StaleKeys(b) && StaleKeys(a) != [] && a.handoffOnly == b.handoffOnly
  }

  /** The jobs whose actions `a` is no rival of, in order. */
  function WithoutRivals(q: seq<Job>, a: Action): seq<Job> {
    if q == [] then []
    else (if Rivals(q[0].action, a) then [] else [q[0]]) + WithoutRivals(q[1..], a)
  }

  // ------------------------------------------------------------- ordered queue

  predicate Same(j: Job, k: Option<QueueKey>) {
    k.Some? && j.key == k
  }

  /** The jobs of `q` that `k` does not replace, in order. */
  function Without(q: seq<Job>, k: Option<QueueKey>): seq<Job> {
    if q == [] then []
    else (if Same(q[0], k) then [] else [q[0]]) + Without(q[1..], k)
  }

  /** The jobs of `q` that `k` replaces, in order. */
  function Only(q: seq<Job>, k: Option<QueueKey>): seq<Job> {
    if q == [] then []
    else (if Same(q[0], k) then [q[0]] else []) + Only(q[1..], k)
  }

  /** No identity occurs twice. */
  predicate UniqueKeys(q: seq<Job>) {
    q == [] || (Only(q[1..], q[0].key) == [] && UniqueKeys(q[1..]))
  }

  datatype Op = Push(job: Job) | Pop | Reset

  /** What is waiting, what has left and how, and what was pushed. */
  datatype Queue = Queue(live: seq<Job>, popped: seq<Job>, replaced: seq<Job>, cleared: seq<Job>, pushed: seq<Job>)

  function Apply(q: Queue, op: Op): Queue {
    match op
    case Push(j) => q.(live := Without(q.live, j.key) + [j], replaced := q.replaced + Only(q.live, j.key), pushed := q.pushed + [j])
    case Pop => if q.live == [] then q else q.(live := q.live[1..], popped := q.popped + [q.live[0]])
    case Reset => q.(live := [], cleared := q.cleared + q.live)
  }

  function Run(ops: seq<Op>): Queue {
    if ops == [] then Queue([], [], [], [], [])
    else Apply(Run(ops[..|ops| - 1]), ops[|ops| - 1])
  }

  lemma {:induction false} WithoutOnly(q: seq<Job>, k: Option<QueueKey>)
    ensures multiset(q) == multiset(Without(q, k)) + multiset(Only(q, k))
  {
    if q != [] {
      assert q == [q[0]] + q[1..];
      WithoutOnly(q[1..], k);
    }
  }

  lemma {:induction false} WithoutConcat(a: seq<Job>, b: seq<Job>, k: Option<QueueKey>)
    ensures Without(a + b, k) == Without(a, k) + Without(b, k)
    ensures Only(a + b, k) == Only(a, k) + Only(b, k)
  {
    if a == [] {
      assert a + b == b;
    } else {
      assert (a + b)[0] == a[0] && (a + b)[1..] == a[1..] + b;
      WithoutConcat(a[1..], b, k);
      Assoc(if Same(a[0], k) then [] else [a[0]], Without(a[1..], k), Without(b, k));
      Assoc(if Same(a[0], k) then [a[0]] else [], Only(a[1..], k), Only(b, k));
    }
  }

  lemma Assoc<T>(a: seq<T>, b: seq<T>, c: seq<T>)
    ensures a + (b + c) == (a + b) + c
  {
  }

  lemma {:induction false} OnlyOfWithout(q: seq<Job>, k: Option<QueueKey>, l: Option<QueueKey>)
    requires Only(q, l) == []
    ensures Only(Without(q, k), l) == []
  {
    if q != [] {
      OnlyOfWithout(q[1..], k, l);
      WithoutConcat(if Same(q[0], k) then [] else [q[0]], Without(q[1..], k), l);
    }
  }

  lemma {:induction false} WithoutUnique(q: seq<Job>, k: Option<QueueKey>)
    requires UniqueKeys(q)
    ensures UniqueKeys(Without(q, k)) && |Only(q, k)| <= 1
  {
    if q != [] {
      WithoutUnique(q[1..], k);
      OnlyOfWithout(q[1..], k, q[0].key);
      if Same(q[0], k) {
        assert Without(q, k) == Without(q[1..], k);
      } else {
        assert Without(q, k)[1..] == Without(q[1..], k);
      }
    }
  }

  lemma {:induction false} AppendUnique(q: seq<Job>, j: Job)
    requires UniqueKeys(q) && Only(q, j.key) == []
    ensures UniqueKeys(q + [j])
  {
    if q == [] {
      assert q + [j] == [j];
    } else {
      assert (q + [j])[1..] == q[1..] + [j];
      AppendUnique(q[1..], j);
      WithoutConcat(q[1..], [j], q[0].key);
    }
  }

  lemma {:induction false} OnlyGone(q: seq<Job>, k: Option<QueueKey>)
    ensures Only(Without(q, k), k) == []
  {
    if q != [] {
      OnlyGone(q[1..], k);
      WithoutConcat(if Same(q[0], k) then [] else [q[0]], Without(q[1..], k), k);
    }
  }

  /** At every moment each identity waits at most once, and a push replaces at most one job. */
  lemma {:induction false} KeysStayUnique(ops: seq<Op>)
    ensures UniqueKeys(Run(ops).live)
    ensures forall k :: |Only(Run(ops).live, k)| <= 1
  {
    if ops != [] {
      var q := Run(ops[..|ops| - 1]);
      KeysStayUnique(ops[..|ops| - 1]);
      if ops[|ops| - 1].Push? {
        var j := ops[|ops| - 1].job;
        WithoutUnique(q.live, j.key);
        OnlyGone(q.live, j.key);
        AppendUnique(Without(q.live, j.key), j);
      }
    }
    forall k ensures |Only(Run(ops).live, k)| <= 1 {
      WithoutUnique(Run(ops).live, k);
    }
  }

  ghost predicate AllKeyed(q: seq<Job>) {
    forall i :: 0 <= i < |q| ==> Keyed(q[i])
  }

  /** Every push computes its key from its action. */
  ghost predicate PushesActions(ops: seq<Op>) {
    forall i :: 0 <= i < |ops| && ops[i].Push? ==> Keyed(ops[i].job)
  }

  lemma {:induction false} RunKeyed(ops: seq<Op>)
    requires PushesActions(ops)
    ensures AllKeyed(Run(ops).live)
  {
    if ops != [] {
      var q, op := Run(ops[..|ops| - 1]).live, ops[|ops| - 1];
      RunKeyed(ops[..|ops| - 1]);
      if op.Push? {
        WithoutKeyed(q, op.job.key);
      }
    }
  }

  lemma {:induction false} WithoutKeyed(q: seq<Job>, k: Option<QueueKey>)
    requires AllKeyed(q)
    ensures AllKeyed(Without(q, k))
  {
    if q != [] {
      WithoutKeyed(q[1..], k);
    }
  }

  lemma SameIsRivals(x: Job, y: Job)
    requires Keyed(x) && Keyed(y)
    ensures Same(x, y.key) <==> Rivals(x.action, y.action)
  {
  }

  lemma {:induction false} WithoutIsWithoutRivals(q: seq<Job>, y: Job)
    requires AllKeyed(q) && Keyed(y)
    ensures Without(q, y.key) == WithoutRivals(q, y.action)
  {
    if q != [] {
      SameIsRivals(q[0], y);
      WithoutIsWithoutRivals(q[1..], y);
    }
  }

  lemma {:induction false} OnlyMember(q: seq<Job>, k: Option<QueueKey>, j: Job)
    ensures j in Only(q, k) <==> j in q && Same(j, k)
  {
    if q != [] {
      OnlyMember(q[1..], k, j);
    }
  }

  lemma {:induction false} OnlyNone(q: seq<Job>, k: Option<QueueKey>)
    requires Only(q, k) == []
    ensures Without(q, k) == q
  {
    if q != [] {
      OnlyNone(q[1..], k);
    }
  }

  lemma {:induction false} OnlyHas(q: seq<Job>, k: QueueKey, i: nat)
    requires i < |q| && q[i].key == Some(k)
    ensures Only(q, Some(k)) != []
  {
    if i > 0 {
      OnlyHas(q[1..], k, i - 1);
    }
  }

  lemma {:induction false} UniqueApart(q: seq<Job>, k: QueueKey, i: nat, j: nat)
    requires UniqueKeys(q) && i < j < |q| && q[i].key == Some(k)
    ensures q[j].key != Some(k)
  {
    if i == 0 {
      if q[j].key == Some(k) {
        OnlyHas(q[1..], k, j - 1);
      }
    } else {
      UniqueApart(q[1..], k, i - 1, j - 1);
    }
  }

  /**
   In every run, no two waiting jobs compete for the same list of stale keys in the
   same phase, so at most one apply, and beside it at most one handoff, waits for
   each runtime identity.
   */
  lemma {:induction false} OneWaitingPerIdentity(ops: seq<Op>, i: nat, j: nat)
    requires PushesActions(ops) && i < j < |Run(ops).live|
    ensures var a, b := Run(ops).live[i].action, Run(ops).live[j].action;
            StaleKeys(a) == StaleKeys(b) != [] ==> a.handoffOnly != b.handoffOnly
  {
    var q := Run(ops).live;
    RunKeyed(ops);
    KeysStayUnique(ops);
    if q[i].key.Some? {
      UniqueApart(q, q[i].key.value, i, j);
    }
  }

  /** Every pushed job is in exactly one place. */
  ghost predicate Accounted(q: Queue) {
    multiset(q.pushed) == multiset(q.live) + multiset(q.popped) + multiset(q.replaced) + multiset(q.cleared)
  }

  lemma StepConserves(q: Queue, op: Op)
    requires Accounted(q)
    ensures Accounted(Apply(q, op))
  {
    match op
    case Push(j) => WithoutOnly(q.live, j.key);
    case Pop =>
      if q.live != [] {
        assert q.live == [q.live[0]] + q.live[1..];
      }
    case Reset =>
  }

  /** Over every run, each pushed job is still waiting or has left exactly once: popped, replaced or cleared. */
  lemma {:induction false} EveryJobLeavesOnce(ops: seq<Op>)
    ensures Accounted(Run(ops))
  {
    if ops != [] {
      EveryJobLeavesOnce(ops[..|ops| - 1]);
      StepConserves(Run(ops[..|ops| - 1]), ops[|ops| - 1]);
    }
  }

  // What becomes of one job. Jobs are told apart by the step that pushed them.

  ghost predicate Stamped(ops: seq<Op>) {
    forall i :: 0 <= i < |ops| && ops[i].Push? ==> ops[i].job.tag == i
  }

  lemma {:induction false} PushedOnce(ops: seq<Op>)
    requires Stamped(ops)
    ensures forall x :: x in Run(ops).pushed ==> x.tag < |ops| && multiset(Run(ops).pushed)[x] == 1
  {
    if ops != [] {
      PushedOnce(ops[..|ops| - 1]);
    }
  }

  /** A job is in at most one place. */
  lemma {:induction false} OnePlace(ops: seq<Op>, x: Job)
    requires Stamped(ops)
    ensures var q := Run(ops);
            multiset(q.live)[x] + multiset(q.popped)[x] + multiset(q.replaced)[x] + multiset(q.cleared)[x] <= 1
    ensures x.tag >= |ops| ==> x !in Run(ops).live && x !in Run(ops).popped && x !in Run(ops).replaced && x !in Run(ops).cleared
  {
    EveryJobLeavesOnce(ops);
    PushedOnce(ops);
    assert multiset(Run(ops).pushed)[x] <= 1;
    assert x in multiset(Run(ops).pushed) <==> x in Run(ops).pushed;
  }

  /** Step j takes x out of the queue. */
  ghost predicate PopsAt(ops: seq<Op>, j: nat, x: Job) {
    j < |ops| && ops[j].Pop? && Run(ops[..j]).live != [] && Run(ops[..j]).live[0] == x
  }

  ghost predicate ReplacesAt(ops: seq<Op>, j: nat, x: Job) {
    j < |ops| && ops[j].Push? && x in Run(ops[..j]).live && Same(x, ops[j].job.key)
  }

  ghost predicate ClearsAt(ops: seq<Op>, j: nat, x: Job) {
    j < |ops| && ops[j].Reset? && x in Run(ops[..j]).live
  }

  // The last step, seen from one job that was pushed before.

  lemma {:induction false} LastPush(ops: seq<Op>, x: Job)
    requires ops != [] && ops[|ops| - 1].Push? && ops[|ops| - 1].job != x
    ensures var n := |ops| - 1; var q, q' := Run(ops[..n]), Run(ops);
            && q'.popped == q.popped && q'.cleared == q.cleared
            && (x in q'.replaced <==> x in q.replaced || ReplacesAt(ops, n, x))
            && (x in q'.live <==> x in q.live && !ReplacesAt(ops, n, x))
  {
    var n := |ops| - 1;
    var q, y := Run(ops[..n]), ops[n].job;
    WithoutMember(q.live, y.key, x);
    OnlyMember(q.live, y.key, x);
  }

  lemma {:induction false} LastPop(ops: seq<Op>, x: Job)
    requires ops != [] && !ops[|ops| - 1].Push? && multiset(Run(ops[..|ops| - 1]).live)[x] <= 1
    ensures var n := |ops| - 1; var q, q' := Run(ops[..n]), Run(ops);
            && q'.replaced == q.replaced
            && (x in q'.popped <==> x in q.popped || PopsAt(ops, n, x))
            && (x in q'.cleared <==> x in q.cleared || ClearsAt(ops, n, x))
            && (x in q'.live <==> x in q.live && !PopsAt(ops, n, x) && !ClearsAt(ops, n, x))
  {
    var q := Run(ops[..|ops| - 1]);
    if ops[|ops| - 1].Pop? && q.live != [] {
      var rest := q.live[1..];
      assert q.live == [q.live[0]] + rest;
      assert multiset(q.live)[x] == (if x == q.live[0] then 1 else 0) + multiset(rest)[x];
      assert x in rest <==> multiset(rest)[x] > 0;
    }
  }

  ghost predicate EverReplaced(ops: seq<Op>, i: nat, x: Job) {
    exists j: nat :: i < j && ReplacesAt(ops, j, x)
  }

  ghost predicate EverPopped(ops: seq<Op>, i: nat, x: Job) {
    exists j: nat :: i < j && PopsAt(ops, j, x)
  }

  ghost predicate EverCleared(ops: seq<Op>, i: nat, x: Job) {
    exists j: nat :: i < j && ClearsAt(ops, j, x)
  }

  lemma {:induction false} PrefixSteps(ops: seq<Op>, j: nat, x: Job)
    requires j < |ops| - 1
    ensures var init := ops[..|ops| - 1];
            && (PopsAt(init, j, x) <==> PopsAt(ops, j, x)) && (ReplacesAt(init, j, x) <==> ReplacesAt(ops, j, x))
            && (ClearsAt(init, j, x) <==> ClearsAt(ops, j, x))
  {
    assert ops[..|ops| - 1][..j] == ops[..j];
  }

  lemma {:induction false} EverReplacedSnoc(ops: seq<Op>, i: nat, x: Job)
    requires i < |ops| - 1
    ensures EverReplaced(ops, i, x) <==> EverReplaced(ops[..|ops| - 1], i, x) || ReplacesAt(ops, |ops| - 1, x)
  {
    var n := |ops| - 1;
    if j: nat :| i < j && ReplacesAt(ops[..n], j, x) {
      PrefixSteps(ops, j, x);
    }
    if j: nat :| i < j && ReplacesAt(ops, j, x) {
      if j < n {
        PrefixSteps(ops, j, x);
      }
    }
    assert i < n;
  }

  lemma {:induction false} EverPoppedSnoc(ops: seq<Op>, i: nat, x: Job)
    requires i < |ops| - 1
    ensures EverPopped(ops, i, x) <==> EverPopped(ops[..|ops| - 1], i, x) || PopsAt(ops, |ops| - 1, x)
  {
    var n := |ops| - 1;
    if j: nat :| i < j && PopsAt(ops[..n], j, x) {
      PrefixSteps(ops, j, x);
    }
    if j: nat :| i < j && PopsAt(ops, j, x) {
      if j < n {
        PrefixSteps(ops, j, x);
      }
    }
    assert i < n;
  }

  lemma {:induction false} EverClearedSnoc(ops: seq<Op>, i: nat, x: Job)
    requires i < |ops| - 1
    ensures EverCleared(ops, i, x) <==> EverCleared(ops[..|ops| - 1], i, x) || ClearsAt(ops, |ops| - 1, x)
  {
    var n := |ops| - 1;
    if j: nat :| i < j && ClearsAt(ops[..n], j, x) {
      PrefixSteps(ops, j, x);
    }
    if j: nat :| i < j && ClearsAt(ops, j, x) {
      if j < n {
        PrefixSteps(ops, j, x);
      }
    }
    assert i < n;
  }

  /** What has become of x after ops, as the steps after i say. */
  ghost predicate Fate(ops: seq<Op>, i: nat, x: Job) {
    var q := Run(ops);
    && (x in q.replaced <==> EverReplaced(ops, i, x)) && (x in q.popped <==> EverPopped(ops, i, x))
    && (x in q.cleared <==> EverCleared(ops, i, x))
    && (x in q.live <==> !EverReplaced(ops, i, x) && !EverPopped(ops, i, x) && !EverCleared(ops, i, x))
  }

  lemma {:induction false} FateAtPush(ops: seq<Op>, x: Job)
    requires Stamped(ops) && ops != [] && ops[|ops| - 1] == Push(x)
    ensures Fate(ops, |ops| - 1, x)
  {
    var n := |ops| - 1;
    OnePlace(ops[..n], x);
    OnePlace(ops, x);
    assert x in Run(ops).live;
    assert !EverReplaced(ops, n, x) && !EverPopped(ops, n, x) && !EverCleared(ops, n, x);
  }

  lemma {:induction false} FateNext(ops: seq<Op>, i: nat, x: Job)
    requires Stamped(ops) && i < |ops| - 1 && ops[|ops| - 1] != Push(x) && Fate(ops[..|ops| - 1], i, x)
    ensures Fate(ops, i, x)
  {
    EverReplacedSnoc(ops, i, x);
    EverPoppedSnoc(ops, i, x);
    EverClearedSnoc(ops, i, x);
    if ops[|ops| - 1].Push? {
      LastPush(ops, x);
      assert !PopsAt(ops, |ops| - 1, x) && !ClearsAt(ops, |ops| - 1, x);
    } else {
      OnePlace(ops[..|ops| - 1], x);
      LastPop(ops, x);
      assert !ReplacesAt(ops, |ops| - 1, x);
    }
  }

  lemma {:induction false} FateByKey(ops: seq<Op>, i: nat)
    requires Stamped(ops) && i < |ops| && ops[i].Push?
    ensures Fate(ops, i, ops[i].job)
  {
    var n := |ops| - 1;
    if i == n {
      FateAtPush(ops, ops[i].job);
    } else {
      FateByKey(ops[..n], i);
      FateNext(ops, i, ops[i].job);
    }
  }

  /** Step j pushes a job for the very list of stale keys of x, at least one, in its phase, while x waits. */
  ghost predicate RivalAt(ops: seq<Op>, j: nat, x: Job) {
    && j < |ops| && ops[j].Push? && x in Run(ops[..j]).live
    && StaleKeys(x.action) == StaleKeys(ops[j].job.action) && StaleKeys(x.action) != []
    && x.action.handoffOnly == ops[j].job.action.handoffOnly
  }

  lemma {:induction false} ReplacedByRival(ops: seq<Op>, j: nat, x: Job)
    requires PushesActions(ops) && Keyed(x)
    ensures ReplacesAt(ops, j, x) <==> RivalAt(ops, j, x)
  {
    if j < |ops| && ops[j].Push? {
      SameIsRivals(x, ops[j].job);
    }
  }

  /**
   What becomes of the job pushed by step i, over every run: it leaves as replaced exactly if
   some later push competes for the very list of stale keys, at least one, in the same phase
   while it waits; it leaves popped or cleared exactly if a later pop finds it in front, or a
   reset comes, while it waits; and otherwise it still waits.
   */
  lemma {:induction false} FateOfJob(ops: seq<Op>, i: nat)
    requires PushesActions(ops) && Stamped(ops) && i < |ops| && ops[i].Push?
    ensures var x, q := ops[i].job, Run(ops);
            && (x in q.replaced <==> exists j: nat :: i < j && RivalAt(ops, j, x))
            && (x in q.popped <==> exists j: nat :: i < j && PopsAt(ops, j, x))
            && (x in q.cleared <==> exists j: nat :: i < j && ClearsAt(ops, j, x))
            && (x in q.live <==> forall j: nat :: i < j ==> !RivalAt(ops, j, x) && !PopsAt(ops, j, x) && !ClearsAt(ops, j, x))
  {
    var x := ops[i].job;
    FateByKey(ops, i);
    forall j: nat ensures ReplacesAt(ops, j, x) <==> RivalAt(ops, j, x) {
      ReplacedByRival(ops, j, x);
    }
  }

  /** Each job that no later one replaces, in push order. */
  function KeepLast(js: seq<Job>): seq<Job> {
    if js == [] then []
    else Without(KeepLast(js[..|js| - 1]), js[|js| - 1].key) + [js[|js| - 1]]
  }

  lemma {:induction false} WithoutMember(q: seq<Job>, k: Option<QueueKey>, j: Job)
    ensures j in Without(q, k) <==> j in q && !Same(j, k)
  {
    if q != [] {
      WithoutMember(q[1..], k, j);
    }
  }

  ghost predicate Survives(js: seq<Job>, i: nat) {
    i < |js| && forall l :: i < l < |js| ==> !Same(js[i], js[l].key)
  }

  lemma SurvivesInit(js: seq<Job>, i: nat)
    requires i + 1 < |js|
    ensures Survives(js, i) <==> Survives(js[..|js| - 1], i) && !Same(js[i], js[|js| - 1].key)
  {
    assert forall l :: 0 <= l < |js| - 1 ==> js[..|js| - 1][l] == js[l];
  }

  lemma {:induction false} KeptBySame(js: seq<Job>, j: Job)
    ensures j in KeepLast(js) <==> exists i: nat :: Survives(js, i) && js[i] == j
  {
    if js != [] {
      var init, last := js[..|js| - 1], js[|js| - 1];
      KeptBySame(init, j);
      WithoutMember(KeepLast(init), last.key, j);
      if j == last {
        assert Survives(js, |js| - 1);
      } else if j in KeepLast(js) {
        var i: nat :| Survives(init, i) && init[i] == j;
        SurvivesInit(js, i);
      } else if i: nat :| Survives(js, i) && js[i] == j {
        SurvivesInit(js, i);
        assert false;
      }
    }
  }

  /** Nothing pushed after job i competes for the same keys in the same phase. */
  ghost predicate Unrivalled(js: seq<Job>, i: nat) {
    i < |js| && forall l :: i < l < |js| ==> !Rivals(js[i].action, js[l].action)
  }

  lemma SurvivesUnrivalled(js: seq<Job>, i: nat)
    requires AllKeyed(js)
    ensures Survives(js, i) <==> Unrivalled(js, i)
  {
    if i < |js| {
      forall l | i < l < |js| ensures Same(js[i], js[l].key) <==> Rivals(js[i].action, js[l].action) {
        SameIsRivals(js[i], js[l]);
      }
    }
  }

  /** A job is kept exactly if nothing pushed after it competes for the same keys in the same phase. */
  lemma {:induction false} KeepLastMeaning(js: seq<Job>, j: Job)
    requires AllKeyed(js)
    ensures j in KeepLast(js) <==> exists i: nat :: Unrivalled(js, i) && js[i] == j
  {
    KeptBySame(js, j);
    forall i: nat ensures Survives(js, i) <==> Unrivalled(js, i) {
      SurvivesUnrivalled(js, i);
    }
  }

  /** From empty, pushing leaves exactly the last job of every identity, oldest push first. */
  lemma {:induction false} PushesKeepLast(js: seq<Job>)
    ensures Run(seq(|js|, i requires 0 <= i < |js| => Push(js[i]))).live == KeepLast(js)
  {
    if js != [] {
      var ops := seq(|js|, i requires 0 <= i < |js| => Push(js[i]));
      var init := js[..|js| - 1];
      PushesKeepLast(init);
      assert ops[..|ops| - 1] == seq(|init|, i requires 0 <= i < |init| => Push(init[i]));
    }
  }

  // ------------------------------------------------------------- the slice form

  /** A slot is None once popped; a replaced item stays in its slot, inactive. */
  datatype Item = Item(job: Job, active: bool)
  type Slot = Option<Item>

  predicate IsLive(x: Slot) {
    x.Some? && x.value.active
  }

  /** The jobs of the active items, in order. */
  function Live(items: seq<Slot>): seq<Job> {
    if items == [] then []
    else (if IsLive(items[0]) then [items[0].value.job] else []) + Live(items[1..])
  }

  lemma {:induction false} LiveConcat(a: seq<Slot>, b: seq<Slot>)
    ensures Live(a + b) == Live(a) + Live(b)
  {
    if a == [] {
      assert a + b == b;
    } else {
      assert (a + b)[0] == a[0] && (a + b)[1..] == a[1..] + b;
      LiveConcat(a[1..], b);
      Assoc(if IsLive(a[0]) then [a[0].value.job] else [], Live(a[1..]), Live(b));
    }
  }

  /** If no active item has identity k, then k replaces nothing. */
  lemma {:induction false} LiveWithout(items: seq<Slot>, k: Option<QueueKey>)
    requires forall i :: 0 <= i < |items| && IsLive(items[i]) ==> !Same(items[i].value.job, k)
    ensures Without(Live(items), k) == Live(items) && Only(Live(items), k) == []
  {
    if items != [] {
      LiveWithout(items[1..], k);
      WithoutConcat(if IsLive(items[0]) then [items[0].value.job] else [], Live(items[1..]), k);
    }
  }

  /** Turning the only active item of an identity off removes exactly its job. */
  lemma LiveDeactivate(items: seq<Slot>, p: nat, k: QueueKey)
    requires p < |items| && IsLive(items[p]) && items[p].value.job.key == Some(k)
    requires forall i :: 0 <= i < |items| && IsLive(items[i]) && items[i].value.job.key == Some(k) ==> i == p
    ensures Live(items[p := Some(Item(items[p].value.job, false))]) == Without(Live(items), Some(k))
    ensures Only(Live(items), Some(k)) == [items[p].value.job]
    ensures |Live(items[p := Some(Item(items[p].value.job, false))])| == |Live(items)| - 1
  {
    var a, x, c := items[..p], items[p], items[p + 1..];
    var off := Some(Item(x.value.job, false));
    assert items == a + [x] + c && items[p := off] == a + [off] + c;
    LiveConcat(a + [x], c);
    LiveConcat(a, [x]);
    LiveConcat(a + [off], c);
    LiveConcat(a, [off]);
    LiveWithout(a, Some(k));
    LiveWithout(c, Some(k));
    assert Live([x]) == [x.value.job] && Live([off]) == [];
    var one := [x.value.job];
    assert one[1..] == [] && Same(one[0], Some(k)) && Without(one, Some(k)) == [];
    assert Only(one[1..], Some(k)) == [] && Only(one, Some(k)) == [one[0]] + Only(one[1..], Some(k)) == one;
    WithoutConcat(Live(a) + [x.value.job], Live(c), Some(k));
    WithoutConcat(Live(a), [x.value.job], Some(k));
  }

  /** From the head on, `byKey` is exactly the index of the active items that have an identity. */
  ghost predicate Indexed(items: seq<Slot>, head: nat, base: nat, byKey: map<QueueKey, nat>) {
    && head <= |items|
    && (forall k :: k in byKey ==> IndexedAt(items, head, byKey[k] - base, k))
    && (forall i, k :: IndexedAt(items, head, i, k) ==> k in byKey && byKey[k] == base + i)
  }

  /** An active item with identity k waits at position i. */
  ghost predicate IndexedAt(items: seq<Slot>, head: nat, i: int, k: QueueKey) {
    head <= i < |items| && IsLive(items[i]) && items[i].value.job.key == Some(k)
  }

  lemma {:induction false} IndexedReplace(items: seq<Slot>, head: nat, base: nat, byKey: map<QueueKey, nat>, k: QueueKey)
    requires Indexed(items, head, base, byKey)
    ensures k !in byKey ==> Without(Live(items[head..]), Some(k)) == Live(items[head..]) && Only(Live(items[head..]), Some(k)) == []
    ensures k in byKey ==>
              var p := byKey[k] - base;
              && head <= p < |items| && IsLive(items[p])
              && var items' := items[p := Some(Item(items[p].value.job, false))];
              && Indexed(items', head, base, byKey - {k})
              && Live(items'[head..]) == Without(Live(items[head..]), Some(k))
              && Only(Live(items[head..]), Some(k)) == [items[p].value.job]
              && |Live(items'[head..])| == |Live(items[head..])| - 1
  {
    if k !in byKey {
      forall i | 0 <= i < |items[head..]| && IsLive(items[head..][i])
        ensures !Same(items[head..][i].value.job, Some(k))
      {
        assert items[head..][i] == items[head + i];
        assert !IndexedAt(items, head, head + i, k);
      }
      LiveWithout(items[head..], Some(k));
    } else {
      var p := byKey[k] - base;
      assert IndexedAt(items, head, p, k);
      var items' := items[p := Some(Item(items[p].value.job, false))];
      forall i, l | IndexedAt(items', head, i, l) ensures l in byKey - {k} && (byKey - {k})[l] == base + i {
        assert IndexedAt(items, head, i, l);
      }
      forall l | l in byKey - {k} ensures IndexedAt(items', head, (byKey - {k})[l] - base, l) {
        assert IndexedAt(items, head, byKey[l] - base, l);
      }
      forall i | 0 <= i < |items[head..]| && IsLive(items[head..][i]) && items[head..][i].value.job.key == Some(k)
        ensures i == p - head
      {
        assert IndexedAt(items, head, head + i, k);
      }
      LiveDeactivate(items[head..], p - head, k);
      assert items'[head..] == items[head..][p - head := items'[p]];
    }
  }

  lemma IndexedAppend(items: seq<Slot>, head: nat, base: nat, byKey: map<QueueKey, nat>, job: Job)
    requires Indexed(items, head, base, byKey) && (job.key.Some? ==> job.key.value !in byKey)
    ensures var items', byKey' := items + [Some(Item(job, true))],
                                  if job.key.Some? then byKey[job.key.value := base + |items|] else byKey;
            && Indexed(items', head, base, byKey')
            && Live(items'[head..]) == Live(items[head..]) + [job]
  {
    var items' := items + [Some(Item(job, true))];
    assert items'[head..] == items[head..] + [Some(Item(job, true))];
    LiveConcat(items[head..], [Some(Item(job, true))]);
    forall i, k | IndexedAt(items', head, i, k) && i < |items| ensures IndexedAt(items, head, i, k) {
    }
    forall k | k in byKey ensures IndexedAt(items', head, byKey[k] - base, k) {
      assert IndexedAt(items, head, byKey[k] - base, k);
    }
  }

  /** Clearing the slot at the head and moving past it. */
  lemma IndexedAdvance(items: seq<Slot>, head: nat, base: nat, byKey: map<QueueKey, nat>)
    requires Indexed(items, head, base, byKey) && head < |items|
    ensures var x, items' := items[head], items[head := None];
            && Live(items[head..]) == (if IsLive(x) then [x.value.job] else []) + Live(items'[head + 1..])
            && (IsLive(x) && x.value.job.key.Some? ==> x.value.job.key.value in byKey && byKey[x.value.job.key.value] == base + head)
            && Indexed(items', head + 1, base,
                       if IsLive(x) && x.value.job.key.Some? then byKey - {x.value.job.key.value} else byKey)
  {
    var x, items' := items[head], items[head := None];
    assert items[head..] == [x] + items'[head + 1..];
    var byKey' := if IsLive(x) && x.value.job.key.Some? then byKey - {x.value.job.key.value} else byKey;
    var h := head + 1;
    forall i, k | IndexedAt(items', h, i, k) ensures k in byKey' && byKey'[k] == base + i {
      assert IndexedAt(items, head, i, k);
      if IsLive(x) && x.value.job.key.Some? {
        assert IndexedAt(items, head, head, x.value.job.key.value);
      }
    }
    if IsLive(x) && x.value.job.key.Some? {
      assert IndexedAt(items, head, head, x.value.job.key.value);
    }
    forall k | k in byKey && !(IsLive(x) && x.value.job.key == Some(k))
      ensures IndexedAt(items', head + 1, byKey[k] - base, k)
    {
      assert IndexedAt(items, head, byKey[k] - base, k);
    }
  }

  lemma IndexedCompact(items: seq<Slot>, head: nat, base: nat, byKey: map<QueueKey, nat>)
    requires Indexed(items, head, base, byKey)
    ensures Indexed(items[head..], 0, base + head, byKey)
  {
    var items' := items[head..];
    forall i, k | IndexedAt(items', 0, i, k) ensures IndexedAt(items, head, head + i, k) {
    }
    forall k | k in byKey ensures IndexedAt(items', 0, byKey[k] - (base + head), k) {
      assert IndexedAt(items, head, byKey[k] - base, k);
    }
  }

  const COMPACT_MIN := 1024

  /**
   `byKey` refers to an item by its position counted from the creation of the
   buffer; `base` is how many slots compaction has discarded so far.
   */
  class Buffer {
    var items: seq<Slot>
    var head: nat
    var base: nat
    var byKey: map<QueueKey, nat>
    var active: int

    ghost predicate Ready()
      reads this
    {
      Indexed(items, head, base, byKey) && active == |Live(items[head..])|
    }

    ghost predicate Valid()
      reads this
    {
      Ready() && AllKeyed(Contents())
    }

    ghost function Contents(): seq<Job>
      requires head <= |items|
      reads this
    {
      Live(items[head..])
    }

    constructor ()
      ensures Valid() && Contents() == []
    {
      items, head, base, byKey, active := [], 0, 0, map[], 0;
    }

    /** Deactivates the waiting item of an identity, if there is one. */
    method Replace(k: QueueKey) returns (replaced: Option<Job>)
      requires Ready()
      modifies this
      ensures Ready() && k !in byKey
      ensures Contents() == Without(old(Contents()), Some(k))
      ensures Only(old(Contents()), Some(k)) == if replaced.Some? then [replaced.value] else []
    {
      IndexedReplace(items, head, base, byKey, k);
      replaced := None;
      if k in byKey {
        var p := byKey[k] - base;
        replaced := Some(items[p].value.job);
        items := items[p := Some(Item(items[p].value.job, false))];
        active := active - 1;
        byKey := byKey - {k};
      }
    }

    /** Appends; a waiting job that competes for the same stale keys in the same phase is replaced and handed back. */
    method Push(action: Action, tag: nat) returns (depth: int, replaced: Option<Job>)
      requires Valid()
      modifies this
      ensures Valid() && depth == |Contents()|
      ensures Contents() == WithoutRivals(old(Contents()), action) + [JobOf(action, tag)]
      ensures replaced.Some? ==> replaced.value in old(Contents()) && StaleKeys(action) != []
                                 && StaleKeys(replaced.value.action) == StaleKeys(action)
                                 && replaced.value.action.handoffOnly == action.handoffOnly
      ensures replaced.None? ==> WithoutRivals(old(Contents()), action) == old(Contents())
    {
      var job := JobOf(action, tag);
      ghost var before := Contents();
      if job.key.Some? {
        replaced := Replace(job.key.value);
      } else {
        replaced := None;
        LiveWithout(items[head..], job.key);
      }
      WithoutIsWithoutRivals(before, job);
      WithoutKeyed(before, job.key);
      if replaced.Some? {
        OnlyMember(before, job.key, replaced.value);
        SameIsRivals(replaced.value, job);
      } else {
        OnlyNone(before, job.key);
      }
      Append(job);
      depth := active;
    }

    method Append(job: Job)
      requires Ready() && (job.key.Some? ==> job.key.value !in byKey)
      modifies this
      ensures Ready() && Contents() == old(Contents()) + [job]
    {
      IndexedAppend(items, head, base, byKey, job);
      var index := if job.key.Some? then byKey[job.key.value := base + |items|] else byKey;
      items, byKey, active := items + [Some(Item(job, true))], index, active + 1;
    }

    /** Drops the slots before the head when that is worth it; nothing waiting is affected. */
    method Compact()
      requires Ready()
      modifies this
      ensures Ready() && Contents() == old(Contents())
    {
      if head == 0 {
        return;
      }
      IndexedCompact(items, head, base, byKey);
      assert items[head..][0..] == items[head..];
      if head >= |items| {
        base := base + head;
        items, head := [], 0;
        return;
      }
      if head >= COMPACT_MIN && head * 2 >= |items| {
        items, base, head := items[head..], base + head, 0;
      }
    }

    /** Takes the oldest waiting job. */
    method Pop() returns (popped: Option<Job>)
      requires Valid()
      modifies this
      ensures Valid()
      ensures if old(Contents()) == [] then popped == None && Contents() == []
              else popped == Some(old(Contents())[0]) && Contents() == old(Contents())[1..]
    {
      popped := PopReady();
    }

    method PopReady() returns (popped: Option<Job>)
      requires Ready()
      modifies this
      ensures Ready()
      ensures if old(Contents()) == [] then popped == None && Contents() == []
              else popped == Some(old(Contents())[0]) && Contents() == old(Contents())[1..]
    {
      while head < |items|
        invariant Ready() && Contents() == old(Contents())
        decreases |items| - head
      {
        IndexedAdvance(items, head, base, byKey);
        var item := items[head];
        items := items[head := None];
        head := head + 1;
        if !IsLive(item) {
          continue;
        }
        active := active - 1;
        var key := item.value.job.key;
        if key.Some? && byKey[key.value] == base + head - 1 {
          byKey := byKey - {key.value};
        }
        Compact();
        return Some(item.value.job);
      }
      Compact();
      return None;
    }

    method Len() returns (n: int)
      requires Valid()
      ensures n == |Contents()|
    {
      n := active;
    }

    /** Empties the queue and hands everything waiting back, oldest first. */
    method Reset() returns (pending: seq<Job>)
      requires Valid()
      modifies this
      ensures Valid() && Contents() == [] && pending == old(Contents())
    {
      pending := [];
      for i := head to |items|
        invariant head == old(head) && items == old(items) && pending == Live(items[head..i])
      {
        assert items[head..i + 1] == items[head..i] + [items[i]];
        LiveConcat(items[head..i], [items[i]]);
        if IsLive(items[i]) {
          pending := pending + [items[i].value.job];
        }
      }
      assert items[head..|items|] == items[head..];
      base := base + |items|;
      items, head, byKey, active := [], 0, map[], 0;
    }
  }
}
