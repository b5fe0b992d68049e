/**
 What the serial locks and the issue-time table guarantee together, over every
 run of the transition system in SerialLocks: exclusion, exact reference counts,
 freedom from deadlock, and execution in issue-time order.
 */
module ActionOrder {
  import opened ActionKeys
  import opened Options
  import opened Epochs
  import opened SerialLocks

  // ------------------------------------------------- the lock table over runs

  /** No key is ever held by two tasks, although its table entry comes and goes. */
  lemma MutualExclusion(less: Order, s: Sys, t: TaskId, u: TaskId, key: SerialKey)
    requires StrictTotal(less) && Reachable(less, s)
    requires HeldBy(s, t, key) && HeldBy(s, u, key)
    ensures t == u
  {
    var cmds :| Exec(less, cmds) == Some(s);
    InvRun(less, cmds);
    assert OwnerExact(s, key);
  }

  /** An entry exists exactly while somebody uses the key, and its count is the number of users. */
  lemma EntryCountsUsers(less: Order, s: Sys, key: SerialKey)
    requires StrictTotal(less) && Reachable(less, s)
    ensures key in s.table <==> exists t :: UsedBy(s, t, key)
    ensures key in s.table ==> s.table[key] in s.locks && s.locks[s.table[key]].refs == |Users(s, key)|
    ensures forall t :: UsedBy(s, t, key) <==> t in Users(s, key)
  {
    var cmds :| Exec(less, cmds) == Some(s);
    InvRun(less, cmds);
    assert RefsExact(s, key);
    if key in s.table {
      var t :| t in Users(s, key);
      assert UsedBy(s, t, key);
    }
  }

  ghost predicate Waiting(s: Sys, t: TaskId) {
    t in s.tasks && s.tasks[t].pc.Wait? && s.tasks[t].pc.held < |s.tasks[t].plan|
  }

  ghost function Wanted(s: Sys, t: TaskId): SerialKey
    requires Waiting(s, t)
  {
    s.tasks[t].plan[s.tasks[t].pc.held]
  }

  lemma {:induction false} LargestWanted(less: Order, s: Sys, w: set<TaskId>) returns (m: TaskId)
    requires StrictTotal(less) && w != {} && forall t :: t in w ==> Waiting(s, t)
    ensures m in w && forall t :: t in w ==> !less(Wanted(s, m), Wanted(s, t))
    decreases |w|
  {
    var x :| x in w;
    if w == {x} {
      m := x;
    } else {
      var y := LargestWanted(less, s, w - {x});
      m := if less(Wanted(s, y), Wanted(s, x)) then x else y;
    }
  }

  /** Only a task waiting for a mutex can be blocked. */
  lemma NonWaitingMoves(s: Sys, t: TaskId) returns (m: Move)
    requires Inv(s) && t in s.tasks && !s.tasks[t].pc.Wait? && !s.tasks[t].pc.Done?
    ensures CanMove(s, t, m)
  {
    var k := s.tasks[t];
    assert Shape(k) && Linked(s, k);
    match k.pc
    case Acquire(n) =>
      if n < |k.plan| {
        InvAt(s, t, k.plan[n]);
        m := Register;
      } else {
        m := AllHeld;
      }
    case Recheck(i) => m := if i < |k.guards| then Check else Begin;
    case Running => m := Finish;
    case Unlock(n) =>
      if n == 0 {
        m := Exit;
      } else {
        InvAt(s, t, k.plan[n - 1]);
        m := Release;
      }
    case Deref(n) =>
      InvAt(s, t, k.plan[n - 1]);
      m := Drop;
  }

  /** The task waiting for the largest key is unblocked, or its owner can move. */
  lemma WaitingMoves(less: Order, s: Sys, t: TaskId) returns (u: TaskId, m: Move)
    requires StrictTotal(less) && Inv(s) && PlanInv(less, s) && Waiting(s, t)
    requires forall v :: v in s.tasks ==> s.tasks[v].pc.Wait? || HeldCount(s.tasks[v]) == 0
    requires forall v :: Waiting(s, v) ==> !less(Wanted(s, t), Wanted(s, v))
    ensures u in s.tasks && CanMove(s, u, m) && s.tasks[u].pc.Wait?
  {
    var k := s.tasks[t];
    var key := Wanted(s, t);
    InvAt(s, t, key);
    assert k.ids[k.pc.held] == s.table[key];
    if OwnerOf(s, key).None? {
      u, m := t, Lock;
    } else {
      var v := OwnerOf(s, key).value;
      assert HeldBy(s, v, key);
      InvAt(s, v, key);
      var n := s.tasks[v].pc.held;
      var i :| 0 <= i < n && s.tasks[v].plan[..n][i] == key;
      assert PlanOk(less, s.tasks[v]);
      assert less(s.tasks[v].plan[i], s.tasks[v].plan[n]);
      assert Waiting(s, v);
      assert false;
    }
  }

  /** Whatever has happened, unless every task is finished some task can take its next step. */
  lemma NoDeadlock(less: Order, s: Sys)
    requires StrictTotal(less) && Reachable(less, s)
    requires exists t :: t in s.tasks && !s.tasks[t].pc.Done?
    ensures exists u, m :: u in s.tasks && CanMove(s, u, m)
  {
    var cmds :| Exec(less, cmds) == Some(s);
    InvRun(less, cmds);
    if t :| t in s.tasks && !s.tasks[t].pc.Wait? && !s.tasks[t].pc.Done? {
      var m := NonWaitingMoves(s, t);
    } else {
      var w := set t | t in s.tasks && s.tasks[t].pc.Wait?;
      var x :| x in s.tasks && !s.tasks[x].pc.Done?;
      assert x in w;
      forall t | t in w ensures Waiting(s, t) {
        assert Shape(s.tasks[t]);
      }
      var t := LargestWanted(less, s, w);
      var u, m := WaitingMoves(less, s, t);
    }
  }

  function Rank(k: Task): int {
    var p, g := |k.plan|, |k.guards|;
    match k.pc
    case Acquire(n) => 4 * p + g + 4 - 2 * n
    case Wait(n) => 4 * p + g + 3 - 2 * n
    case Recheck(i) => 2 * p + g + 3 - i
    case Running => 2 * p + 2
    case Unlock(n) => 2 * n + 1
    case Deref(n) => 2 * n
    case Done => 0
  }

  /** Every step brings its own task strictly closer to the end and no other task further away. */
  lemma MovesAreFinite(less: Order, s: Sys, t: TaskId, m: Move, u: TaskId)
    requires StrictTotal(less) && Reachable(less, s) && t in s.tasks && CanMove(s, t, m) && u in s.tasks
    ensures 0 <= Rank(DoMove(s, t, m).tasks[t]) < Rank(s.tasks[t])
    ensures u != t ==> DoMove(s, t, m).tasks[u] == s.tasks[u]
  {
    var cmds :| Exec(less, cmds) == Some(s);
    InvRun(less, cmds);
    InvMove(s, t, m);
    assert Shape(s.tasks[t]) && Shape(DoMove(s, t, m).tasks[t]);
  }

  // ------------------------------------------------------ execution in order

  /** Competing actions whose issue times count, outside the split-tunnel family. */
  ghost predicate Conflict(a: Action, b: Action) {
    a.issuedAt > 0 && b.issuedAt > 0 && SharesStaleKey(a, b) && !SplitTunnel(a, b)
  }

  ghost predicate HoldsAll(k: Task) {
    k.pc.Recheck? || k.pc.Running?
  }

  /** Two tasks with conflicting guards are never both inside their locked region. */
  lemma ConflictExcludes(less: Order, s: Sys, t: TaskId, u: TaskId, a: Action, b: Action)
    requires StrictTotal(less) && Inv(s) && PlanInv(less, s) && t in s.tasks && u in s.tasks
    requires a in s.tasks[t].guards && b in s.tasks[u].guards && SharesStaleKey(a, b) && !SplitTunnel(a, b)
    requires HoldsAll(s.tasks[t]) && HoldsAll(s.tasks[u])
    ensures t == u
  {
    StaleShareIsSerialShare(a, b);
    var key :| key in SerialKeys(a) && key in SerialKeys(b);
    assert PlanOk(less, s.tasks[t]) && PlanOk(less, s.tasks[u]);
    assert key in s.tasks[t].plan && key in s.tasks[u].plan;
    assert s.tasks[t].plan[..|s.tasks[t].plan|] == s.tasks[t].plan;
    assert s.tasks[u].plan[..|s.tasks[u].plan|] == s.tasks[u].plan;
    assert HeldBy(s, t, key) && HeldBy(s, u, key) && OwnerExact(s, key);
  }

  /** `a` is at least as new as everything conflicting in task `k`. */
  ghost predicate NotOlderThan(k: Task, a: Action) {
    forall b :: b in k.guards && Conflict(b, a) ==> b.issuedAt <= a.issuedAt
  }

  ghost predicate EpochInv(s: Sys) {
    && (forall a, key :: a in s.accepted && a.issuedAt > 0 && key in StaleKeys(a) ==> a.issuedAt <= Latest(s.epoch, key))
    && (forall t, a :: t in s.tasks && a in s.tasks[t].guards ==> a in s.accepted)
  }

  /** Guards that passed the recheck are not older than anything started before. */
  ghost predicate CheckInv(s: Sys) {
    forall t, j, i :: t in s.tasks && s.tasks[t].pc.Recheck? && 0 <= j < s.tasks[t].pc.passed && j < |s.tasks[t].guards| &&
                      0 <= i < |s.started| && s.started[i] in s.tasks ==>
                        NotOlderThan(s.tasks[s.started[i]], s.tasks[t].guards[j])
  }

  /** The task has started, or been turned away by the recheck. */
  ghost predicate Late(pc: PC) {
    pc.Running? || pc.Unlock? || pc.Deref? || pc.Done?
  }

  ghost predicate StartInv(s: Sys) {
    && (forall i :: 0 <= i < |s.started| ==> s.started[i] in s.tasks)
    && (forall i :: 0 <= i < |s.started| ==> Late(s.tasks[s.started[i]].pc))
    && (forall i, j :: 0 <= i < j < |s.started| ==> s.started[i] != s.started[j])
  }

  /** Conflicting actions start in the order of their issue times. */
  ghost predicate StartedInOrder(s: Sys) {
    forall i, j, a :: 0 <= i < j < |s.started| && s.started[i] in s.tasks && s.started[j] in s.tasks &&
                      a in s.tasks[s.started[j]].guards ==>
                        NotOlderThan(s.tasks[s.started[i]], a)
  }

  ghost predicate OrderInv(s: Sys) {
    EpochInv(s) && CheckInv(s) && StartInv(s) && StartedInOrder(s)
  }

  lemma MoveGuards(s: Sys, t: TaskId, m: Move)
    requires t in s.tasks && CanMove(s, t, m)
    ensures var s' := DoMove(s, t, m);
            && s'.accepted == s.accepted && s'.epoch == s.epoch && s'.tasks.Keys == s.tasks.Keys
            && s'.tasks[t].guards == s.tasks[t].guards && forall u :: u in s.tasks && u != t ==> s'.tasks[u] == s.tasks[u]
  {
  }

  lemma EpochSubmit(s: Sys, s': Sys, a: Action)
    requires EpochInv(s) && s'.tasks == s.tasks && s'.epoch == Remember(s.epoch, a) && s'.accepted == s.accepted + {a}
    ensures EpochInv(s')
  {
    forall b, key | b in s'.accepted && b.issuedAt > 0 && key in StaleKeys(b)
      ensures b.issuedAt <= Latest(s'.epoch, key)
    {
      RememberRaises(s.epoch, a, key);
    }
  }

  lemma EpochAfter(less: Order, s: Sys, c: Cmd)
    requires EpochInv(s) && Enabled(s, c)
    ensures EpochInv(Do(less, s, c))
  {
    match c
    case Submit(a) => EpochSubmit(s, Do(less, s, c), a);
    case Spawn(_, _) =>
    case Step(t, m) => MoveGuards(s, t, m);
  }

  /** A guard that passes the recheck is at least as new as every started conflicting action. */
  lemma CheckedIsNewest(s: Sys, a: Action, k: Task)
    requires EpochInv(s) && !Older(s.epoch, a) && forall b :: b in k.guards ==> b in s.accepted
    ensures NotOlderThan(k, a)
  {
    forall b | b in k.guards && Conflict(b, a) ensures b.issuedAt <= a.issuedAt {
      var key :| key in StaleKeys(b) && key in StaleKeys(a);
      assert b.issuedAt <= Latest(s.epoch, key);
    }
  }

  lemma CheckAfterBegin(less: Order, s: Sys, t: TaskId)
    requires StrictTotal(less) && Inv(s) && PlanInv(less, s) && OrderInv(s) && t in s.tasks && CanMove(s, t, Begin)
    ensures CheckInv(DoMove(s, t, Begin))
  {
    var s' := DoMove(s, t, Begin);
    forall u, j, i | u in s'.tasks && s'.tasks[u].pc.Recheck? && 0 <= j < s'.tasks[u].pc.passed && j < |s'.tasks[u].guards| &&
                     0 <= i < |s'.started| && s'.started[i] in s'.tasks
      ensures NotOlderThan(s'.tasks[s'.started[i]], s'.tasks[u].guards[j])
    {
      if i == |s.started| {
        var a := s.tasks[u].guards[j];
        if b :| b in s.tasks[t].guards && Conflict(b, a) {
          ConflictExcludes(less, s, t, u, b, a);
          assert false;
        }
      } else {
        assert NotOlderThan(s.tasks[s.started[i]], s.tasks[u].guards[j]);
      }
    }
  }

  lemma StartedAfterBegin(s: Sys, t: TaskId)
    requires OrderInv(s) && t in s.tasks && CanMove(s, t, Begin)
    ensures StartedInOrder(DoMove(s, t, Begin))
  {
    var s' := DoMove(s, t, Begin);
    forall i, j, a | 0 <= i < j < |s'.started| && a in s'.tasks[s'.started[j]].guards
      ensures NotOlderThan(s'.tasks[s'.started[i]], a)
    {
      if j == |s.started| {
        var p :| 0 <= p < |s.tasks[t].guards| && s.tasks[t].guards[p] == a;
        assert NotOlderThan(s.tasks[s.started[i]], s.tasks[t].guards[p]);
      } else {
        assert NotOlderThan(s.tasks[s.started[i]], a);
      }
    }
  }

  lemma OrderAfterBegin(less: Order, s: Sys, t: TaskId)
    requires StrictTotal(less) && Inv(s) && PlanInv(less, s) && OrderInv(s) && t in s.tasks && CanMove(s, t, Begin)
    ensures OrderInv(DoMove(s, t, Begin))
  {
    EpochAfter(less, s, Step(t, Begin));
    CheckAfterBegin(less, s, t);
    StartedAfterBegin(s, t);
  }

  lemma OrderAfterCheck(less: Order, s: Sys, t: TaskId)
    requires OrderInv(s) && t in s.tasks && CanMove(s, t, Check)
    ensures OrderInv(DoMove(s, t, Check))
  {
    var s' := DoMove(s, t, Check);
    var p := s.tasks[t].pc.passed;
    EpochAfter(less, s, Step(t, Check));
    forall u, j, i | u in s'.tasks && s'.tasks[u].pc.Recheck? && 0 <= j < s'.tasks[u].pc.passed && j < |s'.tasks[u].guards| &&
                     0 <= i < |s'.started| && s'.started[i] in s'.tasks
      ensures NotOlderThan(s'.tasks[s'.started[i]], s'.tasks[u].guards[j])
    {
      if u == t && j == p {
        CheckedIsNewest(s, s.tasks[t].guards[p], s.tasks[s.started[i]]);
      } else {
        assert NotOlderThan(s.tasks[s.started[i]], s.tasks[u].guards[j]);
      }
    }
    OrderKept(s, s');
  }

  /** A step that starts nothing and changes no task's guards keeps the start order. */
  lemma OrderKept(s: Sys, s': Sys)
    requires StartInv(s) && StartedInOrder(s) && s'.started == s.started
    requires forall t :: t in s.tasks ==> t in s'.tasks && s'.tasks[t].guards == s.tasks[t].guards
    requires forall t :: t in s.tasks && Late(s.tasks[t].pc) ==> Late(s'.tasks[t].pc)
    ensures StartInv(s') && StartedInOrder(s')
  {
    forall i, j, a | 0 <= i < j < |s'.started| && a in s'.tasks[s'.started[j]].guards
      ensures NotOlderThan(s'.tasks[s'.started[i]], a)
    {
      assert NotOlderThan(s.tasks[s.started[i]], a);
    }
  }

  /** Steps other than checking and beginning put no new guard behind a recheck. */
  lemma CheckKept(s: Sys, s': Sys)
    requires CheckInv(s) && StartInv(s) && s'.started == s.started
    requires forall t :: t in s.tasks ==> t in s'.tasks && s'.tasks[t].guards == s.tasks[t].guards
    requires forall t :: t in s'.tasks && s'.tasks[t].pc.Recheck? && s'.tasks[t].pc.passed > 0 ==>
                           t in s.tasks && s.tasks[t].pc == s'.tasks[t].pc
    ensures CheckInv(s')
  {
    forall t, j, i | t in s'.tasks && s'.tasks[t].pc.Recheck? && 0 <= j < s'.tasks[t].pc.passed && j < |s'.tasks[t].guards| &&
                     0 <= i < |s'.started| && s'.started[i] in s'.tasks
      ensures NotOlderThan(s'.tasks[s'.started[i]], s'.tasks[t].guards[j])
    {
      assert NotOlderThan(s.tasks[s.started[i]], s.tasks[t].guards[j]);
    }
  }

  lemma MoveShape(s: Sys, t: TaskId, m: Move)
    requires t in s.tasks && CanMove(s, t, m) && m !in {Begin, Check}
    ensures var s' := DoMove(s, t, m);
            && s'.started == s.started && t in s'.tasks && s'.tasks == s.tasks[t := s'.tasks[t]]
            && s'.tasks[t].guards == s.tasks[t].guards
            && (Late(s.tasks[t].pc) ==> Late(s'.tasks[t].pc))
            && (s'.tasks[t].pc.Recheck? ==> s'.tasks[t].pc.passed == 0)
  {
  }

  lemma OtherSteps(less: Order, s: Sys, c: Cmd)
    requires Enabled(s, c) && StartInv(s) && !(c.Step? && c.move in {Begin, Check})
    ensures var s' := Do(less, s, c);
            && s'.started == s.started
            && (forall t :: t in s.tasks ==> t in s'.tasks && s'.tasks[t].guards == s.tasks[t].guards)
            && (forall t :: t in s.tasks && Late(s.tasks[t].pc) ==> Late(s'.tasks[t].pc))
            && (forall t :: t in s'.tasks && s'.tasks[t].pc.Recheck? && s'.tasks[t].pc.passed > 0 ==>
                  t in s.tasks && s.tasks[t].pc == s'.tasks[t].pc)
  {
    if c.Step? {
      MoveShape(s, c.t, c.move);
    }
  }

  lemma OrderStep(less: Order, s: Sys, c: Cmd)
    requires StrictTotal(less) && Inv(s) && PlanInv(less, s) && OrderInv(s) && Enabled(s, c)
    ensures OrderInv(Do(less, s, c))
  {
    if c.Step? && c.move.Begin? {
      OrderAfterBegin(less, s, c.t);
    } else if c.Step? && c.move.Check? {
      OrderAfterCheck(less, s, c.t);
    } else {
      EpochAfter(less, s, c);
      OtherSteps(less, s, c);
      CheckKept(s, Do(less, s, c));
      OrderKept(s, Do(less, s, c));
    }
  }

  lemma {:induction false} OrderRun(less: Order, cmds: seq<Cmd>)
    requires StrictTotal(less) && Exec(less, cmds).Some?
    ensures OrderInv(Exec(less, cmds).value)
  {
    if cmds != [] {
      var before := cmds[..|cmds| - 1];
      OrderRun(less, before);
      InvRun(less, before);
      OrderStep(less, Exec(less, before).value, cmds[|cmds| - 1]);
    }
  }

  /** In every run, competing actions never execute at the same time. */
  lemma NoOverlap(less: Order, s: Sys, t: TaskId, u: TaskId, a: Action, b: Action)
    requires StrictTotal(less) && Reachable(less, s) && t in s.tasks && u in s.tasks
    requires s.tasks[t].pc.Running? && s.tasks[u].pc.Running?
    requires a in s.tasks[t].guards && b in s.tasks[u].guards && SharesStaleKey(a, b) && !SplitTunnel(a, b)
    ensures t == u
  {
    var cmds :| Exec(less, cmds) == Some(s);
    InvRun(less, cmds);
    ConflictExcludes(less, s, t, u, a, b);
  }

  /** In every run, each task starts at most once, and once a newer action has started no older one starts. */
  lemma IssueTimeOrder(less: Order, s: Sys, i: nat, j: nat, a: Action, b: Action)
    requires StrictTotal(less) && Reachable(less, s) && i < j < |s.started|
    requires s.started[i] in s.tasks && s.started[j] in s.tasks ==>
               a in s.tasks[s.started[i]].guards && b in s.tasks[s.started[j]].guards
    ensures s.started[i] in s.tasks && s.started[j] in s.tasks && s.started[i] != s.started[j]
    ensures Conflict(a, b) ==> a.issuedAt <= b.issuedAt
  {
    var cmds :| Exec(less, cmds) == Some(s);
    OrderRun(less, cmds);
    assert NotOlderThan(s.tasks[s.started[i]], b);
  }

  // ------------------------------------------------- stale work never starts

  /** The task still has to find `a` current before it may start. */
  ghost predicate Unchecked(k: Task, a: Action) {
    exists j :: 0 <= j < |k.guards| && k.guards[j] == a && (k.pc.Acquire? || k.pc.Wait? || (k.pc.Recheck? && k.pc.passed <= j))
  }

  ghost predicate TurnedAway(k: Task) {
    k.pc.Unlock? || k.pc.Deref? || k.pc.Done?
  }

  /** If the task stands for `a`, it has not started and cannot start without rechecking `a`. */
  ghost predicate Barred(s: Sys, t: TaskId, a: Action) {
    t in s.tasks && a in s.tasks[t].guards ==> t !in s.started && (Unchecked(s.tasks[t], a) || TurnedAway(s.tasks[t]))
  }

  lemma BarredMove(s: Sys, t: TaskId, m: Move, a: Action)
    requires t in s.tasks && CanMove(s, t, m) && Older(s.epoch, a) && Barred(s, t, a)
    ensures Barred(DoMove(s, t, m), t, a)
  {
    var k, s' := s.tasks[t], DoMove(s, t, m);
    if a in k.guards && Unchecked(k, a) && !TurnedAway(s'.tasks[t]) {
      var j :| 0 <= j < |k.guards| && k.guards[j] == a && (k.pc.Acquire? || k.pc.Wait? || (k.pc.Recheck? && k.pc.passed <= j));
      assert s'.tasks[t].guards[j] == a;
    }
  }

  lemma BarredStep(less: Order, s: Sys, c: Cmd, t: TaskId, a: Action)
    requires StartInv(s) && Enabled(s, c) && Older(s.epoch, a) && Barred(s, t, a)
    ensures Barred(Do(less, s, c), t, a) && Older(Do(less, s, c).epoch, a)
  {
    match c
    case Submit(b) => OlderIsForever(s.epoch, b, a);
    case Spawn(u, guards) =>
      if u == t && a in guards {
        var j :| 0 <= j < |guards| && guards[j] == a;
        assert Do(less, s, c).tasks[t].guards[j] == a;
      }
    case Step(u, m) =>
      MoveGuards(s, u, m);
      if u == t {
        BarredMove(s, t, m, a);
      } else {
        assert Do(less, s, c).tasks == s.tasks[u := Do(less, s, c).tasks[u]];
      }
  }

  /**
   Once some later issue time has been accepted for an identity of `a`, in every
   continuation of the run, a task standing for `a` never starts, unless it had
   already found `a` current under its locks.
   */
  lemma {:induction false} StaleNeverStarts(less: Order, before: seq<Cmd>, after: seq<Cmd>, s0: Sys, s: Sys, t: TaskId, a: Action)
    requires StrictTotal(less) && Exec(less, before) == Some(s0) && Exec(less, before + after) == Some(s)
    requires Older(s0.epoch, a) && Barred(s0, t, a)
    ensures Older(s.epoch, a) && Barred(s, t, a)
    ensures t in s.tasks && a in s.tasks[t].guards ==> t !in s.started && !s.tasks[t].pc.Running?
    decreases |after|
  {
    if after == [] {
      assert before + after == before;
    } else {
      var n := |after| - 1;
      assert (before + after)[..|before + after| - 1] == before + after[..n];
      var s1 := Exec(less, before + after[..n]).value;
      StaleNeverStarts(less, before, after[..n], s0, s1, t, a);
      OrderRun(less, before + after[..n]);
      BarredStep(less, s1, after[n], t, a);
    }
  }

  // ------------------------------------ the split-tunnel family is really unsafe

  lemma ExecSnoc(less: Order, cmds: seq<Cmd>, s: Sys, c: Cmd) returns (cmds': seq<Cmd>)
    requires Exec(less, cmds) == Some(s) && Enabled(s, c)
    ensures cmds' == cmds + [c] && Exec(less, cmds') == Some(Do(less, s, c))
  {
    cmds' := cmds + [c];
    assert cmds'[..|cmds' | - 1] == cmds;
  }

  /** A task whose remaining keys nobody uses can take them all. */
  lemma {:induction false} AcquireAll(less: Order, cmds: seq<Cmd>, s: Sys, t: TaskId) returns (cmds': seq<Cmd>, s': Sys)
    requires StrictTotal(less) && Exec(less, cmds) == Some(s) && t in s.tasks && s.tasks[t].pc.Acquire?
    requires forall i :: s.tasks[t].pc.held <= i < |s.tasks[t].plan| ==> s.tasks[t].plan[i] !in s.table
    ensures Exec(less, cmds') == Some(s') && s'.epoch == s.epoch && s'.accepted == s.accepted && s'.started == s.started
    ensures t in s'.tasks && s'.tasks == s.tasks[t := s'.tasks[t]]
    ensures s'.tasks[t].guards == s.tasks[t].guards && s'.tasks[t].plan == s.tasks[t].plan
    ensures s'.tasks[t].pc == Acquire(|s.tasks[t].plan|)
    decreases |s.tasks[t].plan| - s.tasks[t].pc.held
  {
    InvRun(less, cmds);
    var k := s.tasks[t];
    assert Shape(k);
    if k.pc.held == |k.plan| {
      cmds', s' := cmds, s;
    } else {
      var s1 := DoMove(s, t, Register);
      var cmds1 := ExecSnoc(less, cmds, s, Step(t, Register));
      var s2 := DoMove(s1, t, Lock);
      var cmds2 := ExecSnoc(less, cmds1, s1, Step(t, Lock));
      forall i | k.pc.held + 1 <= i < |k.plan| ensures k.plan[i] !in s2.table {
        assert k.plan[k.pc.held] != k.plan[i];
      }
      cmds', s' := AcquireAll(less, cmds2, s2, t);
    }
  }

  /** Accepting an action and giving it a task. */
  lemma ReachSpawn(less: Order, cmds: seq<Cmd>, s: Sys, t: TaskId, a: Action) returns (cmds': seq<Cmd>, s': Sys)
    requires StrictTotal(less) && Exec(less, cmds) == Some(s) && t !in s.tasks
    ensures Exec(less, cmds') == Some(s') && t in s'.tasks && s'.tasks == s.tasks[t := s'.tasks[t]]
    ensures s'.tasks[t].guards == [a] && s'.tasks[t].pc == Acquire(0) && s'.started == s.started && s'.table == s.table
    ensures s'.epoch == Remember(s.epoch, a) && forall x :: x in s'.tasks[t].plan <==> x in SerialKeys(a)
  {
    var s1 := Do(less, s, Submit(a));
    var cmds1 := ExecSnoc(less, cmds, s, Submit(a));
    s' := Do(less, s1, Spawn(t, [a]));
    cmds' := ExecSnoc(less, cmds1, s1, Spawn(t, [a]));
    SortedUniqueProps(less, AllSerialKeys([a]));
    assert AllSerialKeys([a]) == SerialKeys(a);
  }

  /** With all locks held, a task with one current guard passes its recheck. */
  lemma PassRecheck(less: Order, cmds: seq<Cmd>, s: Sys, t: TaskId) returns (cmds': seq<Cmd>, s': Sys)
    requires Exec(less, cmds) == Some(s) && t in s.tasks && s.tasks[t].pc == Acquire(|s.tasks[t].plan|)
    requires |s.tasks[t].guards| == 1 && !Older(s.epoch, s.tasks[t].guards[0])
    ensures Exec(less, cmds') == Some(s') && s'.tasks == s.tasks[t := s.tasks[t].(pc := Recheck(1))]
    ensures s'.epoch == s.epoch && s'.started == s.started && s'.table == s.table
  {
    var s1 := DoMove(s, t, AllHeld);
    var cmds1 := ExecSnoc(less, cmds, s, Step(t, AllHeld));
    s' := DoMove(s1, t, Check);
    cmds' := ExecSnoc(less, cmds1, s1, Step(t, Check));
  }

  /** A freshly spawned single-action task reaches the point just before it starts. */
  lemma ReachRecheck(less: Order, cmds: seq<Cmd>, s: Sys, t: TaskId, a: Action) returns (cmds': seq<Cmd>, s': Sys)
    requires StrictTotal(less) && Exec(less, cmds) == Some(s) && t !in s.tasks
    requires !Older(Remember(s.epoch, a), a)
    requires forall key :: key in SerialKeys(a) ==> key !in s.table
    ensures Exec(less, cmds') == Some(s') && t in s'.tasks && s'.tasks == s.tasks[t := s'.tasks[t]]
    ensures s'.tasks[t].guards == [a] && s'.tasks[t].pc == Recheck(1) && s'.started == s.started
    ensures s'.epoch == Remember(s.epoch, a) && forall x :: x in s'.tasks[t].plan <==> x in SerialKeys(a)
  {
    var cmds1, s1 := ReachSpawn(less, cmds, s, t, a);
    forall i | 0 <= i < |s1.tasks[t].plan| ensures s1.tasks[t].plan[i] !in s1.table {
      assert s1.tasks[t].plan[i] in s1.tasks[t].plan;
    }
    var cmds2, s2 := AcquireAll(less, cmds1, s1, t);
    cmds', s' := PassRecheck(less, cmds2, s2, t);
  }

  /** Whatever the table holds is used by the only task there is, so a disjoint plan is free. */
  lemma {:induction false} OnlyOneTaskUses(less: Order, cmds: seq<Cmd>, s: Sys, t: TaskId, a: Action, key: SerialKey)
    requires StrictTotal(less) && Exec(less, cmds) == Some(s) && s.tasks.Keys == {t}
    requires forall x :: x in s.tasks[t].plan <==> x in SerialKeys(a)
    requires key !in SerialKeys(a)
    ensures key !in s.table
  {
    InvRun(less, cmds);
    assert RefsExact(s, key);
    assert Users(s, key) == {};
  }

  /**
   For every split-tunnel pair there is a run in which the newer action starts
   first, the older one starts after it, and both execute at the same time: the
   exclusion in NoOverlap and IssueTimeOrder cannot be widened.
   */
  lemma SplitTunnelIsUnsafe(less: Order, a: Action, b: Action) returns (s: Sys)
    requires StrictTotal(less) && SharesStaleKey(a, b) && SplitTunnel(a, b) && 0 < a.issuedAt < b.issuedAt
    ensures Reachable(less, s) && s.started == [1, 0]
    ensures s.tasks.Keys == {0, 1} && s.tasks[0].guards == [a] && s.tasks[1].guards == [b]
    ensures s.tasks[0].pc.Running? && s.tasks[1].pc.Running?
  {
    StaleShareIsSerialShare(a, b);
    NotOlderAfterRemember(map[], a);
    var cmds1, s1 := ReachRecheck(less, [], INIT, 0, a);
    forall key | key in SerialKeys(b) ensures key !in s1.table {
      OnlyOneTaskUses(less, cmds1, s1, 0, a, key);
    }
    NotOlderAfterRemember(s1.epoch, b);
    var cmds2, s2 := ReachRecheck(less, cmds1, s1, 1, b);
    var cmds3;
    cmds3, s := BeginBoth(less, cmds2, s2);
  }

  /** The newer tunnel apply and the older rule apply at work on one tunnel at once. */
  lemma TunnelAppliesOverlap(less: Order) returns (s: Sys)
    requires StrictTotal(less)
    ensures Reachable(less, s) && s.started == [1, 0] && s.tasks.Keys == {0, 1}
    ensures s.tasks[0].guards == [RULE_APPLY] && s.tasks[0].pc.Running?
    ensures s.tasks[1].guards == [TUNNEL_APPLY] && s.tasks[1].pc.Running?
  {
    RuleAndTunnelApplySplit();
    s := SplitTunnelIsUnsafe(less, RULE_APPLY, TUNNEL_APPLY);
  }

  lemma BeginBoth(less: Order, cmds: seq<Cmd>, s: Sys) returns (cmds': seq<Cmd>, s': Sys)
    requires Exec(less, cmds) == Some(s) && s.tasks.Keys == {0, 1} && s.started == []
    requires s.tasks[0].pc == Recheck(|s.tasks[0].guards|) && s.tasks[1].pc == Recheck(|s.tasks[1].guards|)
    ensures Exec(less, cmds') == Some(s') && s'.started == [1, 0] && s'.tasks.Keys == {0, 1}
    ensures s'.tasks[0] == s.tasks[0].(pc := Running) && s'.tasks[1] == s.tasks[1].(pc := Running)
  {
    var s1 := DoMove(s, 1, Begin);
    var cmds1 := ExecSnoc(less, cmds, s, Step(1, Begin));
    s' := DoMove(s1, 0, Begin);
    cmds' := ExecSnoc(less, cmds1, s1, Step(0, Begin));
  }

  lemma NotOlderAfterRemember(m: EpochMap, a: Action)
    requires forall k :: Latest(m, k) <= a.issuedAt
    ensures !Older(Remember(m, a), a) && forall k :: Latest(Remember(m, a), k) <= a.issuedAt
  {
    forall k ensures Latest(Remember(m, a), k) <= a.issuedAt {
      RaisedValue(m, StaleKeys(a), a.issuedAt, k);
    }
  }
}
