/**
 The reference-counted table of serial locks and the tasks that take them
 (agent/actions.go, acquireActionSerialLocks and its callers), as a transition
 system. A task is anything that runs under serial locks: a worker's action, a
 single handoff finalization, or a batch finalization with several guards.
 Each command below is one atomic region of the source.
 */
module SerialLocks {
  import opened ActionKeys
  import opened Options
  import opened Epochs

  type TaskId = nat
  type LockId = nat

  /** The order in which keys are sorted; the theorems hold for every strict total order. */
  type Order = (SerialKey, SerialKey) -> bool

  ghost predicate StrictTotal(less: Order) {
    && (forall a :: !less(a, a))
    && (forall a, b, c :: less(a, b) && less(b, c) ==> less(a, c))
    && (forall a, b :: a != b ==> less(a, b) || less(b, a))
  }

  ghost predicate Ascending(less: Order, s: seq<SerialKey>) {
    forall i, j :: 0 <= i < j < |s| ==> less(s[i], s[j])
  }

  function Insert(less: Order, k: SerialKey, s: seq<SerialKey>): seq<SerialKey> {
    if s == [] then [k]
    else if k == s[0] then s
    else if less(k, s[0]) then [k] + s
    else [s[0]] + Insert(less, k, s[1..])
  }

  /** The keys sorted, each once. */
  function SortedUnique(less: Order, keys: seq<SerialKey>): seq<SerialKey> {
    if keys == [] then [] else Insert(less, keys[0], SortedUnique(less, keys[1..]))
  }

  lemma {:induction false} InsertProps(less: Order, k: SerialKey, s: seq<SerialKey>)
    requires StrictTotal(less) && Ascending(less, s)
    ensures Ascending(less, Insert(less, k, s))
    ensures forall x :: x in Insert(less, k, s) <==> x == k || x in s
  {
    if s != [] && k != s[0] && !less(k, s[0]) {
      InsertProps(less, k, s[1..]);
      var r := Insert(less, k, s[1..]);
      assert s == [s[0]] + s[1..];
      forall j | 0 <= j < |r| ensures less(s[0], r[j]) {
        assert r[j] in r;
      }
    } else if s != [] && less(k, s[0]) {
      assert Insert(less, k, s) == [k] + s;
    }
  }

  lemma {:induction false} SortedUniqueProps(less: Order, keys: seq<SerialKey>)
    requires StrictTotal(less)
    ensures Ascending(less, SortedUnique(less, keys))
    ensures forall x :: x in SortedUnique(less, keys) <==> x in keys
  {
    if keys != [] {
      SortedUniqueProps(less, keys[1..]);
      InsertProps(less, keys[0], SortedUnique(less, keys[1..]));
      assert keys == [keys[0]] + keys[1..];
    }
  }

  function AllSerialKeys(guards: seq<Action>): seq<SerialKey> {
    if guards == [] then [] else SerialKeys(guards[0]) + AllSerialKeys(guards[1..])
  }

  lemma {:induction false} AllSerialKeysContains(guards: seq<Action>, a: Action, k: SerialKey)
    requires a in guards && k in SerialKeys(a)
    ensures k in AllSerialKeys(guards)
  {
    if a != guards[0] {
      AllSerialKeysContains(guards[1..], a, k);
    }
  }

  /** refs counts the tasks that have registered with the lock; owner is the mutex holder. */
  datatype LockObj = LockObj(refs: int, owner: Option<TaskId>)

  datatype PC =
    | Acquire(held: nat)     // about to register for plan[held]
    | Wait(held: nat)        // registered for plan[held], blocked on its mutex
    | Recheck(passed: nat)   // holds every lock, guards[..passed] found current
    | Running
    | Unlock(left: nat)      // holds plan[..left], about to unlock plan[left - 1]
    | Deref(left: nat)       // plan[left - 1] unlocked but still counted in refs
    | Done

  datatype Task = Task(guards: seq<Action>, plan: seq<SerialKey>, ids: seq<LockId>, pc: PC)

  datatype Sys = Sys(
    table: map<SerialKey, LockId>,
    locks: map<LockId, LockObj>,
    next: LockId,
    tasks: map<TaskId, Task>,
    epoch: EpochMap,
    accepted: set<Action>,
    started: seq<TaskId>)

  /** The steps of a task; each is atomic under the mutexes of the source. */
  datatype Move = Register | Lock | AllHeld | Check | Begin | Finish | Release | Drop | Exit

  datatype Cmd =
    | Submit(a: Action)
    | Spawn(t: TaskId, guards: seq<Action>)
    | Step(t: TaskId, move: Move)

  const INIT := Sys(map[], map[], 0, map[], map[], {}, [])

  ghost predicate CanMove(s: Sys, t: TaskId, m: Move)
    requires t in s.tasks
  {
    var k := s.tasks[t];
    match m
    case Register => k.pc.Acquire? && k.pc.held < |k.plan| &&
      (k.plan[k.pc.held] in s.table ==> s.table[k.plan[k.pc.held]] in s.locks)
    case Lock => k.pc.Wait? && k.pc.held < |k.ids| && k.ids[k.pc.held] in s.locks &&
      s.locks[k.ids[k.pc.held]].owner.None?
    case AllHeld => k.pc.Acquire? && k.pc.held == |k.plan|
    case Check => k.pc.Recheck? && k.pc.passed < |k.guards|
    case Begin => k.pc.Recheck? && k.pc.passed == |k.guards|
    case Finish => k.pc.Running?
    case Release => k.pc.Unlock? && 0 < k.pc.left <= |k.ids| && k.ids[k.pc.left - 1] in s.locks
    case Drop => k.pc.Deref? && 0 < k.pc.left <= |k.ids| && k.pc.left <= |k.plan| && k.ids[k.pc.left - 1] in s.locks
    case Exit => k.pc.Unlock? && k.pc.left == 0
  }

  ghost function DoMove(s: Sys, t: TaskId, m: Move): Sys
    requires t in s.tasks && CanMove(s, t, m)
  {
    var k := s.tasks[t];
    match m
    case Register => DoRegister(s, t)
    case Lock =>
      var l := k.ids[k.pc.held];
      s.(locks := s.locks[l := s.locks[l].(owner := Some(t))],
         tasks := s.tasks[t := k.(pc := Acquire(k.pc.held + 1))])
    case AllHeld => s.(tasks := s.tasks[t := k.(pc := Recheck(0))])
    case Check =>
      var pc' := if Older(s.epoch, k.guards[k.pc.passed]) then Unlock(|k.plan|) else Recheck(k.pc.passed + 1);
      s.(tasks := s.tasks[t := k.(pc := pc')])
    case Begin => s.(tasks := s.tasks[t := k.(pc := Running)], started := s.started + [t])
    case Finish => s.(tasks := s.tasks[t := k.(pc := Unlock(|k.plan|))])
    case Release =>
      var l := k.ids[k.pc.left - 1];
      s.(locks := s.locks[l := s.locks[l].(owner := None)],
         tasks := s.tasks[t := k.(pc := Deref(k.pc.left))])
    case Drop => DoDrop(s, t)
    case Exit => s.(tasks := s.tasks[t := k.(pc := Done)])
  }

  ghost predicate Enabled(s: Sys, c: Cmd) {
    match c
    case Submit(_) => true
    case Spawn(t, guards) => t !in s.tasks && forall a :: a in guards ==> a in s.accepted
    case Step(t, m) => t in s.tasks && CanMove(s, t, m)
  }

  ghost function Do(less: Order, s: Sys, c: Cmd): Sys
    requires Enabled(s, c)
  {
    match c
    case Submit(a) => s.(epoch := Remember(s.epoch, a), accepted := s.accepted + {a})
    case Spawn(t, guards) =>
      s.(tasks := s.tasks[t := Task(guards, SortedUnique(less, AllSerialKeys(guards)), [], Acquire(0))])
    case Step(t, m) => DoMove(s, t, m)
  }

  /** Look the key up, or create its entry, and count one more reference. */
  ghost function DoRegister(s: Sys, t: TaskId): Sys
    requires t in s.tasks && CanMove(s, t, Register)
  {
    var k := s.tasks[t];
    var key := k.plan[k.pc.held];
    if key in s.table then
      var l := s.table[key];
      s.(locks := s.locks[l := s.locks[l].(refs := s.locks[l].refs + 1)],
         tasks := s.tasks[t := k.(ids := k.ids + [l], pc := Wait(k.pc.held))])
    else
      s.(table := s.table[key := s.next], locks := s.locks[s.next := LockObj(1, None)], next := s.next + 1,
         tasks := s.tasks[t := k.(ids := k.ids + [s.next], pc := Wait(k.pc.held))])
  }

  /** Count one reference less; the last one removes whatever entry the table has for the key. */
  ghost function DoDrop(s: Sys, t: TaskId): Sys
    requires t in s.tasks && CanMove(s, t, Drop)
  {
    var k := s.tasks[t];
    var l := k.ids[k.pc.left - 1];
    var refs := s.locks[l].refs - 1;
    s.(locks := s.locks[l := s.locks[l].(refs := refs)],
       table := if refs <= 0 then s.table - {k.plan[k.pc.left - 1]} else s.table,
       tasks := s.tasks[t := k.(ids := k.ids[..k.pc.left - 1], pc := Unlock(k.pc.left - 1))])
  }

  /** The state a run of commands leads to, if each was enabled when it was taken. */
  ghost function Exec(less: Order, cmds: seq<Cmd>): Option<Sys> {
    if cmds == [] then Some(INIT)
    else
      var before := Exec(less, cmds[..|cmds| - 1]);
      if before.None? || !Enabled(before.value, cmds[|cmds| - 1]) then None
      else Some(Do(less, before.value, cmds[|cmds| - 1]))
  }

  ghost predicate Reachable(less: Order, s: Sys) {
    exists cmds :: Exec(less, cmds) == Some(s)
  }

  // ---------------------------------------------------------------- invariant

  function HeldCount(k: Task): nat {
    match k.pc
    case Acquire(n) => n
    case Wait(n) => n
    case Recheck(_) => |k.plan|
    case Running => |k.plan|
    case Unlock(n) => n
    case Deref(n) => if n > 0 then n - 1 else 0
    case Done => 0
  }

  /** The task owns the mutex of `key`. */
  ghost predicate Holds(k: Task, key: SerialKey) {
    HeldCount(k) <= |k.plan| && key in k.plan[..HeldCount(k)]
  }

  /** The task is counted in the reference count of `key`: it holds, waits for, or is just leaving it. */
  ghost predicate Uses(k: Task, key: SerialKey) {
    |k.ids| <= |k.plan| && key in k.plan[..|k.ids|]
  }

  ghost function Users(s: Sys, key: SerialKey): set<TaskId> {
    set t | t in s.tasks && Uses(s.tasks[t], key)
  }

  /** The program counter agrees with the locks registered; no key is planned twice. */
  ghost predicate Shape(k: Task) {
    && (forall i, j :: 0 <= i < j < |k.plan| ==> k.plan[i] != k.plan[j])
    && match k.pc
       case Acquire(n) => n <= |k.plan| && |k.ids| == n
       case Wait(n) => n < |k.plan| && |k.ids| == n + 1
       case Recheck(i) => i <= |k.guards| && |k.ids| == |k.plan|
       case Running => |k.ids| == |k.plan|
       case Unlock(n) => n <= |k.plan| && |k.ids| == n
       case Deref(n) => 0 < n <= |k.plan| && |k.ids| == n
       case Done => |k.ids| == 0
  }

  /** The plan is sorted and covers the serial keys of every guard. */
  ghost predicate PlanOk(less: Order, k: Task) {
    && Ascending(less, k.plan)
    && (forall a, key :: a in k.guards && key in SerialKeys(a) ==> key in k.plan)
  }

  /** Whatever a task remembers as its lock for a key is the table's current entry for that key. */
  ghost predicate Linked(s: Sys, k: Task) {
    forall j :: 0 <= j < |k.ids| && j < |k.plan| ==> k.plan[j] in s.table && s.table[k.plan[j]] == k.ids[j]
  }

  ghost predicate RefsExact(s: Sys, key: SerialKey) {
    && (key in s.table <==> Users(s, key) != {})
    && (key in s.table ==> s.table[key] in s.locks && s.locks[s.table[key]].refs == |Users(s, key)|)
  }

  ghost function OwnerOf(s: Sys, key: SerialKey): Option<TaskId> {
    if key in s.table && s.table[key] in s.locks then s.locks[s.table[key]].owner else None
  }

  ghost predicate OwnerExact(s: Sys, key: SerialKey) {
    forall t :: t in s.tasks && Holds(s.tasks[t], key) <==> OwnerOf(s, key) == Some(t)
  }

  ghost predicate Inv(s: Sys) {
    && (forall t :: t in s.tasks ==> Shape(s.tasks[t]) && Linked(s, s.tasks[t]))
    && (forall key :: RefsExact(s, key))
    && (forall key :: OwnerExact(s, key))
    && (forall a, b :: a in s.table && b in s.table && s.table[a] == s.table[b] ==> a == b)
    && (forall l :: l in s.locks ==> l < s.next)
  }

  ghost predicate PlanInv(less: Order, s: Sys) {
    forall t :: t in s.tasks ==> PlanOk(less, s.tasks[t])
  }

  // What one key's clauses need when a single task changes.

  lemma UsersAfter(s: Sys, s': Sys, t: TaskId, k': Task, key: SerialKey)
    requires s'.tasks == s.tasks[t := k']
    ensures Users(s', key) == if Uses(k', key) then Users(s, key) + {t} else Users(s, key) - {t}
  {
  }

  ghost predicate UsedBy(s: Sys, t: TaskId, key: SerialKey) {
    t in s.tasks && Uses(s.tasks[t], key)
  }

  ghost predicate HeldBy(s: Sys, t: TaskId, key: SerialKey) {
    t in s.tasks && Holds(s.tasks[t], key)
  }

  ghost function RefsOf(s: Sys, key: SerialKey): int {
    if key in s.table && s.table[key] in s.locks then s.locks[s.table[key]].refs else 0
  }

  /** Counts follow when the entry's count changes by as much as the task's use. */
  lemma RefsAfter(s: Sys, s': Sys, t: TaskId, k': Task, key: SerialKey)
    requires s'.tasks == s.tasks[t := k'] && RefsExact(s, key)
    requires key in s'.table ==> s'.table[key] in s'.locks
    requires RefsOf(s', key) - RefsOf(s, key) == (if Uses(k', key) then 1 else 0) - (if UsedBy(s, t, key) then 1 else 0)
    requires key in s'.table <==> RefsOf(s', key) > 0
    ensures RefsExact(s', key)
  {
    UsersAfter(s, s', t, k', key);
    assert RefsOf(s, key) == |Users(s, key)|;
    assert t in Users(s, key) <==> UsedBy(s, t, key);
    assert RefsOf(s', key) == |Users(s', key)|;
  }

  lemma OwnerAfter(s: Sys, s': Sys, t: TaskId, k': Task, key: SerialKey)
    requires s'.tasks == s.tasks[t := k'] && OwnerExact(s, key)
    requires if Holds(k', key) == HeldBy(s, t, key) then OwnerOf(s', key) == OwnerOf(s, key)
             else if Holds(k', key) then OwnerOf(s, key) == None && OwnerOf(s', key) == Some(t)
             else OwnerOf(s', key) == None
    ensures OwnerExact(s', key)
  {
    forall u ensures u in s'.tasks && Holds(s'.tasks[u], key) <==> OwnerOf(s', key) == Some(u) {
      assert HeldBy(s, u, key) <==> OwnerOf(s, key) == Some(u);
      assert HeldBy(s, t, key) <==> OwnerOf(s, key) == Some(t);
    }
  }

  /** Using and holding, for the key at a given position. */
  lemma UsesIndex(k: Task, i: nat)
    requires Shape(k) && i < |k.plan|
    ensures Uses(k, k.plan[i]) <==> i < |k.ids|
    ensures Holds(k, k.plan[i]) <==> i < HeldCount(k)
  {
    if i < |k.ids| {
      assert k.plan[..|k.ids|][i] == k.plan[i];
    }
    if i < HeldCount(k) {
      assert k.plan[..HeldCount(k)][i] == k.plan[i];
    }
  }

  lemma HoldsUses(k: Task, key: SerialKey)
    requires Shape(k)
    ensures Holds(k, key) ==> Uses(k, key)
  {
    if Holds(k, key) {
      var j :| 0 <= j < HeldCount(k) && k.plan[..HeldCount(k)][j] == key;
      assert k.plan[..|k.ids|][j] == key;
    }
  }

  lemma NotUsed(k: Task, key: SerialKey)
    requires |k.ids| <= |k.plan| && !Uses(k, key)
    ensures forall j :: 0 <= j < |k.ids| ==> k.plan[j] != key
  {
    forall j | 0 <= j < |k.ids| ensures k.plan[j] != key {
      assert k.plan[..|k.ids|][j] == k.plan[j];
    }
  }

  /** Everything the invariant says about one task and one key. */
  lemma InvAt(s: Sys, t: TaskId, key: SerialKey)
    requires Inv(s) && t in s.tasks
    ensures Shape(s.tasks[t]) && Linked(s, s.tasks[t])
    ensures RefsExact(s, key) && OwnerExact(s, key)
    ensures key in s.table ==> s.table[key] in s.locks && s.table[key] < s.next
  {
    assert RefsExact(s, key) && OwnerExact(s, key);
  }

  lemma InvSpread(s: Sys, a: SerialKey, b: SerialKey)
    requires Inv(s) && a in s.table && b in s.table && a != b
    ensures s.table[a] != s.table[b]
  {
  }

  /** The parts of the invariant, assembled. */
  lemma InvFrom(s: Sys)
    requires forall t :: t in s.tasks ==> Shape(s.tasks[t]) && Linked(s, s.tasks[t])
    requires forall key :: RefsExact(s, key) && OwnerExact(s, key)
    requires forall a, b :: a in s.table && b in s.table && s.table[a] == s.table[b] ==> a == b
    requires forall l :: l in s.locks ==> l < s.next
    ensures Inv(s)
  {
  }

  /** A step that changes neither the locks nor what the task holds or uses. */
  lemma InvQuiet(s: Sys, s': Sys, t: TaskId)
    requires Inv(s) && t in s'.tasks && Shape(s'.tasks[t])
    requires s'.table == s.table && s'.locks == s.locks && s'.next == s.next
    requires s'.tasks == s.tasks[t := s'.tasks[t]]
    requires var k' := s'.tasks[t];
             if t in s.tasks then k'.plan == s.tasks[t].plan && k'.ids == s.tasks[t].ids && HeldCount(k') == HeldCount(s.tasks[t])
             else k'.ids == [] && HeldCount(k') == 0
    ensures Inv(s')
  {
    forall key ensures RefsExact(s', key) && OwnerExact(s', key) {
      assert RefsExact(s, key) && OwnerExact(s, key);
      RefsAfter(s, s', t, s'.tasks[t], key);
      OwnerAfter(s, s', t, s'.tasks[t], key);
    }
    InvFrom(s');
  }

  lemma RegisterKey(s: Sys, t: TaskId, key: SerialKey)
    requires t in s.tasks && CanMove(s, t, Register)
    requires Shape(s.tasks[t]) && RefsExact(s, key) && OwnerExact(s, key)
    requires key in s.table ==> s.table[key] in s.locks && s.table[key] < s.next
    requires var want := s.tasks[t].plan[s.tasks[t].pc.held];
             key in s.table && want in s.table && key != want ==> s.table[key] != s.table[want]
    ensures RefsExact(DoRegister(s, t), key) && OwnerExact(DoRegister(s, t), key)
  {
    var k, s' := s.tasks[t], DoRegister(s, t);
    var n, k' := k.pc.held, s'.tasks[t];
    UsesIndex(k, n);
    assert k'.plan[..n + 1] == k.plan[..n] + [k.plan[n]];
    assert Uses(k', key) <==> Uses(k, key) || key == k.plan[n];
    assert Holds(k', key) <==> Holds(k, key);
    RefsAfter(s, s', t, k', key);
    OwnerAfter(s, s', t, k', key);
  }

  lemma InvRegister(s: Sys, t: TaskId)
    requires Inv(s) && t in s.tasks && CanMove(s, t, Register)
    ensures Inv(DoRegister(s, t))
  {
    var s' := DoRegister(s, t);
    var want := s.tasks[t].plan[s.tasks[t].pc.held];
    forall key ensures RefsExact(s', key) && OwnerExact(s', key) {
      InvAt(s, t, key);
      if key in s.table && want in s.table && key != want {
        InvSpread(s, key, want);
      }
      RegisterKey(s, t, key);
    }
    forall b | b in s.table ensures s.table[b] < s.next {
      InvAt(s, t, b);
    }
    InvFrom(s');
  }

  /** Taking or releasing the mutex of plan[n] leaves the counts alone and moves one ownership. */
  lemma MutexKey(s: Sys, s': Sys, t: TaskId, n: nat, o: Option<TaskId>, key: SerialKey)
    requires t in s.tasks && n < |s.tasks[t].ids| && n < |s.tasks[t].plan| && s.tasks[t].ids[n] in s.locks && t in s'.tasks
    requires var k, k', l := s.tasks[t], s'.tasks[t], s.tasks[t].ids[n];
             && s'.table == s.table && s'.tasks == s.tasks[t := k'] && s'.locks == s.locks[l := s.locks[l].(owner := o)]
             && k'.plan == k.plan && k'.ids == k.ids
             && (if o.None? then HeldCount(k) == n + 1 && HeldCount(k') == n
                 else o.value == t && s.locks[l].owner.None? && HeldCount(k) == n && HeldCount(k') == n + 1)
    requires Shape(s.tasks[t]) && Linked(s, s.tasks[t]) && RefsExact(s, key) && OwnerExact(s, key)
    requires key in s.table ==> s.table[key] in s.locks && (s.table[key] == s.tasks[t].ids[n] ==> key == s.tasks[t].plan[n])
    ensures RefsExact(s', key) && OwnerExact(s', key)
  {
    var k, k' := s.tasks[t], s'.tasks[t];
    RefsAfter(s, s', t, k', key);
    assert k.plan[..n + 1] == k.plan[..n] + [k.plan[n]];
    UsesIndex(k, n);
    OwnerAfter(s, s', t, k', key);
  }

  lemma InvMutex(s: Sys, s': Sys, t: TaskId, n: nat, o: Option<TaskId>)
    requires t in s.tasks && n < |s.tasks[t].ids| && n < |s.tasks[t].plan| && s.tasks[t].ids[n] in s.locks && t in s'.tasks
    requires var k, k', l := s.tasks[t], s'.tasks[t], s.tasks[t].ids[n];
             && s'.table == s.table && s'.tasks == s.tasks[t := k'] && s'.locks == s.locks[l := s.locks[l].(owner := o)]
             && k'.plan == k.plan && k'.ids == k.ids
             && (if o.None? then HeldCount(k) == n + 1 && HeldCount(k') == n
                 else o.value == t && s.locks[l].owner.None? && HeldCount(k) == n && HeldCount(k') == n + 1)
    requires Inv(s) && Shape(s'.tasks[t]) && s'.next == s.next
    ensures Inv(s')
  {
    forall key ensures RefsExact(s', key) && OwnerExact(s', key) {
      InvAt(s, t, key);
      if key in s.table && key != s.tasks[t].plan[n] {
        InvSpread(s, key, s.tasks[t].plan[n]);
      }
      MutexKey(s, s', t, n, o, key);
    }
    InvFrom(s');
  }

  lemma DropKey(s: Sys, t: TaskId, key: SerialKey)
    requires t in s.tasks && CanMove(s, t, Drop)
    requires Shape(s.tasks[t]) && Linked(s, s.tasks[t]) && RefsExact(s, key) && OwnerExact(s, key)
    requires key in s.table ==>
               s.table[key] in s.locks &&
               (s.table[key] == s.tasks[t].ids[s.tasks[t].pc.left - 1] ==> key == s.tasks[t].plan[s.tasks[t].pc.left - 1])
    requires OwnerOf(s, key).Some? ==> OwnerOf(s, key).value in s.tasks && Shape(s.tasks[OwnerOf(s, key).value])
    ensures RefsExact(DoDrop(s, t), key) && OwnerExact(DoDrop(s, t), key)
  {
    var k, s' := s.tasks[t], DoDrop(s, t);
    var n, k' := k.pc.left - 1, s'.tasks[t];
    UsesIndex(k, n);
    UsesIndex(k', n);
    assert k.plan[..n + 1] == k.plan[..n] + [k.plan[n]];
    RefsAfter(s, s', t, k', key);
    if OwnerOf(s, key).Some? {
      var u := OwnerOf(s, key).value;
      assert HeldBy(s, u, key);
      HoldsUses(s.tasks[u], key);
      assert u in Users(s, key);
      assert u != t || key != k.plan[n];
      UsersAfter(s, s', t, k', key);
      assert u in Users(s', key);
    }
    OwnerAfter(s, s', t, k', key);
  }

  /** Only the last reference removes an entry, so no other task loses its lock. */
  lemma DropLinks(s: Sys, t: TaskId, u: TaskId)
    requires t in s.tasks && CanMove(s, t, Drop) && u in s.tasks
    requires Shape(s.tasks[t]) && Linked(s, s.tasks[t]) && Shape(s.tasks[u]) && Linked(s, s.tasks[u])
    requires RefsExact(s, s.tasks[t].plan[s.tasks[t].pc.left - 1])
    ensures Linked(DoDrop(s, t), DoDrop(s, t).tasks[u])
  {
    var k, s' := s.tasks[t], DoDrop(s, t);
    var gone := k.plan[k.pc.left - 1];
    UsesIndex(k, k.pc.left - 1);
    UsesIndex(s'.tasks[t], k.pc.left - 1);
    if gone !in s'.table {
      if u != t && Uses(s.tasks[u], gone) {
        assert {u, t} <= Users(s, gone);
        SubsetCard({u, t}, Users(s, gone));
        assert false;
      }
      NotUsed(s'.tasks[u], gone);
    }
  }

  lemma {:induction false} SubsetCard<T>(a: set<T>, b: set<T>)
    requires a <= b
    ensures |a| <= |b|
  {
    if a != {} {
      var x :| x in a;
      SubsetCard(a - {x}, b - {x});
    }
  }

  lemma InvDrop(s: Sys, t: TaskId)
    requires Inv(s) && t in s.tasks && CanMove(s, t, Drop)
    ensures Inv(DoDrop(s, t))
  {
    var s' := DoDrop(s, t);
    var gone := s.tasks[t].plan[s.tasks[t].pc.left - 1];
    forall key ensures RefsExact(s', key) && OwnerExact(s', key) {
      InvAt(s, t, key);
      if key in s.table && key != gone {
        InvSpread(s, key, gone);
      }
      if OwnerOf(s, key).Some? {
        assert HeldBy(s, OwnerOf(s, key).value, key);
      }
      DropKey(s, t, key);
    }
    forall u | u in s'.tasks ensures Shape(s'.tasks[u]) && Linked(s', s'.tasks[u]) {
      InvAt(s, t, gone);
      InvAt(s, u, gone);
      DropLinks(s, t, u);
    }
    InvFrom(s');
  }

  lemma MovePlan(s: Sys, t: TaskId, m: Move)
    requires t in s.tasks && CanMove(s, t, m)
    ensures var k' := DoMove(s, t, m).tasks;
            k' == s.tasks[t := k'[t]] && k'[t].plan == s.tasks[t].plan && k'[t].guards == s.tasks[t].guards
  {
  }

  lemma {:induction false} SpawnPlan(less: Order, guards: seq<Action>, k: Task)
    requires StrictTotal(less) && k.plan == SortedUnique(less, AllSerialKeys(guards)) && k.guards == guards
    ensures PlanOk(less, k)
  {
    SortedUniqueProps(less, AllSerialKeys(guards));
    forall a, key | a in guards && key in SerialKeys(a) ensures key in AllSerialKeys(guards) {
      AllSerialKeysContains(guards, a, key);
    }
  }

  lemma PlanAfter(less: Order, s: Sys, c: Cmd)
    requires StrictTotal(less) && PlanInv(less, s) && Enabled(s, c)
    ensures PlanInv(less, Do(less, s, c))
  {
    match c
    case Submit(_) =>
    case Spawn(t, guards) => SpawnPlan(less, guards, Do(less, s, c).tasks[t]);
    case Step(t, m) =>
      MovePlan(s, t, m);
      assert PlanOk(less, s.tasks[t]);
  }

  lemma InvSubmit(s: Sys, s': Sys)
    requires Inv(s) && s'.table == s.table && s'.locks == s.locks && s'.next == s.next && s'.tasks == s.tasks
    ensures Inv(s')
  {
    forall key ensures RefsExact(s', key) && OwnerExact(s', key) {
      assert RefsExact(s, key) && OwnerExact(s, key);
      assert Users(s', key) == Users(s, key);
    }
    InvFrom(s');
  }

  lemma InvSpawn(less: Order, s: Sys, t: TaskId, guards: seq<Action>)
    requires StrictTotal(less) && Inv(s) && Enabled(s, Spawn(t, guards))
    ensures Inv(Do(less, s, Spawn(t, guards)))
  {
    var s' := Do(less, s, Spawn(t, guards));
    assert Shape(s'.tasks[t]) by {
      SortedUniqueProps(less, AllSerialKeys(guards));
    }
    InvQuiet(s, s', t);
  }

  lemma QuietShape(s: Sys, t: TaskId, m: Move)
    requires t in s.tasks && CanMove(s, t, m) && m in {AllHeld, Check, Begin, Finish, Exit} && Shape(s.tasks[t])
    ensures var s' := DoMove(s, t, m);
            && s'.table == s.table && s'.locks == s.locks && s'.next == s.next && s'.tasks == s.tasks[t := s'.tasks[t]]
            && Shape(s'.tasks[t]) && s'.tasks[t].plan == s.tasks[t].plan && s'.tasks[t].ids == s.tasks[t].ids
            && HeldCount(s'.tasks[t]) == HeldCount(s.tasks[t])
  {
  }

  lemma InvMove(s: Sys, t: TaskId, m: Move)
    requires Inv(s) && t in s.tasks && CanMove(s, t, m)
    ensures Inv(DoMove(s, t, m))
  {
    if m.Register? {
      InvRegister(s, t);
    } else if m.Lock? {
      InvMutex(s, DoMove(s, t, m), t, s.tasks[t].pc.held, Some(t));
    } else if m.Release? {
      InvMutex(s, DoMove(s, t, m), t, s.tasks[t].pc.left - 1, None);
    } else if m.Drop? {
      InvDrop(s, t);
    } else {
      QuietShape(s, t, m);
      InvQuiet(s, DoMove(s, t, m), t);
    }
  }

  lemma InvStep(less: Order, s: Sys, c: Cmd)
    requires StrictTotal(less) && Inv(s) && Enabled(s, c)
    ensures Inv(Do(less, s, c))
  {
    match c
    case Submit(a) => InvSubmit(s, Do(less, s, c));
    case Spawn(t, guards) => InvSpawn(less, s, t, guards);
    case Step(t, m) => InvMove(s, t, m);
  }

  lemma {:induction false} InvRun(less: Order, cmds: seq<Cmd>)
    requires StrictTotal(less) && Exec(less, cmds).Some?
    ensures Inv(Exec(less, cmds).value) && PlanInv(less, Exec(less, cmds).value)
  {
    if cmds == [] {
      forall key ensures RefsExact(INIT, key) && OwnerExact(INIT, key) {
        assert Users(INIT, key) == {};
      }
    } else {
      var before := Exec(less, cmds[..|cmds| - 1]).value;
      InvRun(less, cmds[..|cmds| - 1]);
      InvStep(less, before, cmds[|cmds| - 1]);
      PlanAfter(less, before, cmds[|cmds| - 1]);
    }
  }
}
