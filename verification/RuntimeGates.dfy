/**
 The gates in front of the serial locks (agent/actions.go, acquireSharedRuntimeSyncGate
 and actionWorkerLoop). Rewriting a shared runtime takes its gate alone, the actions
 that the runtime serves take it together, and whoever has a gate goes on to take serial
 locks while holding it. The gate is left after the locks, or early while the action runs.
 */
module RuntimeGates {
  import opened Options
  import opened Planner
  import opened PlanRules
  import L = SerialLocks
  import O = ActionOrder
  import A = ActionKeys

  type TaskId = L.TaskId

  datatype GateId = GostGate | NginxGate

  datatype Role = NoGate | Read(gate: GateId) | Write(gate: GateId)

  function RoleOf(a: PlanAction): Role {
    if a.runtimeStatus && a.forwardType.GostSync? then Write(GostGate)
    else if a.runtimeStatus && a.forwardType.NginxSync? then Write(NginxGate)
    else if a.runtimeStatus then NoGate
    else
      var owner := OwnerOfAction(a);
      if owner == Some(GostSync) then Read(GostGate)
      else if owner == Some(NginxSync) then Read(NginxGate)
      else NoGate
  }

  /**
   A gate is a read-write lock: a writer first keeps new readers and writers out, then waits for
   the readers inside. `writer` is set from then on until it leaves.
   */
  datatype Gate = Gate(writer: Option<TaskId>, readers: set<TaskId>)

  datatype Place = Outside | Announced | Inside | Past

  /** `jobs` says what a worker's task does; finalizations have none and take no gate. */
  datatype Sys = Sys(core: L.Sys, jobs: map<TaskId, PlanAction>, gates: map<GateId, Gate>, places: map<TaskId, Place>)

  datatype Cmd =
    | Submit(a: A.Action)
    | Spawn(t: TaskId, guards: seq<A.Action>, job: Option<PlanAction>)
    | Announce(t: TaskId)
    | Enter(t: TaskId)
    | Locks(t: TaskId, move: L.Move)
    | Leave(t: TaskId)

  const EMPTY := Gate(None, {})

  const INIT := Sys(L.INIT, map[], map[GostGate := EMPTY, NginxGate := EMPTY], map[])

  function RoleIn(s: Sys, t: TaskId): Role {
    if t in s.jobs then RoleOf(s.jobs[t]) else NoGate
  }

  function PlaceOf(s: Sys, t: TaskId): Place {
    if t in s.places then s.places[t] else Outside
  }

  function GateAt(s: Sys, g: GateId): Gate {
    if g in s.gates then s.gates[g] else EMPTY
  }

  predicate CanEnter(s: Sys, t: TaskId) {
    match RoleIn(s, t)
    case NoGate => PlaceOf(s, t).Outside?
    case Read(g) => PlaceOf(s, t).Outside? && GateAt(s, g).writer.None?
    case Write(g) => PlaceOf(s, t).Announced? && GateAt(s, g).readers == {}
  }

  ghost predicate Enabled(s: Sys, c: Cmd) {
    match c
    case Submit(_) => true
    case Spawn(t, guards, _) => L.Enabled(s.core, L.Spawn(t, guards))
    case Announce(t) =>
      t in s.core.tasks && RoleIn(s, t).Write? && PlaceOf(s, t).Outside? && GateAt(s, RoleIn(s, t).gate).writer.None?
    case Enter(t) => t in s.core.tasks && CanEnter(s, t)
    case Locks(t, m) => (PlaceOf(s, t).Inside? || PlaceOf(s, t).Past?) && L.Enabled(s.core, L.Step(t, m))
    case Leave(t) => PlaceOf(s, t).Inside? && t in s.core.tasks && (s.core.tasks[t].pc.Running? || s.core.tasks[t].pc.Done?)
  }

  function Entered(s: Sys, t: TaskId): map<GateId, Gate> {
    var role := RoleIn(s, t);
    if role.Read? then s.gates[role.gate := GateAt(s, role.gate).(readers := GateAt(s, role.gate).readers + {t})] else s.gates
  }

  function Left(s: Sys, t: TaskId): map<GateId, Gate> {
    var role := RoleIn(s, t);
    match role
    case NoGate => s.gates
    case Read(g) => s.gates[g := GateAt(s, g).(readers := GateAt(s, g).readers - {t})]
    case Write(g) => s.gates[g := GateAt(s, g).(writer := None)]
  }

  ghost function Do(less: L.Order, s: Sys, c: Cmd): Sys
    requires Enabled(s, c)
  {
    match c
    case Submit(a) => s.(core := L.Do(less, s.core, L.Submit(a)))
    case Spawn(t, guards, job) =>
      s.(core := L.Do(less, s.core, L.Spawn(t, guards)), jobs := if job.Some? then s.jobs[t := job.value] else s.jobs)
    case Announce(t) =>
      var g := RoleIn(s, t).gate;
      s.(gates := s.gates[g := GateAt(s, g).(writer := Some(t))], places := s.places[t := Announced])
    case Enter(t) => s.(gates := Entered(s, t), places := s.places[t := Inside])
    case Locks(t, m) => s.(core := L.Do(less, s.core, L.Step(t, m)))
    case Leave(t) => s.(gates := Left(s, t), places := s.places[t := Past])
  }

  ghost function Exec(less: L.Order, cmds: seq<Cmd>): Option<Sys> {
    if cmds == [] then Some(INIT)
    else
      var before := Exec(less, cmds[..|cmds| - 1]);
      if before.None? || !Enabled(before.value, cmds[|cmds| - 1]) then None
      else Some(Do(less, before.value, cmds[|cmds| - 1]))
  }

  ghost predicate Reachable(less: L.Order, s: Sys) {
    exists cmds :: Exec(less, cmds) == Some(s)
  }

  /** A step that is enabled can be taken. */
  lemma {:induction false} CanTake(less: L.Order, cmds: seq<Cmd>, s: Sys, c: Cmd)
    requires Exec(less, cmds) == Some(s) && Enabled(s, c)
    ensures Exec(less, cmds + [c]) == Some(Do(less, s, c))
  {
    assert (cmds + [c])[..|cmds|] == cmds;
  }

  // ---------------------------------------------------------------- invariant

  /** Between announcing itself and leaving, a writer is its gate's writer. */
  predicate Writes(s: Sys, t: TaskId, g: GateId) {
    RoleIn(s, t) == Write(g) && (PlaceOf(s, t).Announced? || PlaceOf(s, t).Inside?)
  }

  predicate Reads(s: Sys, t: TaskId, g: GateId) {
    RoleIn(s, t) == Read(g) && PlaceOf(s, t).Inside?
  }

  ghost predicate GateOk(s: Sys, g: GateId, t: TaskId) {
    && (GateAt(s, g).writer == Some(t) <==> Writes(s, t, g))
    && (t in GateAt(s, g).readers <==> Reads(s, t, g))
    && (Writes(s, t, g) && PlaceOf(s, t).Inside? ==> GateAt(s, g).readers == {})
  }

  /** Nobody registers for a lock before being past the gate's entrance. */
  ghost predicate PlaceOk(s: Sys, t: TaskId) {
    && (t !in s.core.tasks ==> t !in s.places && t !in s.jobs)
    && (PlaceOf(s, t).Announced? ==> RoleIn(s, t).Write?)
    && (PlaceOf(s, t).Outside? || PlaceOf(s, t).Announced? ==> t in s.core.tasks ==> s.core.tasks[t].pc == L.Acquire(0))
    && (PlaceOf(s, t).Past? ==> t in s.core.tasks && O.Late(s.core.tasks[t].pc))
  }

  ghost predicate Inv(s: Sys) {
    (forall g, t: TaskId :: GateOk(s, g, t)) && forall t: TaskId :: PlaceOk(s, t)
  }

  /** What leaves gates, places and jobs alone leaves the gates' clauses alone. */
  lemma GateSame(s: Sys, s': Sys, g: GateId, t: TaskId)
    requires GateOk(s, g, t) && s'.jobs == s.jobs && s'.gates == s.gates && s'.places == s.places
    ensures GateOk(s', g, t)
  {
  }

  lemma GateAct(less: L.Order, s: Sys, c: Cmd, g: GateId, t: TaskId)
    requires Inv(s) && Enabled(s, c) && (c.Announce? || c.Enter? || c.Leave?)
    ensures GateOk(Do(less, s, c), g, t)
  {
    assert GateOk(s, g, t) && GateOk(s, g, c.t) && PlaceOk(s, c.t);
  }

  lemma GateStep(less: L.Order, s: Sys, c: Cmd, g: GateId, t: TaskId)
    requires Inv(s) && Enabled(s, c)
    ensures GateOk(Do(less, s, c), g, t)
  {
    if c.Submit? || c.Locks? {
      GateSame(s, Do(less, s, c), g, t);
    } else if c.Spawn? {
      assert GateOk(s, g, t) && PlaceOk(s, c.t);
    } else {
      GateAct(less, s, c, g, t);
    }
  }

  /** A task that has run, or was turned away, has only its locks to give back. */
  lemma LateStays(s: L.Sys, t: TaskId, m: L.Move, u: TaskId)
    requires t in s.tasks && L.CanMove(s, t, m)
    ensures var s' := L.DoMove(s, t, m); s'.tasks.Keys == s.tasks.Keys && (u in s.tasks && u != t ==> s'.tasks[u] == s.tasks[u])
    ensures O.Late(s.tasks[t].pc) ==> O.Late(L.DoMove(s, t, m).tasks[t].pc)
  {
  }

  lemma PlaceLocks(less: L.Order, s: Sys, c: Cmd, t: TaskId)
    requires PlaceOk(s, t) && Enabled(s, c) && c.Locks?
    ensures PlaceOk(Do(less, s, c), t)
  {
    LateStays(s.core, c.t, c.move, t);
  }

  lemma PlaceAct(less: L.Order, s: Sys, c: Cmd, t: TaskId)
    requires PlaceOk(s, t) && Enabled(s, c) && (c.Announce? || c.Enter? || c.Leave?)
    ensures PlaceOk(Do(less, s, c), t)
  {
  }

  lemma PlaceStep(less: L.Order, s: Sys, c: Cmd, t: TaskId)
    requires PlaceOk(s, t) && Enabled(s, c)
    ensures PlaceOk(Do(less, s, c), t)
  {
    if c.Locks? {
      PlaceLocks(less, s, c, t);
    } else if c.Submit? || c.Spawn? {
    } else {
      PlaceAct(less, s, c, t);
    }
  }

  lemma InvStep(less: L.Order, s: Sys, c: Cmd)
    requires Inv(s) && Enabled(s, c)
    ensures Inv(Do(less, s, c))
  {
    var s' := Do(less, s, c);
    forall g, t: TaskId ensures GateOk(s', g, t) {
      GateStep(less, s, c, g, t);
    }
    forall t: TaskId ensures PlaceOk(s', t) {
      PlaceStep(less, s, c, t);
    }
  }

  lemma {:induction false} InvRun(less: L.Order, cmds: seq<Cmd>)
    requires Exec(less, cmds).Some?
    ensures Inv(Exec(less, cmds).value)
  {
    if cmds != [] {
      InvRun(less, cmds[..|cmds| - 1]);
      InvStep(less, Exec(less, cmds[..|cmds| - 1]).value, cmds[|cmds| - 1]);
    }
  }

  /** Behind the gates runs the lock table as it was, so all that is proved of it still holds. */
  lemma {:induction false} LocksRun(less: L.Order, cmds: seq<Cmd>) returns (core: seq<L.Cmd>)
    requires Exec(less, cmds).Some?
    ensures L.Exec(less, core) == Some(Exec(less, cmds).value.core)
  {
    if cmds == [] {
      core := [];
    } else {
      var last := cmds[|cmds| - 1];
      core := LocksRun(less, cmds[..|cmds| - 1]);
      var before := Exec(less, cmds[..|cmds| - 1]).value.core;
      match last
      case Submit(a) => core := O.ExecSnoc(less, core, before, L.Submit(a));
      case Spawn(t, guards, _) => core := O.ExecSnoc(less, core, before, L.Spawn(t, guards));
      case Locks(t, m) => core := O.ExecSnoc(less, core, before, L.Step(t, m));
      case Announce(_) =>
      case Enter(_) =>
      case Leave(_) =>
    }
  }

  /** A task's job is the one it was spawned with, in every run. */
  lemma {:induction false} JobsAreAsSpawned(less: L.Order, cmds: seq<Cmd>, s: Sys, i: nat)
    requires Exec(less, cmds) == Some(s) && i < |cmds| && cmds[i].Spawn?
    ensures cmds[i].t in s.core.tasks
    ensures if cmds[i].job.Some? then cmds[i].t in s.jobs && s.jobs[cmds[i].t] == cmds[i].job.value else cmds[i].t !in s.jobs
  {
    var n := |cmds| - 1;
    InvRun(less, cmds[..n]);
    var before := Exec(less, cmds[..n]).value;
    if i < n {
      JobsAreAsSpawned(less, cmds[..n], before, i);
      JobKept(less, before, cmds[n], cmds[i].t);
    } else {
      assert PlaceOk(before, cmds[n].t);
    }
  }

  lemma JobKept(less: L.Order, s: Sys, c: Cmd, t: TaskId)
    requires Enabled(s, c) && t in s.core.tasks
    ensures var s' := Do(less, s, c);
            t in s'.core.tasks && (t in s'.jobs <==> t in s.jobs) && (t in s.jobs ==> s'.jobs[t] == s.jobs[t])
  {
    if c.Locks? {
      LateStays(s.core, c.t, c.move, t);
    }
  }

  // ------------------------------------------------------------------ exclusion

  /** Who takes which gate: a runtime's rewriting alone, what lives in the runtime together, all others none. */
  lemma RoleMeaning(a: PlanAction)
    ensures RoleOf(a) == Write(GostGate) <==> a.runtimeStatus && a.forwardType == GostSync
    ensures RoleOf(a) == Write(NginxGate) <==> a.runtimeStatus && a.forwardType == NginxSync
    ensures RoleOf(a) == Read(GostGate) <==> !a.runtimeStatus && Serves(GostSync, a)
    ensures RoleOf(a) == Read(NginxGate) <==> !a.runtimeStatus && Serves(NginxSync, a)
  {
    OwnerOfActionMeaning(a, GostSync);
    OwnerOfActionMeaning(a, NginxSync);
  }

  /** A runtime and the actions it serves take the same gate. */
  lemma SameGate(runtime: PlanAction, dependent: PlanAction)
    requires IsSharedRuntimeSync(runtime) && !dependent.runtimeStatus && OwnerOfAction(dependent) == Some(runtime.forwardType)
    ensures exists g :: RoleOf(runtime) == Write(g) && RoleOf(dependent) == Read(g)
  {
    var g := if runtime.forwardType.GostSync? then GostGate else NginxGate;
    assert RoleOf(runtime) == Write(g) && RoleOf(dependent) == Read(g);
  }

  /** While a shared runtime is being rewritten, nothing that it serves is at work, and no other rewriting of it. */
  lemma SyncRunsAlone(less: L.Order, s: Sys, t: TaskId, u: TaskId)
    requires Reachable(less, s) && t in s.jobs && u in s.jobs && IsSharedRuntimeSync(s.jobs[t]) && !s.jobs[t].forwardType.WireGuardSync?
    requires PlaceOf(s, t).Inside? && PlaceOf(s, u).Inside?
    requires if s.jobs[u].runtimeStatus then s.jobs[u].forwardType == s.jobs[t].forwardType else Serves(s.jobs[t].forwardType, s.jobs[u])
    ensures t == u
  {
    var cmds :| Exec(less, cmds) == Some(s);
    InvRun(less, cmds);
    var g := RoleOf(s.jobs[t]).gate;
    assert GateOk(s, g, t) && GateOk(s, g, u);
    OwnerOfActionMeaning(s.jobs[u], s.jobs[t].forwardType);
    if !s.jobs[u].runtimeStatus {
      SameGate(s.jobs[t], s.jobs[u]);
    }
  }

  // ------------------------------------------------------------------- progress

  ghost predicate Steps(s: Sys, c: Cmd) {
    !c.Submit? && !c.Spawn? && Enabled(s, c)
  }

  lemma NobodyReads(s: Sys, g: GateId)
    requires Inv(s) && forall u :: u in s.core.tasks ==> !PlaceOf(s, u).Inside?
    ensures GateAt(s, g).readers == {}
  {
    forall u: TaskId ensures u !in GateAt(s, g).readers {
      assert GateOk(s, g, u) && PlaceOk(s, u);
    }
  }

  /** If nobody is between a gate and the end of its locks, whoever waits for a gate can have it. */
  lemma GateOpens(s: Sys, t: TaskId) returns (c: Cmd)
    requires Inv(s) && t in s.core.tasks && (PlaceOf(s, t).Outside? || PlaceOf(s, t).Announced?)
    requires forall u :: u in s.core.tasks ==> !PlaceOf(s, u).Inside?
    ensures Steps(s, c)
  {
    assert PlaceOk(s, t);
    var role := RoleIn(s, t);
    if !role.NoGate? {
      NobodyReads(s, role.gate);
    }
    if role.NoGate? || PlaceOf(s, t).Announced? {
      c := Enter(t);
    } else if w: TaskId :| GateAt(s, role.gate).writer == Some(w) {
      assert GateOk(s, role.gate, w) && PlaceOk(s, w);
      c := Enter(w);
    } else {
      c := if role.Read? then Enter(t) else Announce(t);
    }
  }

  /** If all who are past a gate's entrance wait for locks, one of them gets its lock. */
  lemma LockOpens(less: L.Order, s: Sys, t: TaskId) returns (c: Cmd)
    requires L.StrictTotal(less) && Inv(s) && L.Inv(s.core) && L.PlanInv(less, s.core)
    requires t in s.core.tasks && s.core.tasks[t].pc.Wait?
    requires forall u :: u in s.core.tasks && (PlaceOf(s, u).Inside? || PlaceOf(s, u).Past?) ==> s.core.tasks[u].pc.Wait? || s.core.tasks[u].pc.Done?
    ensures Steps(s, c)
  {
    var w := set u | u in s.core.tasks && s.core.tasks[u].pc.Wait?;
    assert t in w;
    forall u | u in w ensures O.Waiting(s.core, u) {
      assert L.Shape(s.core.tasks[u]);
    }
    var x := O.LargestWanted(less, s.core, w);
    forall v | v in s.core.tasks ensures s.core.tasks[v].pc.Wait? || L.HeldCount(s.core.tasks[v]) == 0 {
      assert PlaceOk(s, v);
    }
    var u, m := O.WaitingMoves(less, s.core, x);
    assert PlaceOk(s, u);
    c := Locks(u, m);
  }

  /**
   Gates and serial locks together: whatever has happened, unless every task is finished
   some task can take its next step, although writers wait for readers that hold locks.
   */
  lemma NoDeadlock(less: L.Order, s: Sys)
    requires L.StrictTotal(less) && Reachable(less, s)
    requires exists t :: t in s.core.tasks && !(s.core.tasks[t].pc.Done? && PlaceOf(s, t).Past?)
    ensures exists c: Cmd :: !c.Submit? && !c.Spawn? && Enabled(s, c)
  {
    var cmds :| Exec(less, cmds) == Some(s);
    InvRun(less, cmds);
    var core := LocksRun(less, cmds);
    L.InvRun(less, core);
    if t :| t in s.core.tasks && PlaceOf(s, t) in {Inside, Past} && !s.core.tasks[t].pc.Wait? && !s.core.tasks[t].pc.Done? {
      var m := O.NonWaitingMoves(s.core, t);
      assert Steps(s, Locks(t, m));
    } else if t :| t in s.core.tasks && PlaceOf(s, t).Inside? && s.core.tasks[t].pc.Done? {
      assert Steps(s, Leave(t));
    } else if t :| t in s.core.tasks && s.core.tasks[t].pc.Wait? {
      var c := LockOpens(less, s, t);
    } else {
      var t :| t in s.core.tasks && !(s.core.tasks[t].pc.Done? && PlaceOf(s, t).Past?);
      assert PlaceOk(s, t);
      assert !PlaceOf(s, t).Inside? && !PlaceOf(s, t).Past?;
      var c := GateOpens(s, t);
    }
  }

  function PlaceRank(p: Place): nat {
    match p
    case Outside => 3
    case Announced => 2
    case Inside => 1
    case Past => 0
  }

  function Rank(s: Sys, t: TaskId): int
    requires t in s.core.tasks
  {
    O.Rank(s.core.tasks[t]) + PlaceRank(PlaceOf(s, t))
  }

  function Owner(c: Cmd): Option<TaskId> {
    match c
    case Submit(_) => None
    case Spawn(_, _, _) => None
    case Announce(t) => Some(t)
    case Enter(t) => Some(t)
    case Locks(t, _) => Some(t)
    case Leave(t) => Some(t)
  }

  /** Every step brings its own task strictly closer to its end and no other task further away. */
  lemma StepsAreFinite(less: L.Order, s: Sys, c: Cmd, u: TaskId)
    requires L.StrictTotal(less) && Reachable(less, s) && Steps(s, c) && u in s.core.tasks
    ensures var t := Owner(c).value; t in s.core.tasks && 0 <= Rank(Do(less, s, c), t) < Rank(s, t)
    ensures u != Owner(c).value ==> Rank(Do(less, s, c), u) == Rank(s, u)
  {
    var cmds :| Exec(less, cmds) == Some(s);
    InvRun(less, cmds);
    var core := LocksRun(less, cmds);
    var t := Owner(c).value;
    assert PlaceOk(s, t);
    if c.Locks? {
      O.MovesAreFinite(less, s.core, t, c.move, u);
    } else {
      L.InvRun(less, core);
      assert L.Shape(s.core.tasks[t]);
    }
  }
}
