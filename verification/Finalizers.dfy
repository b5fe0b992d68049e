/**
 Commit and rollback of planned jobs (agent/main.go, actionJobResult;
 agent/actions.go, resolveFinalActionJobOutcome): a result counts its dependents,
 and the last one to resolve runs the commit or the rollback closure.
 */
module Finalizers {
  import opened Options
  import opened Planner

  /** A finalizer ran: the decision, and whether a closure was installed for it. */
  datatype Fire = Fire(commit: bool, closure: bool)

  /** completed is the published outcome; commitFn and rollbackFn say which closures are set. */
  datatype Res = Res(
    completed: Option<bool>,
    dependentCount: int,
    dependentFailed: bool,
    commitFn: bool,
    rollbackFn: bool,
    once: bool,
    fired: seq<Fire>)

  function FireNow(r: Res): Res {
    if r.once then r
    else r.(once := true, fired := r.fired + [Fire(!r.dependentFailed, if r.dependentFailed then r.rollbackFn else r.commitFn)])
  }

  function ResolveOne(r: Res, ok: bool): Res {
    if r.dependentCount <= 0 then r
    else
      var r' := r.(dependentFailed := r.dependentFailed || !ok, dependentCount := r.dependentCount - 1);
      if r'.dependentCount == 0 then FireNow(r') else r'
  }

  class JobResult {
    var value: Res

    constructor ()
      ensures value == Res(None, 0, false, false, false, false, [])
    {
      value := Res(None, 0, false, false, false, false, []);
    }

    /** Only the first completion counts. */
    method Complete(ok: bool)
      modifies this
      ensures value == old(value).(completed := if old(value).completed.Some? then old(value).completed else Some(ok))
    {
      if value.completed.None? {
        value := value.(completed := Some(ok));
      }
    }

    method SetFinalizers(commit: bool, rollback: bool)
      modifies this
      ensures value == old(value).(commitFn := commit, rollbackFn := rollback)
    {
      value := value.(commitFn := commit, rollbackFn := rollback);
    }

    method AddDependent()
      modifies this
      ensures value == old(value).(dependentCount := old(value).dependentCount + 1)
    {
      value := value.(dependentCount := value.dependentCount + 1);
    }

    method ResolveDependent(ok: bool)
      modifies this
      ensures value == ResolveOne(old(value), ok)
    {
      if value.dependentCount <= 0 {
        return;
      }
      if !ok {
        value := value.(dependentFailed := true);
      }
      value := value.(dependentCount := value.dependentCount - 1);
      if value.dependentCount != 0 {
        return;
      }
      if !value.once {
        value := value.(once := true);
        if value.dependentFailed {
          value := value.(fired := value.fired + [Fire(false, value.rollbackFn)]);
        } else {
          value := value.(fired := value.fired + [Fire(true, value.commitFn)]);
        }
      }
    }
  }

  // ------------------------------------------------------ a whole batch resolving

  datatype Status = Pending | Deciding(ok: bool) | Finished(ok: bool)

  /** `open` holds the prerequisites a job has not resolved yet. */
  datatype Sys = Sys(open: Graph, results: map<JobId, Res>, status: map<JobId, Status>)

  datatype Step =
    | Install(id: JobId, commit: bool, rollback: bool)  // the running job sets its closures
    | Decide(id: JobId, ok: bool)                       // it has run or been dropped, and waited for its prerequisites
    | Resolve(id: JobId)                                // it resolves its next prerequisite
    | Complete(id: JobId)                               // it publishes its own result

  function StatusOf(s: Sys, id: JobId): Status {
    if id in s.status then s.status[id] else Pending
  }

  function ResultOf(s: Sys, id: JobId): Res {
    if id in s.results then s.results[id] else Res(None, 0, false, false, false, false, [])
  }

  function SetRow(g: Graph, id: JobId, row: seq<JobId>): Graph {
    match id
    case HandoffOf(_) => g
    case RuntimeOf(r) => if r < |g.runtimePre| then g.(runtimePre := g.runtimePre[r := row]) else g
    case RemainingOf(i) => if i < |g.remainingPre| then g.(remainingPre := g.remainingPre[i := row]) else g
  }

  function Pointing(g: Graph, x: JobId): nat {
    Edges(g.runtimePre, x) + Edges(g.remainingPre, x)
  }

  ghost predicate Enabled(g: Graph, s: Sys, c: Step) {
    match c
    case Install(id, _, _) => StatusOf(s, id).Pending?
    case Decide(id, ok) => StatusOf(s, id).Pending? &&
      forall x :: x in Prereqs(g, id) ==> StatusOf(s, x).Finished? && (ok ==> StatusOf(s, x).ok)
    case Resolve(id) => StatusOf(s, id).Deciding? && Prereqs(s.open, id) != []
    case Complete(id) => StatusOf(s, id).Deciding? && Prereqs(s.open, id) == []
  }

  ghost function Do(g: Graph, s: Sys, c: Step): Sys
    requires Enabled(g, s, c)
  {
    match c
    case Install(id, commit, rollback) => s.(results := s.results[id := ResultOf(s, id).(commitFn := commit, rollbackFn := rollback)])
    case Decide(id, ok) => s.(status := s.status[id := Deciding(ok)])
    case Resolve(id) =>
      var row := Prereqs(s.open, id);
      s.(open := SetRow(s.open, id, row[1..]), results := s.results[row[0] := ResolveOne(ResultOf(s, row[0]), StatusOf(s, id).ok)])
    case Complete(id) =>
      s.(status := s.status[id := Finished(StatusOf(s, id).ok)],
         results := s.results[id := ResultOf(s, id).(completed := Some(StatusOf(s, id).ok))])
  }

  /** Closures set while planning are arbitrary; the counts are those the planner made. */
  ghost predicate Init(g: Graph, s: Sys) {
    && s.open == g && s.status == map[]
    && (forall x :: var r := ResultOf(s, x);
                    r.dependentCount == CountOf(g, x) && !r.dependentFailed && !r.once && r.fired == [] && r.completed.None?)
  }

  /** Where a run of steps leads, if each was enabled when it was taken. */
  ghost function Exec(g: Graph, s0: Sys, steps: seq<Step>): Option<Sys> {
    if steps == [] then Some(s0)
    else
      var before := Exec(g, s0, steps[..|steps| - 1]);
      if before.None? || !Enabled(g, before.value, steps[|steps| - 1]) then None
      else Some(Do(g, before.value, steps[|steps| - 1]))
  }

  /** A step that is enabled can be taken. */
  lemma {:induction false} CanTake(g: Graph, s0: Sys, steps: seq<Step>, s: Sys, c: Step)
    requires Exec(g, s0, steps) == Some(s) && Enabled(g, s, c)
    ensures Exec(g, s0, steps + [c]) == Some(Do(g, s, c))
  {
    assert (steps + [c])[..|steps|] == steps;
  }

  // -------------------------------------------------------------- the invariant

  ghost predicate NoRepeats(row: seq<JobId>) {
    forall i, j :: 0 <= i < j < |row| ==> row[i] != row[j]
  }

  /** Job id has already told result x its outcome. */
  ghost predicate Told(g: Graph, s: Sys, id: JobId, x: JobId) {
    x in Prereqs(g, id) && x !in Prereqs(s.open, id)
  }

  /** What is left of a row of prerequisites, given how far its job is. */
  predicate Row(all: seq<JobId>, open: seq<JobId>, st: Status) {
    && |open| <= |all| && open == all[|all| - |open|..]
    && (st.Pending? ==> open == all)
    && (st.Finished? ==> open == [])
  }

  ghost predicate Waited(s: Sys, all: seq<JobId>) {
    forall x :: x in all ==> StatusOf(s, x).Finished?
  }

  ghost predicate RowOk(g: Graph, s: Sys, id: JobId) {
    && Row(Prereqs(g, id), Prereqs(s.open, id), StatusOf(s, id))
    && (!StatusOf(s, id).Pending? ==> Waited(s, Prereqs(g, id)))
  }

  ghost predicate ToldNo(g: Graph, s: Sys, id: JobId, x: JobId) {
    Told(g, s, id, x) && !StatusOf(s, id).Pending? && !StatusOf(s, id).ok
  }

  /** Some dependent has told x that it failed. */
  ghost predicate ToldFailure(g: Graph, s: Sys, x: JobId) {
    exists id :: ToldNo(g, s, id, x)
  }

  /** A result with `open` of `all` dependents still to come, `failed` if one has failed, `settled` once published. */
  ghost predicate Shape(r: Res, open: nat, all: nat, failed: bool, settled: bool) {
    && open <= all && r.dependentCount == open && r.dependentFailed == failed
    && (r.once <==> open == 0 && all > 0)
    && r.fired == (if r.once then [Fire(!failed, if failed then r.rollbackFn else r.commitFn)] else [])
    && (open < all ==> settled)
  }

  lemma ShapeResolve(r: Res, open: nat, all: nat, failed: bool, ok: bool)
    requires Shape(r, open, all, failed, true) && open > 0
    ensures Shape(ResolveOne(r, ok), open - 1, all, failed || !ok, true)
  {
  }

  ghost predicate ResOk(g: Graph, s: Sys, x: JobId) {
    Shape(ResultOf(s, x), Pointing(s.open, x), Pointing(g, x), ToldFailure(g, s, x), StatusOf(s, x).Finished?)
  }

  ghost predicate Inv(g: Graph, s: Sys) {
    && |s.open.runtimePre| == |g.runtimePre| && |s.open.remainingPre| == |g.remainingPre|
    && (forall id :: RowOk(g, s, id))
    && (forall x :: ResOk(g, s, x))
  }

  lemma PointingUpdate(g: Graph, id: JobId, row: seq<JobId>, x: JobId)
    requires Prereqs(g, id) != []
    ensures Pointing(SetRow(g, id, row), x) == Pointing(g, x) - multiset(Prereqs(g, id))[x] + multiset(row)[x]
    ensures Prereqs(SetRow(g, id, row), id) == row
    ensures forall other :: other != id ==> Prereqs(SetRow(g, id, row), other) == Prereqs(g, other)
    ensures |SetRow(g, id, row).runtimePre| == |g.runtimePre| && |SetRow(g, id, row).remainingPre| == |g.remainingPre|
  {
    match id
    case HandoffOf(_) =>
    case RuntimeOf(r) => EdgesUpdate(g.runtimePre, r, row, x);
    case RemainingOf(i) => EdgesUpdate(g.remainingPre, i, row, x);
  }

  lemma PopRow(row: seq<JobId>, x: JobId)
    requires row != []
    ensures multiset(row)[x] == multiset(row[1..])[x] + (if x == row[0] then 1 else 0)
  {
    assert row == [row[0]] + row[1..];
  }

  lemma InvAt(g: Graph, s: Sys, id: JobId, x: JobId)
    requires Inv(g, s)
    ensures RowOk(g, s, id) && ResOk(g, s, x)
  {
  }

  lemma SameToldFailure(g: Graph, s: Sys, s': Sys, x: JobId)
    requires forall j :: ToldNo(g, s', j, x) <==> ToldNo(g, s, j, x)
    ensures ToldFailure(g, s', x) <==> ToldFailure(g, s, x)
  {
  }

  /** Settling one job's status without telling anybody changes no verdict. */
  lemma {:induction false} ToldNoKept(g: Graph, s: Sys, s': Sys, j: JobId, x: JobId)
    requires s'.open == s.open
    requires StatusOf(s, j).Pending? ==> StatusOf(s', j) == StatusOf(s, j) || !Told(g, s, j, x)
    requires !StatusOf(s, j).Pending? ==> !StatusOf(s', j).Pending? && StatusOf(s', j).ok == StatusOf(s, j).ok
    ensures ToldNo(g, s', j, x) <==> ToldNo(g, s, j, x)
  {
    assert Told(g, s', j, x) <==> Told(g, s, j, x);
  }

  lemma {:induction false} ToldKept(g: Graph, s: Sys, s': Sys, id: JobId, x: JobId)
    requires RowOk(g, s, id) && s'.open == s.open
    requires forall j :: j != id ==> StatusOf(s', j) == StatusOf(s, j)
    requires !StatusOf(s, id).Pending? ==> !StatusOf(s', id).Pending? && StatusOf(s', id).ok == StatusOf(s, id).ok
    ensures ToldFailure(g, s', x) <==> ToldFailure(g, s, x)
  {
    assert StatusOf(s, id).Pending? ==> !Told(g, s, id, x);
    forall j ensures ToldNo(g, s', j, x) <==> ToldNo(g, s, j, x) {
      if j != id {
        assert StatusOf(s', j) == StatusOf(s, j);
      }
      ToldNoKept(g, s, s', j, x);
    }
    SameToldFailure(g, s, s', x);
  }

  lemma StatusAfter(g: Graph, s: Sys, c: Step)
    requires Enabled(g, s, c) && !c.Resolve?
    ensures var s', id := Do(g, s, c), c.id;
            && s'.open == s.open && (forall j :: j != id ==> StatusOf(s', j) == StatusOf(s, j))
            && (!StatusOf(s, id).Pending? ==> !StatusOf(s', id).Pending? && StatusOf(s', id).ok == StatusOf(s, id).ok)
            && (StatusOf(s, id).Finished? ==> StatusOf(s', id).Finished?)
            && (forall j :: j != id ==> ResultOf(s', j) == ResultOf(s, j))
            && var r, r' := ResultOf(s, id), ResultOf(s', id);
               r'.(completed := r.completed, commitFn := r.commitFn, rollbackFn := r.rollbackFn) == r &&
               (!StatusOf(s, id).Pending? ==> r'.commitFn == r.commitFn && r'.rollbackFn == r.rollbackFn)
  {
  }

  lemma QuietRes(g: Graph, s: Sys, c: Step, x: JobId)
    requires Enabled(g, s, c) && !c.Resolve? && RowOk(g, s, c.id) && ResOk(g, s, x)
    ensures ResOk(g, Do(g, s, c), x)
  {
    var s' := Do(g, s, c);
    StatusAfter(g, s, c);
    ToldKept(g, s, s', c.id, x);
  }

  lemma WaitedKept(g: Graph, s: Sys, c: Step, all: seq<JobId>)
    requires Enabled(g, s, c) && Waited(s, all)
    ensures Waited(Do(g, s, c), all)
  {
    forall x | x in all ensures StatusOf(Do(g, s, c), x).Finished? {
      assert StatusOf(s, x).Finished?;
    }
  }

  /** A row and its job's status fit together after any step but telling. */
  lemma RowKept(all: seq<JobId>, open: seq<JobId>, st: Status, st': Status)
    requires Row(all, open, st) && (st'.Pending? ==> st.Pending?) && (st'.Finished? ==> open == [])
    ensures Row(all, open, st')
  {
  }

  lemma QuietRow(g: Graph, s: Sys, c: Step, id: JobId)
    requires Enabled(g, s, c) && !c.Resolve? && RowOk(g, s, id)
    ensures RowOk(g, Do(g, s, c), id)
  {
    var s', all, open := Do(g, s, c), Prereqs(g, id), Prereqs(s.open, id);
    assert s'.open == s.open;
    var st, st' := StatusOf(s, id), StatusOf(s', id);
    assert st' != st ==> c.id == id && ((c.Decide? && st.Pending? && st'.Deciding?) || (c.Complete? && st'.Finished? && open == []));
    RowKept(all, open, st, st');
    if !st'.Pending? {
      assert Waited(s, all);
      WaitedKept(g, s, c, all);
    }
  }

  lemma InvQuiet(g: Graph, s: Sys, c: Step)
    requires Inv(g, s) && Enabled(g, s, c) && !c.Resolve?
    ensures Inv(g, Do(g, s, c))
  {
    var s' := Do(g, s, c);
    StatusAfter(g, s, c);
    forall id ensures RowOk(g, s', id) {
      InvAt(g, s, id, id);
      InvAt(g, s, c.id, id);
      QuietRow(g, s, c, id);
    }
    forall x ensures ResOk(g, s', x) {
      InvAt(g, s, c.id, x);
      QuietRes(g, s, c, x);
    }
  }

  lemma PopTold(all: seq<JobId>, row: seq<JobId>, x: JobId)
    requires NoRepeats(all) && 0 < |row| <= |all| && row == all[|all| - |row|..]
    ensures (x in all && x !in row[1..]) <==> (x in all && x !in row) || x == row[0]
  {
    var rest := row[1..];
    assert row == [row[0]] + rest;
    assert row[0] == all[|all| - |row|] && row[0] in all;
    forall k | 0 <= k < |rest| ensures rest[k] != row[0] {
      assert rest[k] == row[k + 1] == all[|all| - |row| + k + 1];
    }
  }

  /** After telling row[0], exactly that prerequisite counts as told. */
  lemma ToldNow(g: Graph, s: Sys, id: JobId, x: JobId, j: JobId)
    requires Enabled(g, s, Resolve(id)) && RowOk(g, s, id) && NoRepeats(Prereqs(g, id))
    ensures Told(g, Do(g, s, Resolve(id)), j, x) <==> Told(g, s, j, x) || (j == id && x == Prereqs(s.open, id)[0])
  {
    var row := Prereqs(s.open, id);
    PointingUpdate(s.open, id, row[1..], x);
    if j == id {
      PopTold(Prereqs(g, id), row, x);
    }
  }

  lemma ToldAfter(g: Graph, s: Sys, s': Sys, id: JobId, x: JobId, now: bool)
    requires s'.status == s.status && !StatusOf(s, id).Pending?
    requires forall j :: Told(g, s', j, x) <==> Told(g, s, j, x) || (j == id && now)
    ensures ToldFailure(g, s', x) <==> ToldFailure(g, s, x) || (now && !StatusOf(s, id).ok)
  {
    forall j ensures ToldNo(g, s', j, x) <==> ToldNo(g, s, j, x) || (j == id && now && !StatusOf(s, id).ok) {
      assert Told(g, s', j, x) <==> Told(g, s, j, x) || (j == id && now);
    }
    assert ToldFailure(g, s, x) ==> exists j :: ToldNo(g, s, j, x) && ToldNo(g, s', j, x);
    assert now && !StatusOf(s, id).ok ==> ToldNo(g, s', id, x);
  }

  /** Telling the next prerequisite: its own result moves, every other one is as before. */
  lemma ResolveRes(g: Graph, s: Sys, id: JobId, x: JobId)
    requires Enabled(g, s, Resolve(id)) && RowOk(g, s, id) && ResOk(g, s, x) && NoRepeats(Prereqs(g, id))
    ensures ResOk(g, Do(g, s, Resolve(id)), x)
  {
    var s', row := Do(g, s, Resolve(id)), Prereqs(s.open, id);
    forall j ensures Told(g, s', j, x) <==> Told(g, s, j, x) || (j == id && x == row[0]) {
      ToldNow(g, s, id, x, j);
    }
    ToldAfter(g, s, s', id, x, x == row[0]);
    PointingUpdate(s.open, id, row[1..], x);
    PopRow(row, x);
    if x == row[0] {
      assert x in Prereqs(g, id);
      ShapeResolve(ResultOf(s, x), Pointing(s.open, x), Pointing(g, x), ToldFailure(g, s, x), StatusOf(s, id).ok);
    }
  }

  lemma ResolveRow(g: Graph, s: Sys, id: JobId, j: JobId)
    requires Enabled(g, s, Resolve(id)) && RowOk(g, s, j)
    ensures RowOk(g, Do(g, s, Resolve(id)), j)
  {
    var row := Prereqs(s.open, id);
    PointingUpdate(s.open, id, row[1..], row[0]);
    if !StatusOf(s, j).Pending? {
      assert Waited(s, Prereqs(g, j));
      WaitedKept(g, s, Resolve(id), Prereqs(g, j));
    }
    if j == id {
      var all := Prereqs(g, id);
      assert row[1..] == all[|all| - |row[1..]|..];
    }
  }

  lemma InvResolve(g: Graph, s: Sys, id: JobId)
    requires Inv(g, s) && Enabled(g, s, Resolve(id)) && NoRepeats(Prereqs(g, id))
    ensures Inv(g, Do(g, s, Resolve(id)))
  {
    var s', row := Do(g, s, Resolve(id)), Prereqs(s.open, id);
    PointingUpdate(s.open, id, row[1..], row[0]);
    forall j ensures RowOk(g, s', j) {
      InvAt(g, s, j, j);
      ResolveRow(g, s, id, j);
    }
    forall x ensures ResOk(g, s', x) {
      InvAt(g, s, id, x);
      ResolveRes(g, s, id, x);
    }
  }

  lemma InitInv(g: Graph, s: Sys)
    requires Counted(g) && Init(g, s)
    ensures Inv(g, s)
  {
    forall x ensures ResOk(g, s, x) {
      assert CountOf(g, x) == Pointing(g, x);
      assert !ToldFailure(g, s, x);
    }
  }

  lemma {:induction false} InvRun(g: Graph, s0: Sys, steps: seq<Step>)
    requires Counted(g) && Init(g, s0) && Exec(g, s0, steps).Some? && forall id :: NoRepeats(Prereqs(g, id))
    ensures Inv(g, Exec(g, s0, steps).value)
  {
    if steps == [] {
      InitInv(g, s0);
    } else {
      var before, c := Exec(g, s0, steps[..|steps| - 1]).value, steps[|steps| - 1];
      InvRun(g, s0, steps[..|steps| - 1]);
      if c.Resolve? {
        InvResolve(g, before, c.id);
      } else {
        InvQuiet(g, before, c);
      }
    }
  }

  // ---------------------------------------------------------------- the theorem

  lemma {:induction false} RelevantIdsDistinct(b: Batch, i: nat, m: nat)
    ensures forall k :: 0 <= k < |RelevantIds(b, i, m)| ==> RelevantIds(b, i, m)[k].RuntimeOf? && RelevantIds(b, i, m)[k].r < m
    ensures NoRepeats(RelevantIds(b, i, m))
  {
    if m > 0 {
      RelevantIdsDistinct(b, i, m - 1);
    }
  }

  lemma {:induction false} HandoffIdsDistinct(b: Batch, r: nat, n: nat)
    ensures forall k :: 0 <= k < |HandoffIds(b, r, n)| ==> HandoffIds(b, r, n)[k].HandoffOf? && HandoffIds(b, r, n)[k].i < n
    ensures NoRepeats(HandoffIds(b, r, n))
  {
    if n > 0 {
      HandoffIdsDistinct(b, r, n - 1);
    }
  }

  lemma PlanHasNoRepeats(b: Batch, g: Graph, id: JobId)
    requires IsPlan(b, g)
    ensures NoRepeats(Prereqs(g, id))
  {
    match id
    case HandoffOf(_) =>
    case RuntimeOf(r) =>
      if r < |b.runtime| {
        HandoffIdsDistinct(b, r, |b.remaining|);
        if p :| Linked(b, p, r) {
          assert g.runtimePre[r] == HandoffIds(b, r, |b.remaining|) + [RuntimeOf(p)];
        }
      }
    case RemainingOf(i) =>
      if i < |b.remaining| {
        RelevantIdsDistinct(b, i, |b.runtime|);
      }
  }

  lemma {:induction false} EdgesZero<T>(rows: seq<seq<T>>, x: T)
    ensures Edges(rows, x) == 0 <==> forall i :: 0 <= i < |rows| ==> x !in rows[i]
  {
    if rows != [] {
      var n := |rows| - 1;
      EdgesZero(rows[..n], x);
      if Edges(rows, x) == 0 {
        forall i | 0 <= i < |rows| ensures x !in rows[i] {
          if i < n {
            assert rows[..n][i] == rows[i];
          } else {
            assert multiset(rows[n])[x] == 0;
          }
        }
      }
    }
  }

  lemma PointingZero(g: Graph, x: JobId)
    ensures Pointing(g, x) == 0 <==> forall id :: x !in Prereqs(g, id)
  {
    EdgesZero(g.runtimePre, x);
    EdgesZero(g.remainingPre, x);
    if forall id :: x !in Prereqs(g, id) {
      forall r | 0 <= r < |g.runtimePre| ensures x !in g.runtimePre[r] {
        assert x !in Prereqs(g, RuntimeOf(r));
      }
      forall i | 0 <= i < |g.remainingPre| ensures x !in g.remainingPre[i] {
        assert x !in Prereqs(g, RemainingOf(i));
      }
    }
  }

  ghost predicate HasDependent(g: Graph, x: JobId) {
    exists id :: x in Prereqs(g, id)
  }

  ghost predicate AllTold(g: Graph, s: Sys, x: JobId) {
    forall id :: x in Prereqs(g, id) ==> Told(g, s, id, x)
  }

  ghost predicate AllSucceeded(g: Graph, s: Sys, x: JobId) {
    forall id :: x in Prereqs(g, id) ==> !StatusOf(s, id).Pending? && StatusOf(s, id).ok
  }

  /**
   In every run of a planned batch a result's finalizer fires at most once; it has
   fired exactly when the result has dependents and all have reported; it commits
   exactly when all of them succeeded; and by then the result is published, so the
   closure used is the one installed last.
   */
  lemma {:induction false} FinalizerFiresOnce(b: Batch, g: Graph, s0: Sys, steps: seq<Step>, s: Sys, x: JobId)
    requires IsPlan(b, g) && Init(g, s0) && Exec(g, s0, steps) == Some(s)
    ensures var r := ResultOf(s, x);
            && |r.fired| <= 1
            && (r.fired != [] <==> HasDependent(g, x) && AllTold(g, s, x))
            && (r.fired != [] ==> (r.fired[0].commit <==> AllSucceeded(g, s, x)))
            && (r.fired != [] ==> StatusOf(s, x).Finished?)
            && (r.fired != [] ==> r.fired[0].closure == if r.fired[0].commit then r.commitFn else r.rollbackFn)
  {
    forall id ensures NoRepeats(Prereqs(g, id)) {
      PlanHasNoRepeats(b, g, id);
    }
    InvRun(g, s0, steps);
    FiredMeaning(g, s, x);
  }

  /** In every run a job's result is published exactly when it has finished, and says how it turned out. */
  lemma {:induction false} CompletedMeaning(g: Graph, s0: Sys, steps: seq<Step>, x: JobId)
    requires Init(g, s0) && Exec(g, s0, steps).Some?
    ensures var s := Exec(g, s0, steps).value;
            ResultOf(s, x).completed == if StatusOf(s, x).Finished? then Some(StatusOf(s, x).ok) else None
  {
    if steps == [] {
      assert ResultOf(s0, x).completed.None?;
    } else {
      CompletedMeaning(g, s0, steps[..|steps| - 1], x);
    }
  }

  lemma FiredMeaning(g: Graph, s: Sys, x: JobId)
    requires Inv(g, s)
    ensures var r := ResultOf(s, x);
            && |r.fired| <= 1
            && (r.fired != [] <==> HasDependent(g, x) && AllTold(g, s, x))
            && (r.fired != [] ==> (r.fired[0].commit <==> AllSucceeded(g, s, x)))
            && (r.fired != [] ==> StatusOf(s, x).Finished?)
            && (r.fired != [] ==> r.fired[0].closure == if r.fired[0].commit then r.commitFn else r.rollbackFn)
  {
    InvAt(g, s, x, x);
    PointingZero(g, x);
    PointingZero(s.open, x);
    NothingOpen(g, s, x);
    if HasDependent(g, x) && AllTold(g, s, x) {
      Verdict(g, s, x);
    }
  }

  lemma NothingOpen(g: Graph, s: Sys, x: JobId)
    requires Inv(g, s)
    ensures (forall id :: x !in Prereqs(s.open, id)) <==> AllTold(g, s, x)
  {
    forall id ensures x in Prereqs(s.open, id) ==> x in Prereqs(g, id) {
      InvAt(g, s, id, id);
    }
    if AllTold(g, s, x) {
      forall id ensures x !in Prereqs(s.open, id) {
        assert x in Prereqs(g, id) ==> Told(g, s, id, x);
      }
    }
  }

  lemma Verdict(g: Graph, s: Sys, x: JobId)
    requires Inv(g, s) && AllTold(g, s, x)
    ensures ToldFailure(g, s, x) <==> !AllSucceeded(g, s, x)
  {
    forall id | x in Prereqs(g, id) ensures Told(g, s, id, x) && !StatusOf(s, id).Pending? {
      InvAt(g, s, id, id);
    }
    if !AllSucceeded(g, s, x) {
      var id :| x in Prereqs(g, id) && !(!StatusOf(s, id).Pending? && StatusOf(s, id).ok);
      assert ToldNo(g, s, id, x);
    }
  }

  // ------------------------------------------------------------------- progress

  /** Whatever has happened, a batch with an unfinished job has one that can go on. */
  lemma {:induction false} BatchProgresses(b: Batch, g: Graph, s: Sys, id: JobId) returns (c: Step)
    requires IsPlan(b, g) && !StatusOf(s, id).Finished?
    ensures Enabled(g, s, c) && !c.Install? && !StatusOf(s, c.id).Finished?
    decreases Level(b, id)
  {
    if StatusOf(s, id).Deciding? {
      c := if Prereqs(s.open, id) != [] then Resolve(id) else Complete(id);
    } else if x :| x in Prereqs(g, id) && !StatusOf(s, x).Finished? {
      PlanIsAcyclic(b, g, id, x);
      c := BatchProgresses(b, g, s, x);
    } else {
      c := Decide(id, false);
    }
  }

  /** Success is open to a job exactly once all its prerequisites have succeeded; failure once they have finished. */
  lemma DecisionMeaning(g: Graph, s: Sys, id: JobId, ok: bool)
    requires StatusOf(s, id).Pending?
    ensures Enabled(g, s, Decide(id, ok)) <==>
            forall x :: x in Prereqs(g, id) ==> StatusOf(s, x) == Finished(true) || (!ok && StatusOf(s, x) == Finished(false))
  {
  }

  ghost predicate Succeeds(s: Sys, id: JobId) {
    StatusOf(s, id) == Deciding(true) || StatusOf(s, id) == Finished(true)
  }

  /** In every run a job succeeds only where all its prerequisites did. */
  lemma {:induction false} SuccessNeedsPrerequisites(g: Graph, s0: Sys, steps: seq<Step>, s: Sys, id: JobId, x: JobId)
    requires Init(g, s0) && Exec(g, s0, steps) == Some(s) && Succeeds(s, id) && x in Prereqs(g, id)
    ensures StatusOf(s, x) == Finished(true)
  {
    if steps != [] {
      var n := |steps| - 1;
      var before, c := Exec(g, s0, steps[..n]).value, steps[n];
      if Succeeds(before, id) {
        SuccessNeedsPrerequisites(g, s0, steps[..n], before, id, x);
      }
    }
  }
}
