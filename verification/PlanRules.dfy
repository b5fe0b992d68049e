/**
 What the planner decides about single jobs (agent/actions.go,
 prepareDesiredActionJobsWithOwnerResolver and the tests it calls), in terms of what the
 jobs say: which runtimes a job waits for, which jobs hand their port over first, and
 which of those share the fate of an entry group.
 */
module PlanRules {
  import opened ActionKeys
  import opened Options
  import opened Planner

  /** The forward types whose listeners live inside a shared runtime. */
  predicate LivesIn(t: ForwardType, runtime: ForwardType) {
    || (runtime == GostSync && t in {Gost, GostTunnel, GostTunnelExit, GostTunnelHop})
    || (runtime == NginxSync && t in {Nginx, NginxTunnel, NginxTunnelExit})
  }

  /** The runtime serves the action; a guarded action is served through its backend. */
  predicate Serves(runtime: ForwardType, a: PlanAction) {
    LivesIn(if a.forwardType == Guard then a.backend else a.forwardType, runtime)
  }

  lemma OwnerMeaning(t: ForwardType, runtime: ForwardType)
    ensures OwnerOfType(t) == Some(runtime) <==> LivesIn(t, runtime)
  {
  }

  lemma OwnerOfActionMeaning(a: PlanAction, runtime: ForwardType)
    ensures OwnerOfAction(a) == Some(runtime) <==> Serves(runtime, a)
  {
    OwnerMeaning(a.forwardType, runtime);
    OwnerMeaning(a.backend, runtime);
  }

  predicate IsSync(a: PlanAction) {
    a.runtimeStatus && a.forwardType in {GostSync, NginxSync, WireGuardSync}
  }

  /** What was there before: by the snapshot, or as resolved when the snapshot has no type. */
  predicate LivedIn(j: PlanJob, runtime: ForwardType) {
    LivesIn(if j.previous.forwardType == OtherType("") then j.resolvedType else j.previous.forwardType, runtime)
  }

  /** A job needs the runtime it will live in, the one it leaves, and the WireGuard runtime of its own tunnel. */
  predicate Needs(j: PlanJob, runtime: PlanAction) {
    && IsSync(runtime) && !j.action.runtimeStatus
    && (|| Serves(runtime.forwardType, j.action) || LivedIn(j, runtime.forwardType)
        || (runtime.forwardType == WireGuardSync && j.action.fxp.Some? && j.action.fxp.value.wireGuard &&
            j.action.fxp.value.tunnelID == runtime.tunnelID > 0))
  }

  /** Something else than what the action asks for ran on the port. */
  predicate ChangesHands(a: PlanAction, s: Snapshot) {
    var retyped := s.forwardType != OtherType("") && s.forwardType != a.forwardType;
    if s.tunnel then s.tunnelID > 0 && (s.tunnelID != a.tunnelID || retyped)
    else
      s.ruleID > 0 &&
      (|| s.ruleID != a.ruleID || retyped
       || (s.tunnelID != a.tunnelID && !(s.tunnelID <= 0 && a.tunnelID <= 0))
       || (s.protocol.Some? && s.protocol != Some(a.protocol)))
  }

  /** An apply that puts a listener of its own on a port where something else ran. */
  predicate HandsOver(j: PlanJob) {
    && j.action.apply && !j.action.runtimeStatus && 1 <= j.action.sourcePort <= 65535
    && (j.action.fxp.Some? || !(j.action.forwardType in {GostSync, NginxSync, WireGuardSync} || j.action.forwardType.OtherType?))
    && (if j.previous.valid then ChangesHands(j.action, j.previous) else j.diskHandoff)
  }

  /** The rule leaves ForwardX's entry group of tunnel t for a shared runtime. */
  predicate LeavesGroup(j: PlanJob, t: int) {
    && j.action.fxp == None && (Serves(GostSync, j.action) || Serves(NginxSync, j.action))
    && j.previous.valid && !j.previous.tunnel && j.previous.hasState && j.previous.forwardType == ForwardX
    && j.previous.ruleID > 0 && j.previous.tunnelID == t > 0
  }

  // --------------------------------------------------- positions in the two halves

  /** How many of the first n jobs are not shared runtime syncs. */
  function Place(jobs: seq<PlanJob>, n: nat): nat
    requires n <= |jobs|
  {
    if n == 0 then 0 else Place(jobs, n - 1) + if IsSync(jobs[n - 1].action) then 0 else 1
  }

  lemma {:induction false} PlacePrefix(jobs: seq<PlanJob>, n: nat, m: nat)
    requires n <= m <= |jobs|
    ensures Place(jobs[..m], n) == Place(jobs, n) <= n
  {
    if n > 0 {
      PlacePrefix(jobs, n - 1, m);
    }
  }

  /** The batch keeps the jobs' order: each is found behind those of its half that come before it. */
  lemma {:induction false} SplitPlaces(jobs: seq<PlanJob>)
    ensures var b := SplitJobs(jobs);
            && |b.remaining| == Place(jobs, |jobs|) <= |jobs| && |b.runtime| == |jobs| - Place(jobs, |jobs|)
            && (forall i: nat :: i < |jobs| ==> PlacedRight(jobs, b, i))
  {
    PlacePrefix(jobs, |jobs|, |jobs|);
    if jobs != [] {
      var n := |jobs| - 1;
      SplitPlaces(jobs[..n]);
      PlacePrefix(jobs, n, n);
      forall i: nat | i < |jobs| ensures PlacedRight(jobs, SplitJobs(jobs), i) {
        PlacePrefix(jobs, i, n);
        assert i < n ==> PlacedRight(jobs[..n], SplitJobs(jobs[..n]), i);
      }
    }
  }

  ghost predicate PlacedRight(jobs: seq<PlanJob>, b: Batch, i: nat)
    requires i < |jobs|
  {
    var p := Place(jobs, i);
    if IsSync(jobs[i].action) then 0 <= i - p < |b.runtime| && b.runtime[i - p] == jobs[i].action
    else p < |b.remaining| && b.remaining[p] == MemberOf(jobs[i])
  }

  // ------------------------------------------------------------------- the rules

  lemma NeedsMeaning(j: PlanJob, runtime: PlanAction)
    ensures RequiredBy(runtime, MemberOf(j).action, MemberOf(j).previousType) <==> Needs(j, runtime)
  {
    OwnerOfActionMeaning(j.action, runtime.forwardType);
    OwnerMeaning(MemberOf(j).previousType, runtime.forwardType);
  }

  lemma HandsOverMeaning(j: PlanJob)
    ensures MemberOf(j).needsHandoff <==> HandsOver(j)
  {
  }

  lemma LeavesGroupMeaning(j: PlanJob, t: int)
    ensures MemberOf(j).batchKey == Some(t) <==> LeavesGroup(j, t)
  {
    OwnerOfActionMeaning(j.action, GostSync);
    OwnerOfActionMeaning(j.action, NginxSync);
  }

  /** The port's listeners move from one shared runtime to another. */
  predicate Moves(j: PlanJob, from: ForwardType, to: ForwardType) {
    HandsOver(j) && LivedIn(j, from) && Serves(to, j.action) && from != to
  }

  lemma MovesMeaning(j: PlanJob, from: ForwardType, to: ForwardType)
    ensures MovesOwner(MemberOf(j), from, to) <==> Moves(j, from, to)
  {
    HandsOverMeaning(j);
    OwnerMeaning(MemberOf(j).previousType, from);
    OwnerOfActionMeaning(j.action, to);
  }

  /** Job i of the batch is one that hands its port over, and some runtime job of the batch is needed by it. */
  ghost predicate HandsOverIn(jobs: seq<PlanJob>, i: nat) {
    i < |jobs| && !IsSync(jobs[i].action) && HandsOver(jobs[i]) && exists r :: 0 <= r < |jobs| && Needs(jobs[i], jobs[r].action)
  }

  /** Every runtime of the batch is a job of the list. */
  lemma {:induction false} RuntimeIsJob(jobs: seq<PlanJob>, r: nat) returns (k: nat)
    requires r < |SplitJobs(jobs).runtime|
    ensures k < |jobs| && IsSync(jobs[k].action) && jobs[k].action == SplitJobs(jobs).runtime[r] && k - Place(jobs, k) == r
  {
    var n := |jobs| - 1;
    SplitPlaces(jobs);
    SplitPlaces(jobs[..n]);
    PlacePrefix(jobs, n, n);
    if r < |SplitJobs(jobs[..n]).runtime| {
      k := RuntimeIsJob(jobs[..n], r);
      PlacePrefix(jobs, k, n);
    } else {
      k := n;
      assert PlacedRight(jobs, SplitJobs(jobs), n);
    }
  }

  /**
   For every list of jobs: job i waits for the runtime of job r exactly if it needs it, hands
   over first exactly if it takes a port from something else and needs some runtime, and joins
   the entry group of tunnel t exactly if it then also leaves that group.
   */
  lemma {:induction false} JobRules(jobs: seq<PlanJob>, i: nat, r: nat, t: int)
    requires i < |jobs| && !IsSync(jobs[i].action) && r < |jobs| && IsSync(jobs[r].action)
    ensures var b, m := SplitJobs(jobs), Place(jobs, i);
            && (Relevant(b, r - Place(jobs, r), m) <==> Needs(jobs[i], jobs[r].action))
            && (HasHandoff(b, m) <==> HandsOverIn(jobs, i))
            && (Joins(b, m, t) <==> HandsOverIn(jobs, i) && LeavesGroup(jobs[i], t))
  {
    var b, m := SplitJobs(jobs), Place(jobs, i);
    SplitPlaces(jobs);
    assert PlacedRight(jobs, b, i) && PlacedRight(jobs, b, r);
    NeedsMeaning(jobs[i], jobs[r].action);
    HandsOverMeaning(jobs[i]);
    LeavesGroupMeaning(jobs[i], t);
    if q :| 0 <= q < |b.runtime| && Relevant(b, q, m) {
      var k := RuntimeIsJob(jobs, q);
      NeedsMeaning(jobs[i], jobs[k].action);
    }
    if k :| 0 <= k < |jobs| && Needs(jobs[i], jobs[k].action) {
      assert PlacedRight(jobs, b, k);
      NeedsMeaning(jobs[i], jobs[k].action);
      assert Relevant(b, k - Place(jobs, k), m);
    }
  }
}
