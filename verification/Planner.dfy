/**
 The batch planner (agent/actions.go, prepareDesiredActionJobsWithOwnerResolver
 and linkOneWaySharedRuntimeTransitions): handoffs run before the shared runtimes
 that need them, shared runtimes before the per-port jobs, and an owner change in
 one direction orders two shared runtimes.
 */
module Planner {
  import opened ActionKeys
  import opened Options

  datatype ForwardType =
    | Nginx | NginxTunnel | NginxTunnelExit
    | Gost | GostTunnel | GostTunnelExit | GostTunnelHop
    | Realm | Socat | ForwardX | ForwardXTunnel | Guard
    | GostSync | NginxSync | WireGuardSync
    | OtherType(name: string)

  const NO_TYPE := OtherType("")

  datatype Fxp = Fxp(wireGuard: bool, tunnelID: int)

  datatype PlanAction = PlanAction(
    apply: bool,
    runtimeStatus: bool,
    forwardType: ForwardType,
    backend: ForwardType,
    sourcePort: int,
    ruleID: int,
    tunnelID: int,
    protocol: Protocol,
    fxp: Option<Fxp>)

  /** What ran on the port before: localActionRuntimeSnapshot. */
  datatype Snapshot = Snapshot(
    valid: bool,
    tunnel: bool,
    ruleID: int,
    tunnelID: int,
    forwardType: ForwardType,
    protocol: Option<Protocol>,
    hasState: bool)

  /** `resolvedType` and `diskHandoff` are what the agent would read from the host for this job. */
  datatype PlanJob = PlanJob(action: PlanAction, previous: Snapshot, resolvedType: ForwardType, diskHandoff: bool)

  predicate IsSharedRuntimeSync(a: PlanAction) {
    a.runtimeStatus && (a.forwardType.GostSync? || a.forwardType.NginxSync? || a.forwardType.WireGuardSync?)
  }

  function OwnerOfType(t: ForwardType): Option<ForwardType> {
    if t.Nginx? || t.NginxTunnel? || t.NginxTunnelExit? then Some(NginxSync)
    else if t.Gost? || t.GostTunnel? || t.GostTunnelExit? || t.GostTunnelHop? then Some(GostSync)
    else None
  }

  function OwnerOfAction(a: PlanAction): Option<ForwardType> {
    if a.forwardType.Guard? then OwnerOfType(a.backend) else OwnerOfType(a.forwardType)
  }

  predicate RequiredBy(runtime: PlanAction, dependent: PlanAction, previousType: ForwardType) {
    && IsSharedRuntimeSync(runtime)
    && !dependent.runtimeStatus
    && (|| Some(runtime.forwardType) == OwnerOfAction(dependent)
        || Some(runtime.forwardType) == OwnerOfType(previousType)
        || (runtime.forwardType.WireGuardSync? && dependent.fxp.Some? && dependent.fxp.value.wireGuard &&
            dependent.fxp.value.tunnelID > 0 && dependent.fxp.value.tunnelID == runtime.tunnelID))
  }

  predicate NeedsSharedRuntimePhase(a: PlanAction) {
    && !a.runtimeStatus && ValidPort(a.sourcePort)
    && (a.fxp.Some? ||
        (match a.forwardType
         case GostSync => false
         case NginxSync => false
         case WireGuardSync => false
         case OtherType(_) => false
         case Nginx => true case NginxTunnel => true case NginxTunnelExit => true
         case Gost => true case GostTunnel => true case GostTunnelExit => true case GostTunnelHop => true
         case Realm => true case Socat => true case ForwardX => true case ForwardXTunnel => true case Guard => true))
  }

  predicate TunnelNeedsHandoff(a: PlanAction, s: Snapshot) {
    s.tunnelID > 0 && (s.tunnelID != a.tunnelID || (s.forwardType != NO_TYPE && s.forwardType != a.forwardType))
  }

  predicate RuleNeedsHandoff(a: PlanAction, s: Snapshot) {
    s.ruleID > 0 &&
    (|| s.ruleID != a.ruleID
     || (s.forwardType != NO_TYPE && s.forwardType != a.forwardType)
     || (s.tunnelID != a.tunnelID && (s.tunnelID > 0 || a.tunnelID > 0))
     || (s.protocol.Some? && s.protocol.value != a.protocol))
  }

  predicate NeedsHandoff(j: PlanJob) {
    && j.action.apply && NeedsSharedRuntimePhase(j.action) && ValidPort(j.action.sourcePort)
    && (if !j.previous.valid then j.diskHandoff
        else if j.previous.tunnel then TunnelNeedsHandoff(j.action, j.previous)
        else RuleNeedsHandoff(j.action, j.previous))
  }

  function PreviousType(j: PlanJob): ForwardType {
    if j.previous.forwardType == NO_TYPE then j.resolvedType else j.previous.forwardType
  }

  /** The entry group whose handoffs must be finalized together. */
  function BatchKey(j: PlanJob): Option<int> {
    if j.action.fxp.None? && OwnerOfAction(j.action).Some? && j.previous.valid && !j.previous.tunnel && j.previous.hasState &&
       j.previous.forwardType.ForwardX? && j.previous.ruleID > 0 && j.previous.tunnelID > 0
    then Some(j.previous.tunnelID) else None
  }

  // ---------------------------------------------------------------- the batch

  datatype JobId = HandoffOf(i: nat) | RuntimeOf(r: nat) | RemainingOf(i: nat)

  /** What the planner uses of a job that is not a shared runtime sync. */
  datatype Member = Member(action: PlanAction, previousType: ForwardType, needsHandoff: bool, batchKey: Option<int>)

  function MemberOf(j: PlanJob): Member {
    Member(j.action, PreviousType(j), NeedsHandoff(j), BatchKey(j))
  }

  /** Shared runtime jobs and the rest, each in batch order. */
  datatype Batch = Batch(runtime: seq<PlanAction>, remaining: seq<Member>)

  function SplitJobs(jobs: seq<PlanJob>): Batch {
    if jobs == [] then Batch([], [])
    else
      var b, last := SplitJobs(jobs[..|jobs| - 1]), jobs[|jobs| - 1];
      if IsSharedRuntimeSync(last.action) then b.(runtime := b.runtime + [last.action])
      else b.(remaining := b.remaining + [MemberOf(last)])
  }

  predicate Relevant(b: Batch, r: int, i: int) {
    0 <= r < |b.runtime| && 0 <= i < |b.remaining| &&
    RequiredBy(b.runtime[r], b.remaining[i].action, b.remaining[i].previousType)
  }

  /** The runtimes among the first m that remaining job i waits for. */
  function RelevantIds(b: Batch, i: nat, m: nat): seq<JobId> {
    if m == 0 then []
    else RelevantIds(b, i, m - 1) + (if Relevant(b, m - 1, i) then [RuntimeOf(m - 1)] else [])
  }

  predicate HasHandoff(b: Batch, i: int) {
    0 <= i < |b.remaining| && b.remaining[i].needsHandoff && exists r :: 0 <= r < |b.runtime| && Relevant(b, r, i)
  }

  /** The handoffs of the first n remaining jobs that runtime r waits for. */
  function HandoffIds(b: Batch, r: nat, n: nat): seq<JobId> {
    if n == 0 then []
    else HandoffIds(b, r, n - 1) + (if HasHandoff(b, n - 1) && Relevant(b, r, n - 1) then [HandoffOf(n - 1)] else [])
  }

  function Handoffs(b: Batch, n: nat): seq<JobId> {
    if n == 0 then []
    else Handoffs(b, n - 1) + (if HasHandoff(b, n - 1) then [HandoffOf(n - 1)] else [])
  }

  /** Some job moves a port from shared runtime `from` to shared runtime `to`. */
  ghost predicate Transition(b: Batch, from: ForwardType, to: ForwardType) {
    exists i :: 0 <= i < |b.remaining| && MovesOwner(b.remaining[i], from, to)
  }

  predicate MovesOwner(j: Member, from: ForwardType, to: ForwardType) {
    j.needsHandoff && OwnerOfType(j.previousType) == Some(from) && OwnerOfAction(j.action) == Some(to) && from != to
  }

  /** The last runtime job of a type. */
  function LastIndex(js: seq<PlanAction>, t: ForwardType): Option<nat> {
    if js == [] then None
    else if js[|js| - 1].forwardType == t then Some(|js| - 1)
    else LastIndex(js[..|js| - 1], t)
  }

  /** Runtime d waits for runtime p because ports move from p's owner to d's and none the other way. */
  ghost predicate Linked(b: Batch, p: nat, d: nat) {
    exists from, to :: LinkedBy(b, from, to, p, d)
  }

  ghost predicate LinkedBy(b: Batch, from: ForwardType, to: ForwardType, p: nat, d: nat) {
    && Transition(b, from, to) && !Transition(b, to, from)
    && LastIndex(b.runtime, from) == Some(p) && LastIndex(b.runtime, to) == Some(d) && p != d
  }

  // ---------------------------------------------------------------- the edges

  /** Result prerequisites per job, and dependentCount per result. */
  datatype Graph = Graph(runtimePre: seq<seq<JobId>>, remainingPre: seq<seq<JobId>>, dependents: map<JobId, nat>)

  function CountOf(g: Graph, id: JobId): nat {
    if id in g.dependents then g.dependents[id] else 0
  }

  function Edges<T(==)>(rows: seq<seq<T>>, id: T): nat {
    if rows == [] then 0 else Edges(rows[..|rows| - 1], id) + multiset(rows[|rows| - 1])[id]
  }

  lemma {:induction false} EdgesUpdate<T>(rows: seq<seq<T>>, i: nat, row: seq<T>, id: T)
    requires i < |rows|
    ensures Edges(rows[i := row], id) == Edges(rows, id) - multiset(rows[i])[id] + multiset(row)[id]
  {
    var n := |rows| - 1;
    if i == n {
      assert rows[i := row][..n] == rows[..n];
    } else {
      assert rows[i := row][..n] == rows[..n][i := row];
      EdgesUpdate(rows[..n], i, row, id);
    }
  }

  /** Every result counts exactly the prerequisites that point to it. */
  ghost predicate Counted(g: Graph) {
    forall id :: CountOf(g, id) == Edges(g.runtimePre, id) + Edges(g.remainingPre, id)
  }

  function AddRuntimeEdge(g: Graph, r: nat, id: JobId): Graph
    requires r < |g.runtimePre|
  {
    Graph(g.runtimePre[r := g.runtimePre[r] + [id]], g.remainingPre, g.dependents[id := CountOf(g, id) + 1])
  }

  function AddRemainingEdge(g: Graph, i: nat, id: JobId): Graph
    requires i < |g.remainingPre|
  {
    Graph(g.runtimePre, g.remainingPre[i := g.remainingPre[i] + [id]], g.dependents[id := CountOf(g, id) + 1])
  }

  lemma AddEdgeCounted(g: Graph, k: nat, id: JobId)
    requires Counted(g)
    ensures k < |g.runtimePre| ==> Counted(AddRuntimeEdge(g, k, id))
    ensures k < |g.remainingPre| ==> Counted(AddRemainingEdge(g, k, id))
  {
    if k < |g.runtimePre| {
      var g' := AddRuntimeEdge(g, k, id);
      forall x ensures CountOf(g', x) == Edges(g'.runtimePre, x) + Edges(g'.remainingPre, x) {
        EdgesUpdate(g.runtimePre, k, g.runtimePre[k] + [id], x);
      }
    }
    if k < |g.remainingPre| {
      var g' := AddRemainingEdge(g, k, id);
      forall x ensures CountOf(g', x) == Edges(g'.runtimePre, x) + Edges(g'.remainingPre, x) {
        EdgesUpdate(g.remainingPre, k, g.remainingPre[k] + [id], x);
      }
    }
  }

  // --------------------------------------------------------------- the planner

  ghost predicate Sized(b: Batch, g: Graph) {
    |g.runtimePre| == |b.runtime| && |g.remainingPre| == |b.remaining|
  }

  /** Job i waits for every runtime relevant to it. */
  method WaitForRuntimes(b: Batch, i: nat, g: Graph) returns (g': Graph, any: bool)
    requires Sized(b, g) && Counted(g) && i < |b.remaining| && g.remainingPre[i] == []
    ensures Sized(b, g') && Counted(g') && g'.runtimePre == g.runtimePre
    ensures g'.remainingPre == g.remainingPre[i := RelevantIds(b, i, |b.runtime|)]
    ensures any <==> exists r :: 0 <= r < |b.runtime| && Relevant(b, r, i)
  {
    g', any := g, false;
    for r := 0 to |b.runtime|
      invariant Sized(b, g') && Counted(g') && g'.runtimePre == g.runtimePre
      invariant g'.remainingPre == g.remainingPre[i := RelevantIds(b, i, r)]
      invariant any <==> exists q :: 0 <= q < r && Relevant(b, q, i)
    {
      if Relevant(b, r, i) {
        AddEdgeCounted(g', i, RuntimeOf(r));
        g' := AddRemainingEdge(g', i, RuntimeOf(r));
        any := true;
      } else {
        assert RelevantIds(b, i, r + 1) == RelevantIds(b, i, r);
      }
    }
  }

  /** Every runtime relevant to job i first waits for the handoff of job i. */
  method HandoffFirst(b: Batch, i: nat, g: Graph) returns (g': Graph)
    requires Sized(b, g) && Counted(g) && i < |b.remaining|
    ensures Sized(b, g') && Counted(g') && g'.remainingPre == g.remainingPre
    ensures forall r :: 0 <= r < |b.runtime| ==>
              g'.runtimePre[r] == g.runtimePre[r] + (if Relevant(b, r, i) then [HandoffOf(i)] else [])
  {
    g' := g;
    for r := 0 to |b.runtime|
      invariant Sized(b, g') && Counted(g') && g'.remainingPre == g.remainingPre
      invariant forall q :: r <= q < |b.runtime| ==> g'.runtimePre[q] == g.runtimePre[q]
      invariant forall q :: 0 <= q < r ==>
                  g'.runtimePre[q] == g.runtimePre[q] + (if Relevant(b, q, i) then [HandoffOf(i)] else [])
    {
      if Relevant(b, r, i) {
        AddEdgeCounted(g', r, HandoffOf(i));
        g' := AddRuntimeEdge(g', r, HandoffOf(i));
      }
    }
  }

  /** The handoffs that share the fate of one entry group, in batch order. */
  function Participants(b: Batch, n: nat, tunnel: int): seq<nat> {
    if n == 0 then []
    else Participants(b, n - 1, tunnel) +
         (if Joins(b, n - 1, tunnel) then [n - 1] else [])
  }

  /** One iteration of the planning loop. */
  method PlanOne(b: Batch, i: nat, g: Graph) returns (g': Graph, handoff: bool)
    requires Sized(b, g) && Counted(g) && i < |b.remaining| && g.remainingPre[i] == []
    ensures Sized(b, g') && Counted(g') && (handoff <==> HasHandoff(b, i))
    ensures g'.remainingPre == g.remainingPre[i := RelevantIds(b, i, |b.runtime|)]
    ensures forall r :: 0 <= r < |b.runtime| ==>
              g'.runtimePre[r] == g.runtimePre[r] + (if HasHandoff(b, i) && Relevant(b, r, i) then [HandoffOf(i)] else [])
  {
    var any;
    g', any := WaitForRuntimes(b, i, g);
    handoff := any && b.remaining[i].needsHandoff;
    if handoff {
      g' := HandoffFirst(b, i, g');
    } else {
      assert forall r :: 0 <= r < |b.runtime| ==> g.runtimePre[r] + [] == g.runtimePre[r];
    }
  }

  method PlanHandoffs(b: Batch) returns (g: Graph, handoffs: seq<JobId>)
    ensures Sized(b, g) && Counted(g)
    ensures forall i :: 0 <= i < |b.remaining| ==> g.remainingPre[i] == RelevantIds(b, i, |b.runtime|)
    ensures forall r :: 0 <= r < |b.runtime| ==> g.runtimePre[r] == HandoffIds(b, r, |b.remaining|)
    ensures handoffs == Handoffs(b, |b.remaining|)
  {
    g := Graph(seq(|b.runtime|, _ => []), seq(|b.remaining|, _ => []), map[]);
    NoEdges(g.runtimePre);
    NoEdges(g.remainingPre);
    handoffs := [];
    for i := 0 to |b.remaining|
      invariant Sized(b, g) && Counted(g)
      invariant forall j :: 0 <= j < i ==> g.remainingPre[j] == RelevantIds(b, j, |b.runtime|)
      invariant forall j :: i <= j < |b.remaining| ==> g.remainingPre[j] == []
      invariant forall r :: 0 <= r < |b.runtime| ==> g.runtimePre[r] == HandoffIds(b, r, i)
      invariant handoffs == Handoffs(b, i)
    {
      var handoff;
      g, handoff := PlanOne(b, i, g);
      handoffs := handoffs + if handoff then [HandoffOf(i)] else [];
    }
  }

  function InBatch(batches: map<int, seq<nat>>, t: int): seq<nat> {
    if t in batches then batches[t] else []
  }

  predicate Joins(b: Batch, i: int, t: int) {
    HasHandoff(b, i) && b.remaining[i].batchKey == Some(t)
  }

  function Joined(b: Batch, i: nat, batches: map<int, seq<nat>>): map<int, seq<nat>>
    requires i < |b.remaining|
  {
    var key := b.remaining[i].batchKey;
    if HasHandoff(b, i) && key.Some? then batches[key.value := InBatch(batches, key.value) + [i]] else batches
  }

  lemma JoinedMembers(b: Batch, i: nat, batches: map<int, seq<nat>>, t: int)
    requires i < |b.remaining|
    ensures InBatch(Joined(b, i, batches), t) == InBatch(batches, t) + (if Joins(b, i, t) then [i] else [])
  {
  }

  /** Which handoffs share the fate of which entry group. */
  method PlanBatches(b: Batch) returns (batches: map<int, seq<nat>>)
    ensures forall t :: InBatch(batches, t) == Participants(b, |b.remaining|, t)
  {
    batches := map[];
    for i := 0 to |b.remaining|
      invariant forall t :: InBatch(batches, t) == Participants(b, i, t)
    {
      forall t ensures InBatch(Joined(b, i, batches), t) == Participants(b, i, t) + (if Joins(b, i, t) then [i] else []) {
        JoinedMembers(b, i, batches, t);
      }
      batches := Joined(b, i, batches);
    }
  }

  lemma {:induction false} ParticipantsMeaning(b: Batch, n: nat, t: int)
    ensures forall i :: i in Participants(b, n, t) <==> i < n && Joins(b, i, t)
    ensures forall j, k :: 0 <= j < k < |Participants(b, n, t)| ==> Participants(b, n, t)[j] < Participants(b, n, t)[k]
  {
    if n > 0 {
      ParticipantsMeaning(b, n - 1, t);
      var before, r := Participants(b, n - 1, t), Participants(b, n, t);
      forall j, k | 0 <= j < k < |r| ensures r[j] < r[k] {
        assert before[j] in before && before[j] < n - 1;
      }
    }
  }

  lemma {:induction false} NoParticipants(b: Batch, n: nat, t: int)
    requires (b.runtime == [] || b.remaining == []) && n <= |b.remaining|
    ensures Participants(b, n, t) == []
  {
    if n > 0 {
      NoParticipants(b, n - 1, t);
    }
  }

  lemma {:induction false} NoEdges<T>(rows: seq<seq<T>>)
    requires forall i :: 0 <= i < |rows| ==> rows[i] == []
    ensures forall id :: Edges(rows, id) == 0
  {
    if rows != [] {
      NoEdges(rows[..|rows| - 1]);
    }
  }

  /** Which shared runtimes lose ports to which others. */
  method FindTransitions(b: Batch) returns (moves: set<(ForwardType, ForwardType)>)
    ensures forall from, to :: (from, to) in moves <==> Transition(b, from, to)
  {
    moves := {};
    for i := 0 to |b.remaining|
      invariant forall from, to :: (from, to) in moves <==> exists j :: 0 <= j < i && MovesOwner(b.remaining[j], from, to)
    {
      var j := b.remaining[i];
      if j.needsHandoff {
        var from, to := OwnerOfType(j.previousType), OwnerOfAction(j.action);
        if from.Some? && to.Some? && from != to {
          assert MovesOwner(j, from.value, to.value);
          moves := moves + {(from.value, to.value)};
        }
      }
    }
  }

  /** Only two runtimes own ports, so at most one ordered pair is ever linked. */
  lemma LinkUnique(b: Batch, f1: ForwardType, t1: ForwardType, p1: nat, d1: nat, f2: ForwardType, t2: ForwardType, p2: nat, d2: nat)
    requires LinkedBy(b, f1, t1, p1, d1) && LinkedBy(b, f2, t2, p2, d2)
    ensures f1 == f2 && t1 == t2 && p1 == p2 && d1 == d2
  {
  }

  /** The row of runtime r once the pairs in `moves` have been looked at. */
  ghost predicate RowLinked(b: Batch, row: seq<JobId>, r: nat, moves: set<(ForwardType, ForwardType)>) {
    var base := HandoffIds(b, r, |b.remaining|);
    && (forall m, p :: m in moves && LinkedBy(b, m.0, m.1, p, r) ==> row == base + [RuntimeOf(p)])
    && ((forall m, p :: m in moves ==> !LinkedBy(b, m.0, m.1, p, r)) ==> row == base)
  }

  lemma {:induction false} RowAfterMove(b: Batch, row: seq<JobId>, row': seq<JobId>, r: nat, moves: set<(ForwardType, ForwardType)>, m: (ForwardType, ForwardType))
    requires RowLinked(b, row, r, moves) && m !in moves
    requires forall p :: LinkedBy(b, m.0, m.1, p, r) ==> row' == HandoffIds(b, r, |b.remaining|) + [RuntimeOf(p)]
    requires (forall p :: !LinkedBy(b, m.0, m.1, p, r)) ==> row' == row
    ensures RowLinked(b, row', r, moves + {m})
  {
    if p :| LinkedBy(b, m.0, m.1, p, r) {
      forall x, q | x in moves + {m} && LinkedBy(b, x.0, x.1, q, r)
        ensures row' == HandoffIds(b, r, |b.remaining|) + [RuntimeOf(q)]
      {
        LinkUnique(b, m.0, m.1, p, r, x.0, x.1, q, r);
      }
    }
  }

  method FindLast(js: seq<PlanAction>, t: ForwardType) returns (index: Option<nat>)
    ensures index == LastIndex(js, t)
  {
    index := None;
    for i := 0 to |js|
      invariant index == LastIndex(js[..i], t)
    {
      assert js[..i + 1][..i] == js[..i];
      if js[i].forwardType == t {
        index := Some(i);
      }
    }
    assert js[..|js|] == js;
  }

  lemma {:induction false} LastIndexMeaning(js: seq<PlanAction>, t: ForwardType)
    ensures LastIndex(js, t).Some? ==> LastIndex(js, t).value < |js| && js[LastIndex(js, t).value].forwardType == t
    ensures forall i :: 0 <= i < |js| && js[i].forwardType == t ==> LastIndex(js, t).Some? && i <= LastIndex(js, t).value
  {
    if js != [] {
      LastIndexMeaning(js[..|js| - 1], t);
    }
  }

  lemma {:induction false} HandoffIdsMeaning(b: Batch, r: nat, n: nat, x: JobId)
    requires n <= |b.remaining|
    ensures x in HandoffIds(b, r, n) <==> x.HandoffOf? && x.i < n && HasHandoff(b, x.i) && Relevant(b, r, x.i)
  {
    if n > 0 {
      HandoffIdsMeaning(b, r, n - 1, x);
    }
  }

  lemma {:induction false} RelevantIdsMeaning(b: Batch, i: nat, m: nat, x: JobId)
    requires m <= |b.runtime|
    ensures x in RelevantIds(b, i, m) <==> x.RuntimeOf? && x.r < m && Relevant(b, x.r, i)
  {
    if m > 0 {
      RelevantIdsMeaning(b, i, m - 1, x);
    }
  }

  lemma {:induction false} HandoffsMeaning(b: Batch, n: nat, x: JobId)
    requires n <= |b.remaining|
    ensures x in Handoffs(b, n) <==> x.HandoffOf? && x.i < n && HasHandoff(b, x.i)
  {
    if n > 0 {
      HandoffsMeaning(b, n - 1, x);
      var tail := if HasHandoff(b, n - 1) then [HandoffOf(n - 1)] else [];
      assert x in Handoffs(b, n) <==> x in Handoffs(b, n - 1) || x in tail;
    }
  }

  /** Orders two shared runtimes for every one-way move; the pairs may come in any order. */
  method LinkTransitions(b: Batch, g: Graph, moves: set<(ForwardType, ForwardType)>) returns (g': Graph)
    requires Sized(b, g) && Counted(g)
    requires forall r :: 0 <= r < |b.runtime| ==> g.runtimePre[r] == HandoffIds(b, r, |b.remaining|)
    requires forall from, to :: (from, to) in moves <==> Transition(b, from, to)
    ensures Sized(b, g') && Counted(g') && g'.remainingPre == g.remainingPre
    ensures forall r :: 0 <= r < |b.runtime| ==> RowLinked(b, g'.runtimePre[r], r, moves)
  {
    g' := g;
    var rest := moves;
    while rest != {}
      invariant Sized(b, g') && Counted(g') && g'.remainingPre == g.remainingPre && rest <= moves
      invariant forall r :: 0 <= r < |b.runtime| ==> RowLinked(b, g'.runtimePre[r], r, moves - rest)
      decreases rest
    {
      var m :| m in rest;
      ghost var before, seen := g', moves - rest;
      var p := FindLast(b.runtime, m.0);
      var d := FindLast(b.runtime, m.1);
      LastIndexMeaning(b.runtime, m.0);
      LastIndexMeaning(b.runtime, m.1);
      assert (m.1, m.0) in moves <==> Transition(b, m.1, m.0);
      assert (m.0, m.1) in moves <==> Transition(b, m.0, m.1);
      if p.Some? && d.Some? && p != d && (m.1, m.0) !in moves {
        assert LinkedBy(b, m.0, m.1, p.value, d.value);
        RowStillBase(b, g'.runtimePre[d.value], m, p.value, d.value, seen);
        AddEdgeCounted(g', d.value, RuntimeOf(p.value));
        g' := AddRuntimeEdge(g', d.value, RuntimeOf(p.value));
      }
      forall r | 0 <= r < |b.runtime| ensures RowLinked(b, g'.runtimePre[r], r, seen + {m}) {
        RowAfterMove(b, before.runtimePre[r], g'.runtimePre[r], r, seen, m);
      }
      rest := rest - {m};
      assert moves - rest == seen + {m};
    }
    assert moves - rest == moves;
  }

  /** Before its one link is made, a runtime waits for handoffs only. */
  lemma {:induction false} RowStillBase(b: Batch, row: seq<JobId>, m: (ForwardType, ForwardType), p: nat, d: nat, seen: set<(ForwardType, ForwardType)>)
    requires LinkedBy(b, m.0, m.1, p, d) && m !in seen && RowLinked(b, row, d, seen)
    ensures row == HandoffIds(b, d, |b.remaining|)
  {
    forall x, q | x in seen ensures !LinkedBy(b, x.0, x.1, q, d) {
      if LinkedBy(b, x.0, x.1, q, d) {
        LinkUnique(b, m.0, m.1, p, d, x.0, x.1, q, d);
      }
    }
  }

  function RuntimeIds(n: nat): seq<JobId> {
    if n == 0 then [] else RuntimeIds(n - 1) + [RuntimeOf(n - 1)]
  }

  function RemainingIds(n: nat): seq<JobId> {
    if n == 0 then [] else RemainingIds(n - 1) + [RemainingOf(n - 1)]
  }

  /** The order in which the batch enters the worker queue. */
  function QueueOrder(b: Batch): seq<JobId> {
    Handoffs(b, |b.remaining|) + RuntimeIds(|b.runtime|) + RemainingIds(|b.remaining|)
  }

  /** The graph the planner builds. */
  ghost predicate IsPlan(b: Batch, g: Graph) {
    && Sized(b, g) && Counted(g)
    && (forall i :: 0 <= i < |b.remaining| ==> g.remainingPre[i] == RelevantIds(b, i, |b.runtime|))
    && (forall r, p :: 0 <= r < |b.runtime| && Linked(b, p, r) ==> g.runtimePre[r] == HandoffIds(b, r, |b.remaining|) + [RuntimeOf(p)])
    && (forall r :: 0 <= r < |b.runtime| && (forall p :: !Linked(b, p, r)) ==> g.runtimePre[r] == HandoffIds(b, r, |b.remaining|))
  }

  lemma {:induction false} PlanFromRows(b: Batch, g: Graph, moves: set<(ForwardType, ForwardType)>)
    requires Sized(b, g) && Counted(g)
    requires forall i :: 0 <= i < |b.remaining| ==> g.remainingPre[i] == RelevantIds(b, i, |b.runtime|)
    requires forall from, to :: (from, to) in moves <==> Transition(b, from, to)
    requires forall r :: 0 <= r < |b.runtime| ==> RowLinked(b, g.runtimePre[r], r, moves)
    ensures IsPlan(b, g)
  {
    forall r, p | 0 <= r < |b.runtime| && Linked(b, p, r)
      ensures g.runtimePre[r] == HandoffIds(b, r, |b.remaining|) + [RuntimeOf(p)]
    {
      var from, to :| LinkedBy(b, from, to, p, r);
      assert (from, to) in moves && RowLinked(b, g.runtimePre[r], r, moves);
      assert LinkedBy(b, (from, to).0, (from, to).1, p, r);
    }
    forall r | 0 <= r < |b.runtime| && (forall p :: !Linked(b, p, r))
      ensures g.runtimePre[r] == HandoffIds(b, r, |b.remaining|)
    {
      assert RowLinked(b, g.runtimePre[r], r, moves);
      forall m, p | m in moves ensures !LinkedBy(b, m.0, m.1, p, r) {
        assert !Linked(b, p, r);
      }
    }
  }

  method Split(jobs: seq<PlanJob>) returns (b: Batch)
    ensures b == SplitJobs(jobs)
  {
    b := Batch([], []);
    for k := 0 to |jobs|
      invariant b == SplitJobs(jobs[..k])
    {
      assert jobs[..k + 1][..k] == jobs[..k];
      if IsSharedRuntimeSync(jobs[k].action) {
        b := b.(runtime := b.runtime + [jobs[k].action]);
      } else {
        b := b.(remaining := b.remaining + [MemberOf(jobs[k])]);
      }
    }
    assert jobs[..|jobs|] == jobs;
  }

  /** Without shared runtimes, or with a single job, nothing waits for anything. */
  lemma TrivialPlan(b: Batch, g: Graph)
    requires b.runtime == [] || b.remaining == []
    requires g == Graph(seq(|b.runtime|, _ => []), seq(|b.remaining|, _ => []), map[])
    ensures IsPlan(b, g)
  {
    NoEdges(g.runtimePre);
    NoEdges(g.remainingPre);
    forall p, d ensures !Linked(b, p, d) {
      if from, to :| LinkedBy(b, from, to, p, d) {
        LastIndexMeaning(b.runtime, from);
        assert false;
      }
    }
  }

  lemma {:induction false} SplitSizes(jobs: seq<PlanJob>)
    ensures |SplitJobs(jobs).runtime| + |SplitJobs(jobs).remaining| == |jobs|
  {
    if jobs != [] {
      SplitSizes(jobs[..|jobs| - 1]);
    }
  }

  method Prepare(jobs: seq<PlanJob>) returns (b: Batch, g: Graph, order: seq<JobId>, groups: map<int, seq<nat>>)
    ensures b == SplitJobs(jobs) && IsPlan(b, g) && order == QueueOrder(b)
    ensures forall t :: InBatch(groups, t) == Participants(b, |b.remaining|, t)
  {
    b := Split(jobs);
    SplitSizes(jobs);
    if |jobs| < 2 || b.runtime == [] {
      g := Graph(seq(|b.runtime|, _ => []), seq(|b.remaining|, _ => []), map[]);
      TrivialPlan(b, g);
      NoHandoffs(b, |b.remaining|);
      groups := map[];
      forall t ensures InBatch(groups, t) == Participants(b, |b.remaining|, t) {
        NoParticipants(b, |b.remaining|, t);
      }
      order := RuntimeIds(|b.runtime|) + RemainingIds(|b.remaining|);
    } else {
      var handoffs;
      g, handoffs := PlanHandoffs(b);
      groups := PlanBatches(b);
      var moves := FindTransitions(b);
      g := LinkTransitions(b, g, moves);
      PlanFromRows(b, g, moves);
      order := handoffs + RuntimeIds(|b.runtime|) + RemainingIds(|b.remaining|);
    }
  }

  lemma {:induction false} NoHandoffs(b: Batch, n: nat)
    requires (b.runtime == [] || b.remaining == []) && n <= |b.remaining|
    ensures Handoffs(b, n) == []
  {
    if n > 0 {
      NoHandoffs(b, n - 1);
    }
  }

  // ------------------------------------------------------- what the plan promises

  function Prereqs(g: Graph, id: JobId): seq<JobId> {
    match id
    case HandoffOf(_) => []
    case RuntimeOf(r) => if r < |g.runtimePre| then g.runtimePre[r] else []
    case RemainingOf(i) => if i < |g.remainingPre| then g.remainingPre[i] else []
  }

  ghost function Level(b: Batch, id: JobId): nat {
    match id
    case HandoffOf(_) => 0
    case RuntimeOf(r) => if exists p :: Linked(b, p, r) then 2 else 1
    case RemainingOf(_) => 3
  }

  lemma LinkedInRange(b: Batch, p: nat, d: nat)
    requires Linked(b, p, d)
    ensures p < |b.runtime| && d < |b.runtime| && p != d
    ensures forall q :: !Linked(b, q, p)
  {
    var from, to :| LinkedBy(b, from, to, p, d);
    LastIndexMeaning(b.runtime, from);
    LastIndexMeaning(b.runtime, to);
    forall q ensures !Linked(b, q, p) {
      if Linked(b, q, p) {
        var f, t :| LinkedBy(b, f, t, q, p);
        LinkUnique(b, from, to, p, d, f, t, q, p);
      }
    }
  }

  /** Exactly which prerequisites each job gets. */
  lemma PrereqMeaning(b: Batch, g: Graph, id: JobId, x: JobId)
    requires IsPlan(b, g)
    ensures x in Prereqs(g, id) <==>
            match id
            case HandoffOf(_) => false
            case RuntimeOf(r) => r < |b.runtime| &&
              ((x.HandoffOf? && HasHandoff(b, x.i) && Relevant(b, r, x.i)) || (x.RuntimeOf? && Linked(b, x.r, r)))
            case RemainingOf(i) => i < |b.remaining| && x.RuntimeOf? && Relevant(b, x.r, i)
  {
    match id
    case HandoffOf(_) =>
    case RuntimeOf(r) =>
      if r < |b.runtime| {
        HandoffIdsMeaning(b, r, |b.remaining|, x);
        if p :| Linked(b, p, r) {
          if x.RuntimeOf? && Linked(b, x.r, r) {
            assert g.runtimePre[r] == HandoffIds(b, r, |b.remaining|) + [RuntimeOf(x.r)];
          }
        }
      }
    case RemainingOf(i) =>
      if i < |b.remaining| {
        RelevantIdsMeaning(b, i, |b.runtime|, x);
      }
  }

  /** For every batch the prerequisite graph is acyclic: levels strictly fall along every edge. */
  lemma PlanIsAcyclic(b: Batch, g: Graph, id: JobId, x: JobId)
    requires IsPlan(b, g) && x in Prereqs(g, id)
    ensures Level(b, x) < Level(b, id)
  {
    PrereqMeaning(b, g, id, x);
    if id.RuntimeOf? && x.RuntimeOf? {
      LinkedInRange(b, x.r, id.r);
    }
  }
}
