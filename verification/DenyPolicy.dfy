/**
 The deny policy of the AmneziaWG relay (agent/amneziawg_helper.go): refreshes take
 a snapshot, resolve without any lock and commit only if the generation is still the
 same, racing against holds and replacements; every change of policy is followed by
 a pass that closes the sessions it forbids.
 */
module DenyPolicy {
  import opened Options

  datatype Addr = Addr(v4: bool, value: nat)
  datatype Host = Literal(addr: Addr) | Name(name: string)

  datatype Policy = Policy(
    hosts: seq<Host>,
    denied: set<Addr>,
    preserved: set<Addr>,
    resolutionFailed: bool,
    failed: bool,
    hold: bool,
    generation: nat)

  const MAX_RESULTS := 32

  /** `eligible`: a valid public IPv4 address with a port. */
  datatype Target = Target(addr: Addr, eligible: bool)

  predicate Allowed(p: Policy, t: Target) {
    t.eligible && !p.failed && t.addr !in p.denied
  }

  function Held(p: Policy): Policy {
    p.(generation := p.generation + 1, failed := true, hold := true)
  }

  function Replaced(p: Policy, hosts: seq<Host>, preserveCurrent: bool, releaseHold: bool): Policy {
    Policy(hosts, p.denied, if preserveCurrent then p.denied else {}, true, true, !releaseHold, p.generation + 1)
  }

  /** What one refresh found out: the addresses to deny and whether anything could not be resolved. */
  datatype Finding = Finding(denied: set<Addr>, failed: bool)

  function Committed(p: Policy, generation: nat, f: Finding): Policy {
    if generation != p.generation then p
    else p.(denied := f.denied, resolutionFailed := f.failed, failed := f.failed || p.hold)
  }

  // ------------------------------------------------------------------ resolution

  function V4(addrs: seq<Addr>): set<Addr> {
    set a | a in addrs && a.v4
  }

  /** Answers a lookup gives; an oversized answer counts as none. */
  function Answer(lookup: map<string, seq<Addr>>, h: Host): set<Addr> {
    match h
    case Literal(a) => if a.v4 then {a} else {}
    case Name(n) => if n in lookup && |lookup[n]| <= MAX_RESULTS then V4(lookup[n]) else {}
  }

  predicate Resolved(lookup: map<string, seq<Addr>>, h: Host) {
    h.Literal? || Answer(lookup, h) != {}
  }

  /** What a refresh of these hosts finds, given what the host's interfaces and the resolver say. */
  function Find(preserved: set<Addr>, hosts: seq<Host>, interfaces: Option<seq<Addr>>, lookup: map<string, seq<Addr>>): Finding {
    Finding(
      preserved + (if interfaces.Some? then V4(interfaces.value) else {}) +
      (set i, a | 0 <= i < |hosts| && a in Answer(lookup, hosts[i]) :: a),
      interfaces.None? || exists i :: 0 <= i < |hosts| && !Resolved(lookup, hosts[i]))
  }

  /** The unlocked middle of refreshDeniedDestinations. */
  method Resolve(preserved: set<Addr>, hosts: seq<Host>, interfaces: Option<seq<Addr>>, lookup: map<string, seq<Addr>>) returns (f: Finding)
    ensures f == Find(preserved, hosts, interfaces, lookup)
  {
    var denied, failed := preserved, false;
    if interfaces.None? {
      failed := true;
    } else {
      denied := denied + V4(interfaces.value);
    }
    ghost var base := denied;
    for n := 0 to |hosts|
      invariant forall a :: a in denied <==> a in base || exists i :: 0 <= i < n && a in Answer(lookup, hosts[i])
      invariant failed <==> interfaces.None? || exists i :: 0 <= i < n && !Resolved(lookup, hosts[i])
    {
      denied := denied + Answer(lookup, hosts[n]);
      if hosts[n].Name? && Answer(lookup, hosts[n]) == {} {
        failed := true;
      }
    }
    f := Finding(denied, failed);
    forall a ensures a in f.denied <==> a in Find(preserved, hosts, interfaces, lookup).denied {
    }
  }

  class Relay {
    var policy: Policy

    constructor (hosts: seq<Host>)
      ensures policy == Policy(hosts, {}, {}, false, true, false, 0)
    {
      policy := Policy(hosts, {}, {}, false, true, false, 0);
    }

    method DestinationAllowed(t: Target) returns (ok: bool)
      ensures ok <==> t.eligible && !policy.failed && t.addr !in policy.denied
    {
      if !t.eligible {
        return false;
      }
      var denied, failed := t.addr in policy.denied, policy.failed;
      return !failed && !denied;
    }

    method CommitRefresh(generation: nat, f: Finding) returns (changed: bool)
      modifies this
      ensures policy == Committed(old(policy), generation, f) && (changed <==> generation == old(policy).generation)
    {
      if generation != policy.generation {
        return false;
      }
      policy := policy.(denied := f.denied);
      policy := policy.(resolutionFailed := f.failed);
      policy := policy.(failed := f.failed || policy.hold);
      return true;
    }

    method FailClosed()
      modifies this
      ensures policy == Held(old(policy))
    {
      policy := policy.(generation := policy.generation + 1);
      policy := policy.(failed := true, hold := true);
    }

    method ReplaceDenyHosts(hosts: seq<Host>, preserveCurrent: bool, releaseHold: bool)
      modifies this
      ensures policy == Replaced(old(policy), hosts, preserveCurrent, releaseHold)
    {
      var preserved := {};
      if preserveCurrent {
        preserved := policy.denied;
      }
      policy := policy.(generation := policy.generation + 1, hosts := hosts, preserved := preserved);
      policy := policy.(resolutionFailed := true, failed := true, hold := !releaseHold);
    }
  }

  // ----------------------------------------------------------------- the race

  type ThreadId = nat
  type SessionId = nat

  /** A policy change obliges its thread to a pass; a pass looks at every registered TCP session under the session lock. */
  datatype Thread =
    | Idle
    | Resolving(generation: nat, preserved: set<Addr>, hosts: seq<Host>)
    | MustPass
    | Passing(seen: set<SessionId>)

  datatype Session = Session(target: Target, open: bool)

  /** Who holds the session lock: a close pass, or a registration between its check and its insertion. */
  datatype Lock = Free | ByPass(t: ThreadId) | ByRegistration(sid: SessionId, target: Target)

  /** What the last committed refresh was told, and the generation it resolved. */
  datatype Evidence = Evidence(generation: nat, interfaces: Option<seq<Addr>>, lookup: map<string, seq<Addr>>)

  datatype Sys = Sys(
    policy: Policy,
    threads: map<ThreadId, Thread>,
    sessions: map<SessionId, Session>,
    lock: Lock,
    evidence: Evidence)

  datatype Step =
    | Snapshot(t: ThreadId)
    | Commit(t: ThreadId, interfaces: Option<seq<Addr>>, lookup: map<string, seq<Addr>>)
    | Hold(t: ThreadId)
    | Replace(t: ThreadId, hosts: seq<Host>, preserveCurrent: bool, releaseHold: bool)
    | PassBegin(t: ThreadId)
    | Visit(t: ThreadId, sid: SessionId)
    | PassEnd(t: ThreadId)
    | RegisterCheck(sid: SessionId, target: Target)
    | RegisterInsert
    | Unregister(sid: SessionId)
    | CloseByPeer(sid: SessionId)

  function ThreadOf(s: Sys, t: ThreadId): Thread {
    if t in s.threads then s.threads[t] else Idle
  }

  predicate Enabled(s: Sys, c: Step) {
    match c
    case Snapshot(t) => ThreadOf(s, t).Idle?
    case Commit(t, _, _) => ThreadOf(s, t).Resolving?
    case Hold(t) => ThreadOf(s, t).Idle?
    case Replace(t, _, _, _) => ThreadOf(s, t).Idle?
    case PassBegin(t) => ThreadOf(s, t).MustPass? && s.lock.Free?
    case Visit(t, sid) => ThreadOf(s, t).Passing? && sid in s.sessions && sid !in ThreadOf(s, t).seen
    case PassEnd(t) => ThreadOf(s, t).Passing? && s.sessions.Keys <= ThreadOf(s, t).seen
    case RegisterCheck(sid, target) => s.lock.Free? && sid !in s.sessions && Allowed(s.policy, target)
    case RegisterInsert => s.lock.ByRegistration?
    case Unregister(_) => s.lock.Free?
    case CloseByPeer(sid) => sid in s.sessions
  }

  function Do(s: Sys, c: Step): Sys
    requires Enabled(s, c)
  {
    match c
    case Snapshot(t) => s.(threads := s.threads[t := Resolving(s.policy.generation, s.policy.preserved, s.policy.hosts)])
    case Commit(t, interfaces, lookup) =>
      var r := ThreadOf(s, t);
      var current := r.generation == s.policy.generation;
      s.(policy := Committed(s.policy, r.generation, Find(r.preserved, r.hosts, interfaces, lookup)),
         threads := s.threads[t := if current then MustPass else Idle],
         evidence := if current then Evidence(r.generation, interfaces, lookup) else s.evidence)
    case Hold(t) => s.(policy := Held(s.policy), threads := s.threads[t := MustPass])
    case Replace(t, hosts, keep, release) => s.(policy := Replaced(s.policy, hosts, keep, release), threads := s.threads[t := MustPass])
    case PassBegin(t) => s.(lock := ByPass(t), threads := s.threads[t := Passing({})])
    case Visit(t, sid) =>
      var x := s.sessions[sid];
      s.(sessions := s.sessions[sid := x.(open := x.open && Allowed(s.policy, x.target))],
         threads := s.threads[t := Passing(ThreadOf(s, t).seen + {sid})])
    case PassEnd(t) => s.(lock := Free, threads := s.threads[t := Idle])
    case RegisterCheck(sid, target) => s.(lock := ByRegistration(sid, target))
    case RegisterInsert => s.(lock := Free, sessions := s.sessions[s.lock.sid := Session(s.lock.target, true)])
    case Unregister(sid) => s.(sessions := s.sessions - {sid})
    case CloseByPeer(sid) => s.(sessions := s.sessions[sid := s.sessions[sid].(open := false)])
  }

  function Start(hosts: seq<Host>): Sys {
    Sys(Policy(hosts, {}, {}, false, true, false, 0), map[], map[], Free, Evidence(0, None, map[]))
  }

  function Exec(s0: Sys, steps: seq<Step>): Option<Sys> {
    if steps == [] then Some(s0)
    else
      var before := Exec(s0, steps[..|steps| - 1]);
      if before.None? || !Enabled(before.value, steps[|steps| - 1]) then None
      else Some(Do(before.value, steps[|steps| - 1]))
  }

  // --------------------------------------------------------------- policy safety

  /** A snapshot of the current generation is a snapshot of the current hosts and preserved addresses. */
  predicate SnapshotOk(p: Policy, r: Thread) {
    r.Resolving? ==>
      r.generation <= p.generation && (r.generation == p.generation ==> r.preserved == p.preserved && r.hosts == p.hosts)
  }

  ghost predicate PolicyInv(s: Sys) {
    && (s.policy.hold ==> s.policy.failed)
    && (forall t :: SnapshotOk(s.policy, ThreadOf(s, t)))
    && (!s.policy.failed ==>
          && s.evidence.generation == s.policy.generation
          && Find(s.policy.preserved, s.policy.hosts, s.evidence.interfaces, s.evidence.lookup) == Finding(s.policy.denied, false))
  }

  lemma PolicyStep(s: Sys, c: Step)
    requires PolicyInv(s) && Enabled(s, c)
    ensures PolicyInv(Do(s, c))
  {
    var s' := Do(s, c);
    forall t ensures SnapshotOk(s'.policy, ThreadOf(s', t)) {
      assert SnapshotOk(s.policy, ThreadOf(s, t));
    }
    if c.Commit? {
      assert SnapshotOk(s.policy, ThreadOf(s, c.t));
    }
  }

  lemma {:induction false} PolicyRun(hosts: seq<Host>, steps: seq<Step>)
    requires Exec(Start(hosts), steps).Some?
    ensures PolicyInv(Exec(Start(hosts), steps).value)
  {
    if steps != [] {
      PolicyRun(hosts, steps[..|steps| - 1]);
      PolicyStep(Exec(Start(hosts), steps[..|steps| - 1]).value, steps[|steps| - 1]);
    }
  }

  /** A deny host stands for this address: it is the address, or its name was answered with it, in no more than 32 results. */
  predicate StandsFor(h: Host, lookup: map<string, seq<Addr>>, a: Addr) {
    && a.v4
    && (h == Literal(a) || (h.Name? && h.name in lookup && |lookup[h.name]| <= 32 && a in lookup[h.name]))
  }

  /** What the policy forbids, by what the last refresh was told. */
  predicate Denies(p: Policy, e: Evidence, a: Addr) {
    || a in p.preserved
    || (a.v4 && e.interfaces.Some? && a in e.interfaces.value)
    || exists i :: 0 <= i < |p.hosts| && StandsFor(p.hosts[i], e.lookup, a)
  }

  lemma FindMeaning(preserved: set<Addr>, hosts: seq<Host>, interfaces: Option<seq<Addr>>, lookup: map<string, seq<Addr>>)
    ensures var f := Find(preserved, hosts, interfaces, lookup);
            && (forall a :: a in f.denied <==>
                  || a in preserved || (a.v4 && interfaces.Some? && a in interfaces.value)
                  || exists i :: 0 <= i < |hosts| && StandsFor(hosts[i], lookup, a))
            && (!f.failed <==> interfaces.Some? && forall i :: 0 <= i < |hosts| ==> hosts[i].Literal? || exists a :: StandsFor(hosts[i], lookup, a))
  {
    forall h, a ensures a in Answer(lookup, h) <==> StandsFor(h, lookup, a) {
    }
    forall h: Host | h.Name? ensures Resolved(lookup, h) <==> exists a :: StandsFor(h, lookup, a) {
      if a :| a in Answer(lookup, h) {
        assert StandsFor(h, lookup, a);
      }
    }
    var f := Find(preserved, hosts, interfaces, lookup);
    forall a ensures a in f.denied <==>
                       || a in preserved || (a.v4 && interfaces.Some? && a in interfaces.value)
                       || exists i :: 0 <= i < |hosts| && StandsFor(hosts[i], lookup, a)
    {
      if i :| 0 <= i < |hosts| && StandsFor(hosts[i], lookup, a) {
        assert a in Answer(lookup, hosts[i]);
      }
    }
  }

  /**
   In every run: a hold implies failing closed; and whenever destinations are admitted
   at all, some refresh of the current generation read the interfaces and resolved every
   deny host, and the denied addresses are exactly the preserved ones, those of the
   interfaces and those the deny hosts stand for.
   */
  lemma {:induction false} OpenPolicyIsCurrent(hosts: seq<Host>, steps: seq<Step>, s: Sys)
    requires Exec(Start(hosts), steps) == Some(s)
    ensures s.policy.hold ==> s.policy.failed
    ensures !s.policy.failed ==>
              && s.evidence.generation == s.policy.generation && s.evidence.interfaces.Some?
              && (forall i :: 0 <= i < |s.policy.hosts| ==>
                    s.policy.hosts[i].Literal? || exists a :: StandsFor(s.policy.hosts[i], s.evidence.lookup, a))
              && forall a :: a in s.policy.denied <==> Denies(s.policy, s.evidence, a)
  {
    PolicyRun(hosts, steps);
    FindMeaning(s.policy.preserved, s.policy.hosts, s.evidence.interfaces, s.evidence.lookup);
  }

  /** In every run a connection passes the check exactly if its target is eligible, the policy is open, and nothing denies the address. */
  lemma {:induction false} AdmittedExactly(hosts: seq<Host>, steps: seq<Step>, s: Sys, sid: SessionId, t: Target)
    requires Exec(Start(hosts), steps) == Some(s) && s.lock.Free? && sid !in s.sessions
    ensures Enabled(s, RegisterCheck(sid, t)) <==> t.eligible && !s.policy.failed && !Denies(s.policy, s.evidence, t.addr)
    ensures Allowed(s.policy, t) <==> t.eligible && !s.policy.failed && !Denies(s.policy, s.evidence, t.addr)
  {
    OpenPolicyIsCurrent(hosts, steps, s);
  }

  predicate Releases(c: Step) {
    c.Replace? && c.releaseHold
  }

  /** From a hold until a releasing replacement no destination is admitted, whatever refreshes commit in between. */
  lemma {:induction false} HoldBlocks(hosts: seq<Host>, before: seq<Step>, after: seq<Step>, s0: Sys, s: Sys, sid: SessionId, t: Target)
    requires Exec(Start(hosts), before) == Some(s0) && s0.policy.hold
    requires Exec(s0, after) == Some(s) && forall i :: 0 <= i < |after| ==> !Releases(after[i])
    ensures s.policy.hold && s.policy.failed && PolicyInv(s) && !Enabled(s, RegisterCheck(sid, t))
  {
    if after == [] {
      PolicyRun(hosts, before);
    } else {
      var init := after[..|after| - 1];
      HoldBlocks(hosts, before, init, s0, Exec(s0, init).value, sid, t);
      PolicyStep(Exec(s0, init).value, after[|after| - 1]);
    }
  }

  // --------------------------------------------------------------- what sets the policy

  predicate Changes(c: Step) {
    c.Hold? || c.Replace?
  }

  function ChangeCount(steps: seq<Step>): nat {
    if steps == [] then 0 else ChangeCount(steps[..|steps| - 1]) + if Changes(steps[|steps| - 1]) then 1 else 0
  }

  /** Position i is the last step of its kind. */
  ghost predicate LastReplace(steps: seq<Step>, i: int) {
    0 <= i < |steps| && steps[i].Replace? && forall j :: i < j < |steps| ==> !steps[j].Replace?
  }

  ghost predicate LastChange(steps: seq<Step>, i: int) {
    0 <= i < |steps| && Changes(steps[i]) && forall j :: i < j < |steps| ==> !Changes(steps[j])
  }

  /**
   In every run the deny hosts and the preserved addresses are those of the last
   replacement, the policy is held exactly if the last change holds it, and every change
   has its own generation, which outdates all refreshes begun before it.
   */
  lemma {:induction false} PolicyIsAsLastSet(hosts: seq<Host>, steps: seq<Step>, s: Sys)
    requires Exec(Start(hosts), steps) == Some(s)
    ensures s.policy.generation == ChangeCount(steps)
    ensures (forall i :: 0 <= i < |steps| ==> !steps[i].Replace?) ==> s.policy.hosts == hosts && s.policy.preserved == {}
    ensures forall i :: LastReplace(steps, i) ==>
              && s.policy.hosts == steps[i].hosts && Exec(Start(hosts), steps[..i]).Some?
              && s.policy.preserved == if steps[i].preserveCurrent then Exec(Start(hosts), steps[..i]).value.policy.denied else {}
    ensures (forall i :: 0 <= i < |steps| ==> !Changes(steps[i])) ==> !s.policy.hold
    ensures forall i :: LastChange(steps, i) ==> (s.policy.hold <==> steps[i].Hold? || !steps[i].releaseHold)
  {
    if steps != [] {
      var n := |steps| - 1;
      var before, c := Exec(Start(hosts), steps[..n]).value, steps[n];
      PolicyIsAsLastSet(hosts, steps[..n], before);
      SetByStep(before, c);
      forall i | LastReplace(steps, i)
        ensures s.policy.hosts == steps[i].hosts && Exec(Start(hosts), steps[..i]).Some?
        ensures s.policy.preserved == if steps[i].preserveCurrent then Exec(Start(hosts), steps[..i]).value.policy.denied else {}
      {
        if i < n {
          assert LastReplace(steps[..n], i) && steps[..n][..i] == steps[..i];
        }
      }
      forall i | LastChange(steps, i) ensures s.policy.hold <==> steps[i].Hold? || !steps[i].releaseHold {
        if i < n {
          assert LastChange(steps[..n], i);
        }
      }
    }
  }

  lemma SetByStep(s: Sys, c: Step)
    requires Enabled(s, c)
    ensures var p, p' := s.policy, Do(s, c).policy;
            && p'.generation == p.generation + (if Changes(c) then 1 else 0)
            && (c.Replace? ==> p'.hosts == c.hosts && p'.preserved == if c.preserveCurrent then p.denied else {})
            && (!c.Replace? ==> p'.hosts == p.hosts && p'.preserved == p.preserved)
            && (p'.hold <==> if Changes(c) then c.Hold? || !c.releaseHold else p.hold)
  {
  }

  // ------------------------------------------------------------- sessions follow

  /** Thread t still has to look at session sid. */
  predicate ToVisit(s: Sys, t: ThreadId, sid: SessionId) {
    ThreadOf(s, t).MustPass? || (ThreadOf(s, t).Passing? && sid !in ThreadOf(s, t).seen)
  }

  ghost predicate SessionOk(s: Sys, sid: SessionId) {
    sid in s.sessions && s.sessions[sid].open && !Allowed(s.policy, s.sessions[sid].target) ==> exists t :: ToVisit(s, t, sid)
  }

  ghost predicate RegistrationOk(s: Sys) {
    s.lock.ByRegistration? && !Allowed(s.policy, s.lock.target) ==> exists t :: ThreadOf(s, t).MustPass?
  }

  ghost predicate SessionInv(s: Sys) {
    && (forall sid :: SessionOk(s, sid))
    && RegistrationOk(s)
    && (forall t :: ThreadOf(s, t).Passing? <==> s.lock == ByPass(t))
  }

  /** After a policy change everything still open is ahead of the pass its thread now owes. */
  lemma ChangeKeeps(s: Sys, s': Sys, t: ThreadId)
    requires SessionInv(s) && !ThreadOf(s, t).Passing? && s'.threads == s.threads[t := MustPass]
    requires s'.sessions == s.sessions && s'.lock == s.lock
    ensures SessionInv(s')
  {
    assert ThreadOf(s', t).MustPass?;
    forall sid ensures SessionOk(s', sid) {
      assert ToVisit(s', t, sid);
    }
    forall u ensures ThreadOf(s', u).Passing? <==> s'.lock == ByPass(u) {
      assert ThreadOf(s, u).Passing? <==> s.lock == ByPass(u);
    }
  }

  /** Steps after which each session's obligations are at least those of before, with the same policy. */
  lemma ObligationsKept(s: Sys, s': Sys, sid: SessionId)
    requires SessionOk(s, sid) && s'.policy == s.policy
    requires sid in s'.sessions && s'.sessions[sid].open ==> sid in s.sessions && s.sessions[sid] == s'.sessions[sid]
    requires forall t :: ToVisit(s, t, sid) && sid in s.sessions ==> ToVisit(s', t, sid)
    ensures SessionOk(s', sid)
  {
    if sid in s'.sessions && s'.sessions[sid].open && !Allowed(s'.policy, s'.sessions[sid].target) {
      var t :| ToVisit(s, t, sid);
      assert ToVisit(s', t, sid);
    }
  }

  lemma PassSteps(s: Sys, c: Step)
    requires SessionInv(s) && Enabled(s, c) && (c.PassBegin? || c.Visit? || c.PassEnd?)
    ensures SessionInv(Do(s, c))
  {
    var s' := Do(s, c);
    forall sid ensures SessionOk(s', sid) {
      assert SessionOk(s, sid);
      if c.Visit? && sid == c.sid {
      } else {
        forall t | ToVisit(s, t, sid) && sid in s.sessions ensures ToVisit(s', t, sid) {
        }
        ObligationsKept(s, s', sid);
      }
    }
    forall u ensures ThreadOf(s', u).Passing? <==> s'.lock == ByPass(u) {
      assert ThreadOf(s, u).Passing? <==> s.lock == ByPass(u);
      assert ThreadOf(s, c.t).Passing? <==> s.lock == ByPass(c.t);
    }
  }

  lemma RegistrationSteps(s: Sys, c: Step)
    requires SessionInv(s) && Enabled(s, c) && (c.RegisterCheck? || c.RegisterInsert? || c.Unregister? || c.CloseByPeer?)
    ensures SessionInv(Do(s, c))
  {
    var s' := Do(s, c);
    assert forall t :: ThreadOf(s', t) == ThreadOf(s, t);
    forall sid ensures SessionOk(s', sid) {
      assert SessionOk(s, sid);
      if c.RegisterInsert? && sid == s.lock.sid {
        if !Allowed(s.policy, s.lock.target) {
          var t :| ThreadOf(s, t).MustPass?;
          assert ToVisit(s', t, sid);
        }
      } else {
        ObligationsKept(s, s', sid);
      }
    }
    if s'.lock.ByRegistration? && !Allowed(s'.policy, s'.lock.target) {
      var t :| ThreadOf(s, t).MustPass?;
      assert ThreadOf(s', t).MustPass?;
    }
    forall u ensures ThreadOf(s', u).Passing? <==> s'.lock == ByPass(u) {
      assert ThreadOf(s, u).Passing? <==> s.lock == ByPass(u);
    }
  }

  /** Starting a refresh, or finding its generation gone, changes no obligation. */
  lemma RefreshSteps(s: Sys, s': Sys, t: ThreadId)
    requires SessionInv(s) && (ThreadOf(s, t).Idle? || ThreadOf(s, t).Resolving?)
    requires s'.policy == s.policy && s'.sessions == s.sessions && s'.lock == s.lock
    requires s'.threads == s.threads[t := ThreadOf(s', t)] && (ThreadOf(s', t).Idle? || ThreadOf(s', t).Resolving?)
    ensures SessionInv(s')
  {
    forall sid ensures SessionOk(s', sid) {
      assert SessionOk(s, sid);
      ObligationsKept(s, s', sid);
    }
    if s'.lock.ByRegistration? && !Allowed(s'.policy, s'.lock.target) {
      var u :| ThreadOf(s, u).MustPass?;
      assert ThreadOf(s', u).MustPass?;
    }
    forall u ensures ThreadOf(s', u).Passing? <==> s'.lock == ByPass(u) {
      assert ThreadOf(s, u).Passing? <==> s.lock == ByPass(u);
    }
  }

  lemma SessionStep(s: Sys, c: Step)
    requires SessionInv(s) && Enabled(s, c)
    ensures SessionInv(Do(s, c))
  {
    var s' := Do(s, c);
    match c
    case Snapshot(t) => RefreshSteps(s, s', t);
    case Commit(t, _, _) =>
      if ThreadOf(s, t).generation != s.policy.generation {
        RefreshSteps(s, s', t);
      } else {
        ChangeKeeps(s, s', t);
      }
    case Hold(t) => ChangeKeeps(s, s', t);
    case Replace(t, _, _, _) => ChangeKeeps(s, s', t);
    case PassBegin(_) => PassSteps(s, c);
    case Visit(_, _) => PassSteps(s, c);
    case PassEnd(_) => PassSteps(s, c);
    case RegisterCheck(_, _) => RegistrationSteps(s, c);
    case RegisterInsert => RegistrationSteps(s, c);
    case Unregister(_) => RegistrationSteps(s, c);
    case CloseByPeer(_) => RegistrationSteps(s, c);
  }

  lemma {:induction false} SessionRun(hosts: seq<Host>, steps: seq<Step>)
    requires Exec(Start(hosts), steps).Some?
    ensures SessionInv(Exec(Start(hosts), steps).value)
  {
    if steps != [] {
      SessionRun(hosts, steps[..|steps| - 1]);
      SessionStep(Exec(Start(hosts), steps[..|steps| - 1]).value, steps[|steps| - 1]);
    }
  }

  /**
   In every run, once no policy change still owes its pass, the target of every open TCP
   session is eligible, the policy is open, and nothing denies the address.
   */
  lemma {:induction false} SessionsFollowPolicy(hosts: seq<Host>, steps: seq<Step>, s: Sys, sid: SessionId)
    requires Exec(Start(hosts), steps) == Some(s) && sid in s.sessions && s.sessions[sid].open
    requires forall t :: !ToVisit(s, t, sid)
    ensures var t := s.sessions[sid].target; t.eligible && !s.policy.failed && !Denies(s.policy, s.evidence, t.addr)
  {
    SessionRun(hosts, steps);
    assert SessionOk(s, sid);
    OpenPolicyIsCurrent(hosts, steps, s);
  }

  /** Nobody has the session that is being registered. */
  lemma {:induction false} RegistersNew(hosts: seq<Host>, steps: seq<Step>)
    requires Exec(Start(hosts), steps).Some?
    ensures var s := Exec(Start(hosts), steps).value; s.lock.ByRegistration? ==> s.lock.sid !in s.sessions
  {
    if steps != [] {
      RegistersNew(hosts, steps[..|steps| - 1]);
    }
  }

  /**
   What any step of any run does to a session that stays registered: its target remains,
   once closed it stays closed, and nothing closes it but its peer or a pass that finds
   its target forbidden.
   */
  lemma {:induction false} ClosedOnlyIfForbidden(hosts: seq<Host>, steps: seq<Step>, s: Sys, c: Step, sid: SessionId)
    requires Exec(Start(hosts), steps) == Some(s) && Enabled(s, c) && sid in s.sessions && sid in Do(s, c).sessions
    ensures var x, x' := s.sessions[sid], Do(s, c).sessions[sid];
            && x'.target == x.target
            && (x'.open <==>
                  && x.open && c != CloseByPeer(sid)
                  && (c.Visit? && c.sid == sid ==> x.target.eligible && !s.policy.failed && !Denies(s.policy, s.evidence, x.target.addr)))
  {
    RegistersNew(hosts, steps);
    OpenPolicyIsCurrent(hosts, steps, s);
  }

  // ------------------------------------------------------------------ passes end

  lemma {:induction false} CanTake(s0: Sys, steps: seq<Step>, s: Sys, c: Step)
    requires Exec(s0, steps) == Some(s) && Enabled(s, c)
    ensures Exec(s0, steps + [c]) == Some(Do(s, c))
  {
    assert (steps + [c])[..|steps|] == steps;
  }

  /** A pass can look at whatever it has not seen, and then ends. */
  lemma {:induction false} FinishPass(s0: Sys, steps: seq<Step>, s: Sys, t: ThreadId) returns (all: seq<Step>, s': Sys)
    requires Exec(s0, steps) == Some(s) && ThreadOf(s, t).Passing?
    ensures steps <= all && Exec(s0, all) == Some(s')
    ensures s'.policy == s.policy && s'.evidence == s.evidence && s'.lock.Free? && s'.threads == s.threads[t := Idle]
    decreases s.sessions.Keys - ThreadOf(s, t).seen
  {
    var seen := ThreadOf(s, t).seen;
    if s.sessions.Keys <= seen {
      CanTake(s0, steps, s, PassEnd(t));
      all, s' := steps + [PassEnd(t)], Do(s, PassEnd(t));
    } else {
      var sid :| sid in s.sessions.Keys && sid !in seen;
      var c := Visit(t, sid);
      CanTake(s0, steps, s, c);
      assert Do(s, c).sessions.Keys == s.sessions.Keys;
      assert sid !in Do(s, c).sessions.Keys - ThreadOf(Do(s, c), t).seen;
      all, s' := FinishPass(s0, steps + [c], Do(s, c), t);
    }
  }

  function Owing(s: Sys): set<ThreadId> {
    set t | t in s.threads && s.threads[t].MustPass?
  }

  /** Threads that owe a pass can go one after another. */
  lemma {:induction false} FinishPasses(s0: Sys, steps: seq<Step>, s: Sys) returns (all: seq<Step>, s': Sys)
    requires Exec(s0, steps) == Some(s) && s.lock.Free? && forall t :: !ThreadOf(s, t).Passing?
    ensures steps <= all && Exec(s0, all) == Some(s')
    ensures s'.policy == s.policy && s'.evidence == s.evidence && s'.lock.Free?
    ensures forall t :: !ThreadOf(s', t).MustPass? && !ThreadOf(s', t).Passing?
    decreases Owing(s)
  {
    if t :| t in Owing(s) {
      var c := PassBegin(t);
      CanTake(s0, steps, s, c);
      var steps1, s1 := FinishPass(s0, steps + [c], Do(s, c), t);
      assert Owing(s1) == Owing(s) - {t};
      assert forall u :: ThreadOf(s1, u) == if u == t then Idle else ThreadOf(s, u);
      all, s' := FinishPasses(s0, steps1, s1);
    } else {
      all, s' := steps, s;
      assert forall t :: ThreadOf(s, t).MustPass? ==> t in Owing(s);
    }
  }

  /**
   From every reachable state the passes can end without any change of policy; then the
   target of every open session is permitted.
   */
  lemma {:induction false} PassesCanEnd(hosts: seq<Host>, steps: seq<Step>, s: Sys) returns (all: seq<Step>, s': Sys)
    requires Exec(Start(hosts), steps) == Some(s)
    ensures steps <= all && Exec(Start(hosts), all) == Some(s')
    ensures s'.policy == s.policy && s'.evidence == s.evidence && s'.lock.Free?
    ensures forall t :: !ThreadOf(s', t).MustPass? && !ThreadOf(s', t).Passing?
    ensures forall sid :: sid in s'.sessions && s'.sessions[sid].open ==>
              var t := s'.sessions[sid].target; t.eligible && !s.policy.failed && !Denies(s.policy, s.evidence, t.addr)
  {
    SessionRun(hosts, steps);
    var steps1, s1 := steps, s;
    match s.lock {
      case Free =>
      case ByRegistration(_, _) =>
        CanTake(Start(hosts), steps, s, RegisterInsert);
        steps1, s1 := steps + [RegisterInsert], Do(s, RegisterInsert);
      case ByPass(t) =>
        assert ThreadOf(s, t).Passing?;
        steps1, s1 := FinishPass(Start(hosts), steps, s, t);
        assert forall u :: ThreadOf(s1, u) == if u == t then Idle else ThreadOf(s, u);
    }
    SessionRun(hosts, steps1);
    all, s' := FinishPasses(Start(hosts), steps1, s1);
    forall sid | sid in s'.sessions && s'.sessions[sid].open
      ensures var t := s'.sessions[sid].target; t.eligible && !s.policy.failed && !Denies(s.policy, s.evidence, t.addr)
    {
      SessionsFollowPolicy(hosts, all, s', sid);
    }
  }
}
