/**
 UDP sessions of the AmneziaWG relay beside its TCP sessions and policy changes
 (agent/amneziawg_helper.go, closeDisallowedSessions, handleUDP and closeUDPSession).
 The pass over UDP sessions follows the one over TCP sessions: it picks the forbidden
 ones under the session lock and closes them afterwards. A packet is checked before
 that lock is taken and not again under it.
 */
module UdpSessions {
  import opened Options
  import D = DenyPolicy

  type ThreadId = D.ThreadId
  type SessionId = nat
  type HandlerId = nat

  /** A session is found by the peer's address and the target. */
  datatype Key = Key(source: D.Addr, port: nat, target: D.Target)

  datatype Session = Session(key: Key, closed: bool)

  const MAX_SESSIONS := 512

  /** How far a thread that changed the policy is with the UDP sessions. */
  datatype Pass =
    | Off
    | Waiting
    | Collecting(seen: set<SessionId>, chosen: set<SessionId>)
    | Closing(chosen: set<SessionId>)

  // Whoever closes a session removes it from the table afterwards (Hangup or Close, then Forget).

  /** `handlers` holds the packets that passed the check and wait for the session lock. */
  datatype Sys = Sys(
    core: D.Sys,
    passes: map<ThreadId, Pass>,
    handlers: map<HandlerId, Key>,
    table: map<Key, SessionId>,
    sessions: map<SessionId, Session>,
    collector: Option<ThreadId>)

  datatype Step =
    | Core(step: D.Step)
    | Collect(t: ThreadId)
    | Look(t: ThreadId, sid: SessionId)
    | Collected(t: ThreadId)
    | Close(t: ThreadId, sid: SessionId)
    | Done(t: ThreadId)
    | Hangup(sid: SessionId)
    | Forget(sid: SessionId)
    | Check(h: HandlerId, key: Key)
    | Deliver(h: HandlerId, sid: SessionId, dialed: bool)

  function PassOf(s: Sys, t: ThreadId): Pass {
    if t in s.passes then s.passes[t] else Off
  }

  /** The thread whose code a step is part of. */
  function Actor(c: D.Step): Option<ThreadId> {
    match c
    case Snapshot(t) => Some(t)
    case Commit(t, _, _) => Some(t)
    case Hold(t) => Some(t)
    case Replace(t, _, _, _) => Some(t)
    case PassBegin(t) => Some(t)
    case Visit(t, _) => Some(t)
    case PassEnd(t) => Some(t)
    case RegisterCheck(_, _) => None
    case RegisterInsert => None
    case Unregister(_) => None
    case CloseByPeer(_) => None
  }

  /** The session this packet would open; a full table or a failed dial opens none. */
  predicate Opens(s: Sys, c: Step) {
    c.Deliver? && c.h in s.handlers && s.handlers[c.h] !in s.table && |s.table| < MAX_SESSIONS && c.dialed
  }

  predicate Enabled(s: Sys, c: Step) {
    match c
    case Core(d) => D.Enabled(s.core, d) && (Actor(d).Some? ==> PassOf(s, Actor(d).value).Off?)
    case Collect(t) => PassOf(s, t).Waiting? && s.collector.None?
    case Look(t, sid) => PassOf(s, t).Collecting? && sid in s.table.Values && sid in s.sessions && sid !in PassOf(s, t).seen
    case Collected(t) => PassOf(s, t).Collecting? && s.table.Values <= PassOf(s, t).seen
    case Close(t, sid) => PassOf(s, t).Closing? && sid in PassOf(s, t).chosen && sid in s.sessions
    case Done(t) => PassOf(s, t) == Closing({})
    case Hangup(sid) => sid in s.sessions
    case Forget(sid) => sid in s.sessions && s.sessions[sid].closed && s.collector.None?
    case Check(h, key) => h !in s.handlers && D.Allowed(s.core.policy, key.target)
    case Deliver(h, sid, _) => h in s.handlers && s.collector.None? && sid !in s.sessions
  }

  function Shut(s: Sys, sid: SessionId): map<SessionId, Session>
    requires sid in s.sessions
  {
    s.sessions[sid := s.sessions[sid].(closed := true)]
  }

  function Do(s: Sys, c: Step): Sys
    requires Enabled(s, c)
  {
    match c
    case Core(d) =>
      s.(core := D.Do(s.core, d), passes := if d.PassEnd? then s.passes[d.t := Waiting] else s.passes)
    case Collect(t) => s.(passes := s.passes[t := Collecting({}, {})], collector := Some(t))
    case Look(t, sid) =>
      var p := PassOf(s, t);
      var more := if D.Allowed(s.core.policy, s.sessions[sid].key.target) then {} else {sid};
      s.(passes := s.passes[t := Collecting(p.seen + {sid}, p.chosen + more)])
    case Collected(t) => s.(passes := s.passes[t := Closing(PassOf(s, t).chosen)], collector := None)
    case Close(t, sid) => s.(passes := s.passes[t := Closing(PassOf(s, t).chosen - {sid})], sessions := Shut(s, sid))
    case Done(t) => s.(passes := s.passes[t := Off])
    case Hangup(sid) => s.(sessions := Shut(s, sid))
    case Forget(sid) =>
      var key := s.sessions[sid].key;
      if key in s.table && s.table[key] == sid then s.(table := s.table - {key}) else s
    case Check(h, key) => s.(handlers := s.handlers[h := key])
    case Deliver(h, sid, _) =>
      var key := s.handlers[h];
      if Opens(s, c) then
        s.(handlers := s.handlers - {h}, table := s.table[key := sid], sessions := s.sessions[sid := Session(key, false)])
      else s.(handlers := s.handlers - {h})
  }

  function Start(hosts: seq<D.Host>): Sys {
    Sys(D.Start(hosts), map[], map[], map[], map[], None)
  }

  function Exec(hosts: seq<D.Host>, steps: seq<Step>): Option<Sys> {
    if steps == [] then Some(Start(hosts))
    else
      var before := Exec(hosts, steps[..|steps| - 1]);
      if before.None? || !Enabled(before.value, steps[|steps| - 1]) then None
      else Some(Do(before.value, steps[|steps| - 1]))
  }

  lemma {:induction false} ExecPrefix(hosts: seq<D.Host>, steps: seq<Step>, n: nat)
    requires Exec(hosts, steps).Some? && n <= |steps|
    ensures Exec(hosts, steps[..n]).Some?
  {
    if n < |steps| {
      ExecPrefix(hosts, steps[..|steps| - 1], n);
      assert steps[..|steps| - 1][..n] == steps[..n];
    } else {
      assert steps[..n] == steps;
    }
  }

  /** The state after the first n steps. */
  function At(hosts: seq<D.Host>, steps: seq<Step>, n: nat): Sys
    requires Exec(hosts, steps).Some? && n <= |steps|
  {
    ExecPrefix(hosts, steps, n);
    Exec(hosts, steps[..n]).value
  }

  lemma {:induction false} AtNext(hosts: seq<D.Host>, steps: seq<Step>, n: nat)
    requires Exec(hosts, steps).Some? && n < |steps|
    ensures Enabled(At(hosts, steps, n), steps[n]) && At(hosts, steps, n + 1) == Do(At(hosts, steps, n), steps[n])
  {
    ExecPrefix(hosts, steps, n + 1);
    assert steps[..n + 1][..n] == steps[..n];
  }

  // ------------------------------------------------------- the TCP side is unchanged

  /** The TCP side of a run is a run of its own, so what holds of its sessions still holds. */
  lemma {:induction false} CoreRuns(hosts: seq<D.Host>, steps: seq<Step>, s: Sys) returns (core: seq<D.Step>)
    requires Exec(hosts, steps) == Some(s)
    ensures D.Exec(D.Start(hosts), core) == Some(s.core)
  {
    if steps == [] {
      core := [];
    } else {
      var last := steps[|steps| - 1];
      core := CoreRuns(hosts, steps[..|steps| - 1], Exec(hosts, steps[..|steps| - 1]).value);
      if last.Core? {
        assert (core + [last.step])[..|core|] == core;
        core := core + [last.step];
      }
    }
  }

  // ------------------------------------------------------------------ the invariants

  predicate Live(s: Sys, sid: SessionId) {
    sid in s.sessions && !s.sessions[sid].closed
  }

  /** A session that is not closed is in the table. */
  ghost predicate FiledAt(s: Sys, sid: SessionId) {
    Live(s, sid) ==> s.sessions[sid].key in s.table && s.table[s.sessions[sid].key] == sid
  }

  ghost predicate Filed(s: Sys) {
    forall sid :: FiledAt(s, sid)
  }

  ghost predicate OneCollector(s: Sys) {
    forall t: ThreadId :: PassOf(s, t).Collecting? <==> s.collector == Some(t)
  }

  ghost predicate PickedExist(s: Sys) {
    forall t, sid :: Picked(s, t, sid) ==> sid in s.sessions
  }

  ghost predicate Base(s: Sys) {
    Filed(s) && OneCollector(s) && PickedExist(s)
  }

  predicate Picked(s: Sys, t: ThreadId, sid: SessionId) {
    var p := PassOf(s, t);
    (p.Collecting? || p.Closing?) && sid in p.chosen
  }

  /** The policy change of t has not begun with the UDP sessions. */
  predicate Before(s: Sys, t: ThreadId) {
    D.ThreadOf(s.core, t).MustPass? || D.ThreadOf(s.core, t).Passing? || PassOf(s, t).Waiting?
  }

  /** Thread t still has to look at session sid or to close it. */
  predicate Owes(s: Sys, t: ThreadId, sid: SessionId) {
    Before(s, t) || Picked(s, t, sid) || (PassOf(s, t).Collecting? && sid !in PassOf(s, t).seen)
  }

  ghost predicate Follows(s: Sys, sid: SessionId) {
    Live(s, sid) && !D.Allowed(s.core.policy, s.sessions[sid].key.target) ==> exists t :: Owes(s, t, sid)
  }

  /** Every open session to a forbidden target is ahead of some thread. */
  ghost predicate AllFollow(s: Sys) {
    forall sid :: Follows(s, sid)
  }

  /** The step opens a session to a target that is forbidden by now, behind the passes of all changes. */
  ghost predicate Late(s: Sys, c: Step) {
    Opens(s, c) && !D.Allowed(s.core.policy, s.handlers[c.h].target) && forall t :: !Before(s, t)
  }

  lemma FiledAtStep(s: Sys, c: Step, sid: SessionId)
    requires FiledAt(s, sid) && Enabled(s, c)
    ensures FiledAt(Do(s, c), sid)
  {
    var s' := Do(s, c);
    if c.Deliver? && Live(s', sid) {
      assert sid == c.sid || s'.sessions[sid] == s.sessions[sid];
    }
  }

  lemma FiledStep(s: Sys, c: Step)
    requires Filed(s) && Enabled(s, c)
    ensures Filed(Do(s, c))
  {
    forall sid ensures FiledAt(Do(s, c), sid) {
      assert FiledAt(s, sid);
      FiledAtStep(s, c, sid);
    }
  }

  lemma CollectorStep(s: Sys, c: Step)
    requires OneCollector(s) && Enabled(s, c)
    ensures OneCollector(Do(s, c))
  {
    var s' := Do(s, c);
    forall t: ThreadId ensures PassOf(s', t).Collecting? <==> s'.collector == Some(t) {
      assert PassOf(s, t).Collecting? <==> s.collector == Some(t);
    }
  }

  lemma PickedStep(s: Sys, c: Step)
    requires PickedExist(s) && Enabled(s, c)
    ensures PickedExist(Do(s, c))
  {
    var s' := Do(s, c);
    forall t, sid | Picked(s', t, sid) ensures sid in s'.sessions {
      assert Picked(s, t, sid) || (c.Look? && sid == c.sid);
    }
  }

  lemma BaseStep(s: Sys, c: Step)
    requires Base(s) && Enabled(s, c)
    ensures Base(Do(s, c))
  {
    FiledStep(s, c);
    CollectorStep(s, c);
    PickedStep(s, c);
  }

  /** A step after which every thread owes session sid at least as before, under the same policy. */
  lemma FollowsOn(s: Sys, s': Sys, sid: SessionId)
    requires Follows(s, sid) && s'.core.policy == s.core.policy
    requires Live(s', sid) ==> Live(s, sid) && s'.sessions[sid].key == s.sessions[sid].key
    requires Live(s', sid) ==> forall t :: Owes(s, t, sid) ==> Owes(s', t, sid)
    ensures Follows(s', sid)
  {
    if Live(s', sid) && !D.Allowed(s'.core.policy, s'.sessions[sid].key.target) {
      var t :| Owes(s, t, sid);
      assert Owes(s', t, sid);
    }
  }

  lemma CoreFollows(s: Sys, d: D.Step, sid: SessionId)
    requires Base(s) && Follows(s, sid) && Enabled(s, Core(d))
    ensures Follows(Do(s, Core(d)), sid)
  {
    var s' := Do(s, Core(d));
    if s'.core.policy != s.core.policy {
      assert d.Commit? || d.Hold? || d.Replace?;
      assert Owes(s', d.t, sid);
    } else {
      forall t | Owes(s, t, sid) ensures Owes(s', t, sid) {
      }
      FollowsOn(s, s', sid);
    }
  }

  /** Opening a session in time leaves it to the thread that is still before its pass. */
  lemma OpenFollows(s: Sys, c: Step)
    requires Enabled(s, c) && Opens(s, c) && !Late(s, c)
    ensures Follows(Do(s, c), c.sid)
  {
    if !D.Allowed(s.core.policy, s.handlers[c.h].target) {
      var t :| Before(s, t);
      assert Owes(Do(s, c), t, c.sid);
    }
  }

  /** Looking at a session either finds its target allowed or picks it. */
  lemma LookFollows(s: Sys, t: ThreadId, sid: SessionId)
    requires Enabled(s, Look(t, sid))
    ensures Follows(Do(s, Look(t, sid)), sid)
  {
    if !D.Allowed(s.core.policy, s.sessions[sid].key.target) {
      assert Owes(Do(s, Look(t, sid)), t, sid);
    }
  }

  /** Every other step leaves what is owed for a session that stays open. */
  lemma OwesOn(s: Sys, c: Step, sid: SessionId, t: ThreadId)
    requires Base(s) && Enabled(s, c) && !c.Core? && Live(s, sid) && Live(Do(s, c), sid)
    requires c.Look? ==> sid != c.sid
    requires Owes(s, t, sid)
    ensures Owes(Do(s, c), t, sid)
  {
    assert FiledAt(s, sid);
    if c.Collected? {
      assert s.table[s.sessions[sid].key] in s.table.Values;
    }
  }

  lemma OtherFollows(s: Sys, c: Step, sid: SessionId)
    requires Base(s) && Follows(s, sid) && Enabled(s, c) && !c.Core?
    requires (c.Look? ==> sid != c.sid) && (Opens(s, c) ==> sid != c.sid)
    ensures Follows(Do(s, c), sid)
  {
    var s' := Do(s, c);
    if Live(s', sid) {
      forall t | Owes(s, t, sid) ensures Owes(s', t, sid) {
        OwesOn(s, c, sid, t);
      }
      FollowsOn(s, s', sid);
    }
  }

  lemma StepFollows(s: Sys, c: Step, sid: SessionId)
    requires Base(s) && Follows(s, sid) && Enabled(s, c) && !Late(s, c)
    ensures Follows(Do(s, c), sid)
  {
    if c.Core? {
      CoreFollows(s, c.step, sid);
    } else if Opens(s, c) && sid == c.sid {
      OpenFollows(s, c);
    } else if c.Look? && sid == c.sid {
      LookFollows(s, c.t, sid);
    } else {
      OtherFollows(s, c, sid);
    }
  }

  /** A late session is at once open, forbidden and owed by nobody. */
  lemma LateBreaks(s: Sys, c: Step)
    requires Base(s) && Enabled(s, c) && Late(s, c)
    ensures !Follows(Do(s, c), c.sid)
  {
    var s' := Do(s, c);
    forall t: ThreadId ensures !Owes(s', t, c.sid) {
      assert !Before(s, t) && !Picked(s, t, c.sid);
      assert PassOf(s, t).Collecting? <==> s.collector == Some(t);
    }
  }

  lemma {:induction false} BaseRun(hosts: seq<D.Host>, steps: seq<Step>)
    requires Exec(hosts, steps).Some?
    ensures Base(Exec(hosts, steps).value)
  {
    if steps != [] {
      BaseRun(hosts, steps[..|steps| - 1]);
      BaseStep(Exec(hosts, steps[..|steps| - 1]).value, steps[|steps| - 1]);
    }
  }

  lemma {:induction false} BaseAt(hosts: seq<D.Host>, steps: seq<Step>, n: nat)
    requires Exec(hosts, steps).Some? && n <= |steps|
    ensures Base(At(hosts, steps, n))
  {
    ExecPrefix(hosts, steps, n);
    BaseRun(hosts, steps[..n]);
  }

  ghost predicate NeverLate(hosts: seq<D.Host>, steps: seq<Step>, n: nat)
    requires Exec(hosts, steps).Some? && n <= |steps|
  {
    forall i :: 0 <= i < n ==> !Late(At(hosts, steps, i), steps[i])
  }

  lemma {:induction false} FollowAt(hosts: seq<D.Host>, steps: seq<Step>, n: nat)
    requires Exec(hosts, steps).Some? && n <= |steps| && NeverLate(hosts, steps, n)
    ensures AllFollow(At(hosts, steps, n))
  {
    if n > 0 {
      FollowAt(hosts, steps, n - 1);
      BaseAt(hosts, steps, n - 1);
      AtNext(hosts, steps, n - 1);
      var s := At(hosts, steps, n - 1);
      forall sid ensures Follows(At(hosts, steps, n), sid) {
        assert Follows(s, sid);
        StepFollows(s, steps[n - 1], sid);
      }
    }
  }

  /**
   For every run: throughout it each open UDP session to a forbidden target is still
   ahead of some pass, if and only if no packet, checked before a policy change, opened
   its session behind the pass of that change.
   */
  lemma {:induction false} UdpSessionsFollowPolicyIff(hosts: seq<D.Host>, steps: seq<Step>)
    requires Exec(hosts, steps).Some?
    ensures (forall n :: 0 <= n <= |steps| ==> AllFollow(At(hosts, steps, n))) <==> NeverLate(hosts, steps, |steps|)
  {
    if NeverLate(hosts, steps, |steps|) {
      forall n | 0 <= n <= |steps| ensures AllFollow(At(hosts, steps, n)) {
        FollowAt(hosts, steps, n);
      }
    } else {
      var i :| 0 <= i < |steps| && Late(At(hosts, steps, i), steps[i]);
      BaseAt(hosts, steps, i);
      AtNext(hosts, steps, i);
      LateBreaks(At(hosts, steps, i), steps[i]);
      assert !AllFollow(At(hosts, steps, i + 1));
    }
  }

  /** What the policy of this state permits, by what its last refresh was told. */
  predicate Permits(s: Sys, t: D.Target) {
    t.eligible && !s.core.policy.failed && !D.Denies(s.core.policy, s.core.evidence, t.addr)
  }

  lemma {:induction false} PermitsExactly(hosts: seq<D.Host>, steps: seq<Step>, s: Sys, t: D.Target)
    requires Exec(hosts, steps) == Some(s)
    ensures D.Allowed(s.core.policy, t) <==> Permits(s, t)
  {
    var core := CoreRuns(hosts, steps, s);
    D.OpenPolicyIsCurrent(hosts, core, s.core);
  }

  /** In every run a packet passes the check exactly if its target is permitted. */
  lemma {:induction false} CheckedExactly(hosts: seq<D.Host>, steps: seq<Step>, s: Sys, h: HandlerId, key: Key)
    requires Exec(hosts, steps) == Some(s) && h !in s.handlers
    ensures Enabled(s, Check(h, key)) <==> Permits(s, key.target)
  {
    PermitsExactly(hosts, steps, s, key.target);
  }

  /** Step k was a look of thread t at session sid, whose target was forbidden at that moment. */
  ghost predicate FoundForbidden(hosts: seq<D.Host>, steps: seq<Step>, t: ThreadId, sid: SessionId, k: int)
    requires Exec(hosts, steps).Some?
  {
    && 0 <= k < |steps| && steps[k] == Look(t, sid)
    && sid in At(hosts, steps, k).sessions && !Permits(At(hosts, steps, k), At(hosts, steps, k).sessions[sid].key.target)
  }

  lemma PickedBy(s: Sys, c: Step, t: ThreadId, sid: SessionId)
    requires Enabled(s, c) && Picked(Do(s, c), t, sid) && !Picked(s, t, sid)
    ensures c == Look(t, sid) && !D.Allowed(s.core.policy, s.sessions[sid].key.target)
  {
  }

  /** What a look found before the last step it still found. */
  lemma {:induction false} FoundBefore(hosts: seq<D.Host>, steps: seq<Step>, t: ThreadId, sid: SessionId, k: int)
    requires Exec(hosts, steps).Some? && steps != [] && FoundForbidden(hosts, steps[..|steps| - 1], t, sid, k)
    ensures FoundForbidden(hosts, steps, t, sid, k)
  {
    assert steps[..|steps| - 1][..k] == steps[..k];
  }

  /** Whatever a pass has picked it found forbidden. */
  lemma {:induction false} PickedWasForbidden(hosts: seq<D.Host>, steps: seq<Step>, s: Sys, t: ThreadId, sid: SessionId)
    requires Exec(hosts, steps) == Some(s) && Picked(s, t, sid)
    ensures exists k :: FoundForbidden(hosts, steps, t, sid, k)
  {
    if steps != [] {
      var n := |steps| - 1;
      var init := steps[..n];
      var before := Exec(hosts, init).value;
      assert At(hosts, steps, n) == before;
      if Picked(before, t, sid) {
        PickedWasForbidden(hosts, init, before, t, sid);
        var k :| FoundForbidden(hosts, init, t, sid, k);
        FoundBefore(hosts, steps, t, sid, k);
      } else {
        PickedBy(before, steps[n], t, sid);
        PermitsExactly(hosts, init, before, before.sessions[sid].key.target);
        assert FoundForbidden(hosts, steps, t, sid, n);
      }
    }
  }

  /** What a step does to a session: its key remains, and only its own end or a pass that picked it closes it. */
  lemma ShutBy(s: Sys, c: Step, sid: SessionId)
    requires Enabled(s, c) && sid in s.sessions
    ensures var s' := Do(s, c);
            && sid in s'.sessions && s'.sessions[sid].key == s.sessions[sid].key
            && (Live(s', sid) <==> Live(s, sid) && c != Hangup(sid) && !(c.Close? && c.sid == sid))
  {
  }

  /**
   In every run a UDP session keeps its key, once closed stays closed, and is closed by
   nothing but its own end or a pass that has found its target forbidden.
   */
  lemma {:induction false} ClosedOnlyIfForbidden(hosts: seq<D.Host>, steps: seq<Step>, s: Sys, c: Step, sid: SessionId)
    requires Exec(hosts, steps) == Some(s) && Enabled(s, c) && sid in s.sessions
    ensures var s' := Do(s, c);
            && sid in s'.sessions && s'.sessions[sid].key == s.sessions[sid].key && (Live(s', sid) ==> Live(s, sid))
            && (Live(s, sid) && !Live(s', sid) && c != Hangup(sid) ==>
                  c.Close? && c.sid == sid && exists k :: FoundForbidden(hosts, steps, c.t, sid, k))
  {
    ShutBy(s, c, sid);
    if c.Close? && c.sid == sid {
      PickedWasForbidden(hosts, steps, s, c.t, sid);
    }
  }

  /** Once no thread owes anything, sessions of both kinds have permitted targets. */
  lemma {:induction false} QuietRelayFollowsPolicy(hosts: seq<D.Host>, steps: seq<Step>, s: Sys)
    requires Exec(hosts, steps) == Some(s) && NeverLate(hosts, steps, |steps|)
    requires forall t :: !Before(s, t) && PassOf(s, t).Off?
    ensures forall sid :: Live(s, sid) ==> Permits(s, s.sessions[sid].key.target)
    ensures forall sid :: sid in s.core.sessions && s.core.sessions[sid].open ==> Permits(s, s.core.sessions[sid].target)
  {
    FollowAt(hosts, steps, |steps|);
    assert steps[..|steps|] == steps;
    var core := CoreRuns(hosts, steps, s);
    forall sid | Live(s, sid) ensures Permits(s, s.sessions[sid].key.target) {
      assert Follows(s, sid);
      D.OpenPolicyIsCurrent(hosts, core, s.core);
    }
    forall sid | sid in s.core.sessions && s.core.sessions[sid].open ensures Permits(s, s.core.sessions[sid].target) {
      forall t ensures !D.ToVisit(s.core, t, sid) {
        assert !Before(s, t);
      }
      D.SessionsFollowPolicy(hosts, core, s.core, sid);
    }
  }

  /** In every run the table holds at most 512 sessions. */
  lemma {:induction false} TableIsBounded(hosts: seq<D.Host>, steps: seq<Step>)
    requires Exec(hosts, steps).Some?
    ensures |Exec(hosts, steps).value.table| <= 512
  {
    if steps != [] {
      TableIsBounded(hosts, steps[..|steps| - 1]);
      TableStep(Exec(hosts, steps[..|steps| - 1]).value, steps[|steps| - 1]);
    }
  }

  lemma TableStep(s: Sys, c: Step)
    requires Enabled(s, c) && |s.table| <= 512
    ensures |Do(s, c).table| <= 512
  {
    if c.Forget? {
      var key := s.sessions[c.sid].key;
      if key in s.table && s.table[key] == c.sid {
        assert s.table.Keys == (s.table - {key}).Keys + {key};
        assert |s.table| == |(s.table - {key})| + 1;
      }
    }
  }

  // ---------------------------------------------------------------- passes end

  lemma {:induction false} Snoc(hosts: seq<D.Host>, steps: seq<Step>, s: Sys, c: Step)
    requires Exec(hosts, steps) == Some(s) && Enabled(s, c)
    ensures Exec(hosts, steps + [c]) == Some(Do(s, c))
  {
    assert (steps + [c])[..|steps|] == steps;
  }

  /** Every session in the table is there. */
  ghost predicate FiledExist(s: Sys) {
    forall sid :: sid in s.table.Values ==> sid in s.sessions
  }

  lemma FiledExistStep(s: Sys, c: Step)
    requires FiledExist(s) && Enabled(s, c)
    ensures FiledExist(Do(s, c))
  {
    var s' := Do(s, c);
    forall sid | sid in s'.table.Values ensures sid in s'.sessions {
      var key :| key in s'.table && s'.table[key] == sid;
      assert sid in s.table.Values || (Opens(s, c) && sid == c.sid);
    }
  }

  lemma {:induction false} FiledExistRun(hosts: seq<D.Host>, steps: seq<Step>)
    requires Exec(hosts, steps).Some?
    ensures FiledExist(Exec(hosts, steps).value)
  {
    if steps != [] {
      FiledExistRun(hosts, steps[..|steps| - 1]);
      FiledExistStep(Exec(hosts, steps[..|steps| - 1]).value, steps[|steps| - 1]);
    }
  }

  /** Another state of the UDP side in which only thread t's pass, the collector and what is closed may differ. */
  ghost predicate OnlyPassOf(s: Sys, s': Sys, t: ThreadId) {
    && s'.core == s.core && s'.handlers == s.handlers && s'.table == s.table
    && s'.passes.Keys == s.passes.Keys + {t} && forall u :: u != t ==> PassOf(s', u) == PassOf(s, u)
  }

  /** A pass can look at every session in the table it has not seen, and is then through with looking. */
  lemma {:induction false} FinishLooking(hosts: seq<D.Host>, steps: seq<Step>, s: Sys, t: ThreadId) returns (all: seq<Step>, s': Sys)
    requires Exec(hosts, steps) == Some(s) && PassOf(s, t).Collecting?
    ensures steps <= all && Exec(hosts, all) == Some(s') && OnlyPassOf(s, s', t) && PassOf(s', t).Closing? && s'.collector.None?
    decreases s.table.Values - PassOf(s, t).seen
  {
    var seen := PassOf(s, t).seen;
    if s.table.Values <= seen {
      Snoc(hosts, steps, s, Collected(t));
      all, s' := steps + [Collected(t)], Do(s, Collected(t));
    } else {
      var sid :| sid in s.table.Values && sid !in seen;
      FiledExistRun(hosts, steps);
      var c := Look(t, sid);
      Snoc(hosts, steps, s, c);
      assert sid !in Do(s, c).table.Values - PassOf(Do(s, c), t).seen;
      all, s' := FinishLooking(hosts, steps + [c], Do(s, c), t);
    }
  }

  /** It can close what it picked, and is over. */
  lemma {:induction false} FinishClosing(hosts: seq<D.Host>, steps: seq<Step>, s: Sys, t: ThreadId) returns (all: seq<Step>, s': Sys)
    requires Exec(hosts, steps) == Some(s) && PassOf(s, t).Closing?
    ensures steps <= all && Exec(hosts, all) == Some(s') && OnlyPassOf(s, s', t) && PassOf(s', t).Off? && s'.collector == s.collector
    decreases PassOf(s, t).chosen
  {
    if sid :| sid in PassOf(s, t).chosen {
      BaseRun(hosts, steps);
      assert Picked(s, t, sid);
      var c := Close(t, sid);
      Snoc(hosts, steps, s, c);
      all, s' := FinishClosing(hosts, steps + [c], Do(s, c), t);
    } else {
      Snoc(hosts, steps, s, Done(t));
      all, s' := steps + [Done(t)], Do(s, Done(t));
    }
  }

  lemma {:induction false} FinishPass(hosts: seq<D.Host>, steps: seq<Step>, s: Sys, t: ThreadId) returns (all: seq<Step>, s': Sys)
    requires Exec(hosts, steps) == Some(s) && !PassOf(s, t).Off? && (s.collector.None? || PassOf(s, t).Collecting?)
    ensures steps <= all && Exec(hosts, all) == Some(s') && OnlyPassOf(s, s', t) && PassOf(s', t).Off? && s'.collector.None?
  {
    all, s' := steps, s;
    if PassOf(s', t).Waiting? {
      Snoc(hosts, all, s', Collect(t));
      all, s' := all + [Collect(t)], Do(s', Collect(t));
    }
    if PassOf(s', t).Collecting? {
      all, s' := FinishLooking(hosts, all, s', t);
    }
    all, s' := FinishClosing(hosts, all, s', t);
  }

  function Busy(s: Sys): set<ThreadId> {
    set t | t in s.passes && !s.passes[t].Off?
  }

  lemma {:induction false} FinishPasses(hosts: seq<D.Host>, steps: seq<Step>, s: Sys) returns (all: seq<Step>, s': Sys)
    requires Exec(hosts, steps) == Some(s)
    ensures steps <= all && Exec(hosts, all) == Some(s') && s'.core == s.core && s'.handlers == s.handlers && s'.table == s.table
    ensures forall t :: PassOf(s', t).Off?
    decreases Busy(s)
  {
    BaseRun(hosts, steps);
    assert s.collector.Some? ==> PassOf(s, s.collector.value).Collecting? && s.collector.value in Busy(s);
    if t :| t in Busy(s) && (s.collector.Some? ==> t == s.collector.value) {
      var steps1, s1 := FinishPass(hosts, steps, s, t);
      forall u ensures u in Busy(s1) <==> u in Busy(s) && u != t {
        assert PassOf(s1, u) == if u == t then Off else PassOf(s, u);
      }
      all, s' := FinishPasses(hosts, steps1, s1);
    } else {
      all, s' := steps, s;
      assert forall t :: !PassOf(s, t).Off? ==> t in Busy(s);
    }
  }

  /**
   Whenever the passes over TCP sessions are over, those over UDP sessions can end without
   any change of policy; then, if no packet came late, every open session is permitted.
   */
  lemma {:induction false} PassesCanEnd(hosts: seq<D.Host>, steps: seq<Step>, s: Sys) returns (all: seq<Step>, s': Sys)
    requires Exec(hosts, steps) == Some(s) && forall t :: !D.ThreadOf(s.core, t).MustPass? && !D.ThreadOf(s.core, t).Passing?
    ensures steps <= all && Exec(hosts, all) == Some(s') && s'.core == s.core && forall t :: !Before(s', t) && PassOf(s', t).Off?
    ensures NeverLate(hosts, all, |all|) ==> forall sid :: Live(s', sid) ==> Permits(s, s'.sessions[sid].key.target)
  {
    all, s' := FinishPasses(hosts, steps, s);
    if NeverLate(hosts, all, |all|) {
      QuietRelayFollowsPolicy(hosts, all, s');
    }
  }

  // ------------------------------------------------------------- one late session

  /** Thread 0 passes over no TCP sessions. */
  lemma {:induction false} EmptyTcpPass(hosts: seq<D.Host>, steps: seq<Step>, s: Sys) returns (steps': seq<Step>, s': Sys)
    requires Exec(hosts, steps) == Some(s) && s.core.threads == map[0 := D.MustPass] && PassOf(s, 0).Off? && s.passes.Keys <= {0}
    requires s.core.lock.Free? && s.core.sessions == map[]
    ensures Exec(hosts, steps') == Some(s')
    ensures s' == s.(core := s.core.(threads := map[0 := D.Idle]), passes := map[0 := Waiting])
  {
    var s1, c1 := Do(s, Core(D.PassBegin(0))), steps + [Core(D.PassBegin(0))];
    Snoc(hosts, steps, s, Core(D.PassBegin(0)));
    Snoc(hosts, c1, s1, Core(D.PassEnd(0)));
    s', steps' := Do(s1, Core(D.PassEnd(0))), c1 + [Core(D.PassEnd(0))];
    assert s'.passes == map[0 := Waiting] && s'.core.threads == map[0 := D.Idle];
  }

  /** Then over no UDP sessions either. */
  lemma {:induction false} EmptyUdpPass(hosts: seq<D.Host>, steps: seq<Step>, s: Sys) returns (steps': seq<Step>, s': Sys)
    requires Exec(hosts, steps) == Some(s) && s.passes == map[0 := Waiting] && s.table == map[] && s.collector.None?
    ensures Exec(hosts, steps') == Some(s') && s' == s.(passes := map[0 := Off])
  {
    Snoc(hosts, steps, s, Collect(0));
    var s1, c1 := Do(s, Collect(0)), steps + [Collect(0)];
    assert s1.table.Values == {};
    Snoc(hosts, c1, s1, Collected(0));
    var s2, c2 := Do(s1, Collected(0)), c1 + [Collected(0)];
    Snoc(hosts, c2, s2, Done(0));
    s', steps' := Do(s2, Done(0)), c2 + [Done(0)];
    assert s'.passes == map[0 := Off];
  }

  lemma {:induction false} EmptyPass(hosts: seq<D.Host>, steps: seq<Step>, s: Sys) returns (steps': seq<Step>, s': Sys)
    requires Exec(hosts, steps) == Some(s) && s.core.threads == map[0 := D.MustPass] && PassOf(s, 0).Off? && s.passes.Keys <= {0}
    requires s.core.lock.Free? && s.core.sessions == map[] && s.table == map[] && s.collector.None?
    ensures Exec(hosts, steps') == Some(s')
    ensures s' == s.(core := s.core.(threads := map[0 := D.Idle]), passes := map[0 := Off])
  {
    var steps1, s1 := EmptyTcpPass(hosts, steps, s);
    steps', s' := EmptyUdpPass(hosts, steps1, s1);
  }

  /** No deny hosts and no interfaces: the first refresh opens the relay. */
  lemma {:induction false} Opened() returns (steps: seq<Step>, s: Sys)
    ensures Exec([], steps) == Some(s) && s.core.threads == map[0 := D.Idle] && s.passes == map[0 := Off]
    ensures s.core.policy == D.Policy([], {}, {}, false, false, false, 0)
    ensures s.core.lock.Free? && s.core.sessions == map[] && s.handlers == map[] && s.table == map[] && s.sessions == map[] && s.collector.None?
  {
    var snapshot, commit := Core(D.Snapshot(0)), Core(D.Commit(0, Some([]), map[]));
    var s0 := Start([]);
    Snoc([], [], s0, snapshot);
    var s1 := Do(s0, snapshot);
    Snoc([], [] + [snapshot], s1, commit);
    var s2 := Do(s1, commit);
    assert D.Find({}, [], Some([]), map[]) == D.Finding({}, false);
    assert s2.core.threads == map[0 := D.MustPass];
    steps, s := EmptyPass([], [] + [snapshot] + [commit], s2);
  }

  const TARGET := D.Target(D.Addr(true, 1), true)
  const KEY := Key(D.Addr(true, 2), 1234, TARGET)

  /**
   A packet is checked, a hold comes in and finishes its pass, and the packet opens its
   session: nothing is admitted any more, nobody owes a pass, and the session is open.
   */
  lemma {:induction false} LateUdpSession() returns (steps: seq<Step>, s: Sys)
    ensures Exec([], steps) == Some(s) && s.core.policy.hold && s.core.policy.failed && (forall t :: !Before(s, t) && PassOf(s, t).Off?)
    ensures Live(s, 0) && s.sessions[0].key == KEY
  {
    var steps0, s0 := Opened();
    Snoc([], steps0, s0, Check(0, KEY));
    var s1, steps1 := Do(s0, Check(0, KEY)), steps0 + [Check(0, KEY)];
    Snoc([], steps1, s1, Core(D.Hold(0)));
    var s2, steps2 := Do(s1, Core(D.Hold(0))), steps1 + [Core(D.Hold(0))];
    assert s2.core.threads == map[0 := D.MustPass];
    var steps3, s3 := EmptyPass([], steps2, s2);
    Snoc([], steps3, s3, Deliver(0, 0, true));
    s, steps := Do(s3, Deliver(0, 0, true)), steps3 + [Deliver(0, 0, true)];
    assert Opens(s3, Deliver(0, 0, true));
  }
}
