/**
 Group handoffs in planned runs: the handoff calls that the jobs of a planned batch make
 (agent/actions.go, resolveFinalActionJobOutcome and the handoff finalizers of
 prepareDesiredActionJobsWithOwnerResolver) drive the group of one entry group.
 */
module HandoffRuns {
  import opened ActionKeys
  import opened Options
  import opened Planner
  import F = Finalizers
  import H = Handoff

  function Members(b: Batch, t: int): seq<nat> {
    Participants(b, |b.remaining|, t)
  }

  predicate IsMember(b: Batch, t: int, i: nat) {
    i < |b.remaining| && Joins(b, i, t)
  }

  lemma MembersMeaning(b: Batch, t: int)
    ensures forall i :: i in Members(b, t) <==> IsMember(b, t, i)
    ensures H.Distinct(Members(b, t))
  {
    ParticipantsMeaning(b, |b.remaining|, t);
  }

  /** What belongs to the members among the first n remaining jobs. */
  function Picked<T>(b: Batch, n: nat, t: int, xs: seq<T>): seq<T>
    requires n <= |b.remaining| == |xs|
  {
    if n == 0 then [] else Picked(b, n - 1, t, xs) + if Joins(b, n - 1, t) then [xs[n - 1]] else []
  }

  /** A group as planned: a participant and a guard for every handoff that joins it. */
  function PlannedGroup(b: Batch, n: nat, t: int, actions: seq<Action>, selectors: seq<H.Selector>): H.Batch
    requires n <= |b.remaining| == |actions| == |selectors|
  {
    H.Planned(Participants(b, n, t), Picked(b, n, t, actions), H.RegisteredAll([], Picked(b, n, t, selectors)))
  }

  method AddMember(b: Batch, i: nat, t: int, action: Action, selector: H.Selector, group: H.HandoffBatch)
    modifies group
    ensures group.value == WithMember(b, i, t, action, selector, old(group.value))
  {
    if Joins(b, i, t) {
      group.AddParticipant(action);
      group.RegisterSelector(selector);
    }
  }

  function WithMember(b: Batch, i: nat, t: int, action: Action, selector: H.Selector, now: H.Batch): H.Batch {
    if Joins(b, i, t)
    then now.(participants := now.participants + 1, guards := now.guards + [action], selectors := H.Registered(now.selectors, selector))
    else now
  }

  method BuildGroup(b: Batch, t: int, actions: seq<Action>, selectors: seq<H.Selector>) returns (group: H.HandoffBatch)
    requires |actions| == |selectors| == |b.remaining|
    ensures fresh(group) && group.value == PlannedGroup(b, |b.remaining|, t, actions, selectors)
  {
    group := new H.HandoffBatch();
    for i := 0 to |b.remaining|
      invariant fresh(group) && group.value == PlannedGroup(b, i, t, actions, selectors)
    {
      PlannedNext(b, i, t, actions, selectors);
      AddMember(b, i, t, actions[i], selectors[i], group);
    }
  }

  lemma PlannedNext(b: Batch, i: nat, t: int, actions: seq<Action>, selectors: seq<H.Selector>)
    requires i < |b.remaining| == |actions| == |selectors|
    ensures PlannedGroup(b, i + 1, t, actions, selectors)
            == WithMember(b, i, t, actions[i], selectors[i], PlannedGroup(b, i, t, actions, selectors))
  {
    var p := Picked(b, i, t, selectors);
    assert (p + [selectors[i]])[..|p|] == p;
    assert p + [] == p && Picked(b, i, t, actions) + [] == Picked(b, i, t, actions);
  }

  // ------------------------------------------------------------------------ runs

  datatype Run = Run(jobs: F.Sys, group: H.Group)

  datatype Step =
    | Submit(action: Action)
    | Prepare(who: nat, specs: seq<H.Spec>, selector: H.Selector)
    | Job(step: F.Step)
    | Check

  /** A job that waits for the right prerequisites may be running. */
  ghost predicate MayRun(g: Graph, s: F.Sys, id: JobId) {
    F.StatusOf(s, id).Pending? && forall x :: x in Prereqs(g, id) ==> F.StatusOf(s, x) == F.Finished(true)
  }

  /** The handoff of i runs ahead of the shared runtimes; the job itself cleans up once more. */
  ghost predicate MayPrepare(b: Batch, g: Graph, t: int, s: F.Sys, i: nat) {
    IsMember(b, t, i) && (MayRun(g, s, HandoffOf(i)) || MayRun(g, s, RemainingOf(i)))
  }

  /** Handoff jobs set no finalizers of their own. */
  ghost predicate Enabled(b: Batch, g: Graph, t: int, r: Run, c: Step) {
    match c
    case Submit(_) => true
    case Prepare(i, _, _) => MayPrepare(b, g, t, r.jobs, i)
    case Job(step) => F.Enabled(g, r.jobs, step) && !(step.Install? && step.id.HandoffOf?)
    case Check => r.group.check.Some? && r.group.outcomes == []
  }

  /** The rollback closure of handoff i has just run. */
  predicate RollsBack(before: F.Res, after: F.Res) {
    before.fired == [] && after.fired != [] && !after.fired[0].commit && after.fired[0].closure
  }

  /** The call on a participant's handoff, if any, that a step of the jobs makes. */
  ghost function CallOf(b: Batch, g: Graph, t: int, s: F.Sys, c: F.Step): Option<(nat, bool)>
    requires F.Enabled(g, s, c)
  {
    match c
    case Complete(id) =>
      if id.RemainingOf? && IsMember(b, t, id.i) then Some((id.i, F.StatusOf(s, id).ok)) else None
    case Resolve(id) =>
      var x := Prereqs(s.open, id)[0];
      if x.HandoffOf? && IsMember(b, t, x.i) && RollsBack(F.ResultOf(s, x), F.ResultOf(F.Do(g, s, c), x)) then Some((x.i, false)) else None
    case _ => None
  }

  ghost function Do(b: Batch, g: Graph, t: int, r: Run, c: Step): Run
    requires Enabled(b, g, t, r, c)
  {
    match c
    case Submit(a) => r.(group := H.Do(r.group, H.Submit(a)))
    case Prepare(i, specs, s) => r.(group := H.Do(r.group, H.Prepare(i, specs, s)))
    case Job(step) =>
      var call := CallOf(b, g, t, r.jobs, step);
      Run(F.Do(g, r.jobs, step), if call.Some? then H.Do(r.group, H.Call(call.value.0, call.value.1)) else r.group)
    case Check => r.(group := H.Do(r.group, H.Check))
  }

  ghost function Exec(b: Batch, g: Graph, t: int, start: Run, steps: seq<Step>): Option<Run> {
    if steps == [] then Some(start)
    else
      var before := Exec(b, g, t, start, steps[..|steps| - 1]);
      if before.None? || !Enabled(b, g, t, before.value, steps[|steps| - 1]) then None
      else Some(Do(b, g, t, before.value, steps[|steps| - 1]))
  }

  /** A step that is enabled can be taken. */
  lemma {:induction false} CanTake(b: Batch, g: Graph, t: int, start: Run, steps: seq<Step>, r: Run, c: Step)
    requires Exec(b, g, t, start, steps) == Some(r) && Enabled(b, g, t, r, c)
    ensures Exec(b, g, t, start, steps + [c]) == Some(Do(b, g, t, r, c))
  {
    assert (steps + [c])[..|steps|] == steps;
  }

  // ---------------------------------------------------- what the jobs have reported

  ghost predicate Done(s: F.Sys, id: JobId, ok: bool) {
    !F.StatusOf(s, id).Pending? && F.StatusOf(s, id).ok == ok
  }

  /** A success rests on successes. */
  ghost predicate Sound(g: Graph, s: F.Sys, id: JobId) {
    Done(s, id, true) ==> forall x :: x in Prereqs(g, id) ==> F.StatusOf(s, x) == F.Finished(true)
  }

  /** The handoff of i has been let down: by its own job, or by a shared runtime it was made for. */
  ghost predicate LetDown(b: Batch, s: F.Sys, i: nat) {
    || F.StatusOf(s, RemainingOf(i)) == F.Finished(false)
    || exists r: nat :: Relevant(b, r, i) && Done(s, RuntimeOf(r), false)
  }

  ghost predicate VerdictOk(b: Batch, t: int, s: F.Sys, verdict: map<nat, bool>, i: nat) {
    && (i in verdict && verdict[i] ==> F.StatusOf(s, RemainingOf(i)) == F.Finished(true))
    && (i in verdict && !verdict[i] ==> LetDown(b, s, i))
    && (IsMember(b, t, i) && F.StatusOf(s, RemainingOf(i)).Finished? ==> i in verdict)
  }

  /** The planner's closures for handoffs: nothing to commit, a rollback. */
  ghost predicate HandoffClosures(s: F.Sys) {
    forall i :: F.ResultOf(s, HandoffOf(i)).rollbackFn
  }

  ghost predicate JobsOk(b: Batch, g: Graph, s: F.Sys) {
    && IsPlan(b, g) && F.Inv(g, s) && (forall id :: Sound(g, s, id)) && (forall id :: F.NoRepeats(Prereqs(g, id)))
    && HandoffClosures(s)
  }

  ghost predicate Inv(b: Batch, g: Graph, t: int, start: Run, r: Run) {
    && JobsOk(b, g, r.jobs)
    && H.Inv(Members(b, t), start.group, r.group)
    && (forall i: nat :: VerdictOk(b, t, r.jobs, r.group.verdict, i))
  }

  // ---------------------------------------------------- preparing before being heard

  /** A member's handoff runs before every shared runtime it was made for, and some runtime needs it. */
  lemma MemberPrereqs(b: Batch, g: Graph, t: int, i: nat) returns (r: nat)
    requires IsPlan(b, g) && IsMember(b, t, i)
    ensures RuntimeOf(r) in Prereqs(g, RemainingOf(i)) && HandoffOf(i) in Prereqs(g, RuntimeOf(r))
    ensures forall q: nat :: Relevant(b, q, i) ==>
              RuntimeOf(q) in Prereqs(g, RemainingOf(i)) && HandoffOf(i) in Prereqs(g, RuntimeOf(q))
  {
    forall q: nat | Relevant(b, q, i)
      ensures RuntimeOf(q) in Prereqs(g, RemainingOf(i)) && HandoffOf(i) in Prereqs(g, RuntimeOf(q))
    {
      PrereqMeaning(b, g, RemainingOf(i), RuntimeOf(q));
      PrereqMeaning(b, g, RuntimeOf(q), HandoffOf(i));
    }
    var q :| 0 <= q < |b.runtime| && Relevant(b, q, i);
    r := q;
  }

  lemma HeardIsPast(b: Batch, g: Graph, t: int, s: F.Sys, verdict: map<nat, bool>, i: nat)
    requires JobsOk(b, g, s) && IsMember(b, t, i) && VerdictOk(b, t, s, verdict, i) && i in verdict
    ensures !MayRun(g, s, HandoffOf(i)) && !MayRun(g, s, RemainingOf(i))
  {
    var q := MemberPrereqs(b, g, t, i);
    if F.StatusOf(s, RemainingOf(i)).Finished? {
      F.InvAt(g, s, RemainingOf(i), RemainingOf(i));
      F.InvAt(g, s, RuntimeOf(q), RuntimeOf(q));
    } else {
      var p: nat :| Relevant(b, p, i) && Done(s, RuntimeOf(p), false);
      F.InvAt(g, s, RuntimeOf(p), RuntimeOf(p));
    }
  }

  /** No snapshot comes in from a participant whose handoff has already been called. */
  lemma PreparesBeforeItsCall(b: Batch, g: Graph, t: int, start: Run, r: Run, i: nat)
    requires Inv(b, g, t, start, r)
    ensures MayPrepare(b, g, t, r.jobs, i) ==> i !in r.group.verdict
  {
    if IsMember(b, t, i) && i in r.group.verdict {
      assert VerdictOk(b, t, r.jobs, r.group.verdict, i);
      HeardIsPast(b, g, t, r.jobs, r.group.verdict, i);
    }
  }

  // -------------------------------------------------------------- the invariant

  lemma InvPrepare(b: Batch, g: Graph, t: int, start: Run, r: Run, c: Step)
    requires Inv(b, g, t, start, r) && Enabled(b, g, t, r, c) && c.Prepare?
    ensures Inv(b, g, t, start, Do(b, g, t, r, c))
  {
    PreparesBeforeItsCall(b, g, t, start, r, c.who);
    MembersMeaning(b, t);
    H.InvStep(Members(b, t), start.group, r.group, H.Prepare(c.who, c.specs, c.selector));
  }

  lemma InvQuiet(b: Batch, g: Graph, t: int, start: Run, r: Run, c: Step)
    requires Inv(b, g, t, start, r) && Enabled(b, g, t, r, c) && (c.Submit? || c.Check?)
    ensures Inv(b, g, t, start, Do(b, g, t, r, c))
  {
    H.InvStep(Members(b, t), start.group, r.group, if c.Submit? then H.Submit(c.action) else H.Check);
  }

  /** Statuses only move forward. */
  lemma StatusForward(g: Graph, s: F.Sys, c: F.Step, id: JobId)
    requires F.Enabled(g, s, c)
    ensures var s' := F.Do(g, s, c);
            && (F.StatusOf(s, id).Finished? ==> F.StatusOf(s', id) == F.StatusOf(s, id))
            && (forall ok :: Done(s, id, ok) ==> Done(s', id, ok))
            && (F.StatusOf(s', id) != F.StatusOf(s, id) ==>
                  c.id == id && ((c.Decide? && F.StatusOf(s', id) == F.Deciding(c.ok)) ||
                                 (c.Complete? && F.StatusOf(s', id) == F.Finished(F.StatusOf(s, id).ok))))
  {
  }

  lemma SoundStep(g: Graph, s: F.Sys, c: F.Step, id: JobId)
    requires F.Enabled(g, s, c) && Sound(g, s, id)
    ensures Sound(g, F.Do(g, s, c), id)
  {
    var s' := F.Do(g, s, c);
    StatusForward(g, s, c, id);
    if Done(s', id, true) {
      forall x | x in Prereqs(g, id) ensures F.StatusOf(s', x) == F.Finished(true) {
        StatusForward(g, s, c, x);
      }
    }
  }

  lemma ClosuresStep(g: Graph, s: F.Sys, c: F.Step)
    requires F.Enabled(g, s, c) && HandoffClosures(s) && !(c.Install? && c.id.HandoffOf?)
    ensures HandoffClosures(F.Do(g, s, c))
  {
    forall i ensures F.ResultOf(F.Do(g, s, c), HandoffOf(i)).rollbackFn {
      assert F.ResultOf(s, HandoffOf(i)).rollbackFn;
    }
  }

  lemma JobsStep(b: Batch, g: Graph, s: F.Sys, c: F.Step)
    requires JobsOk(b, g, s) && F.Enabled(g, s, c) && !(c.Install? && c.id.HandoffOf?)
    ensures JobsOk(b, g, F.Do(g, s, c))
  {
    if c.Resolve? {
      F.InvResolve(g, s, c.id);
    } else {
      F.InvQuiet(g, s, c);
    }
    forall id ensures Sound(g, F.Do(g, s, c), id) {
      SoundStep(g, s, c, id);
    }
    ClosuresStep(g, s, c);
  }

  lemma LetDownStays(b: Batch, g: Graph, s: F.Sys, c: F.Step, i: nat)
    requires F.Enabled(g, s, c) && LetDown(b, s, i)
    ensures LetDown(b, F.Do(g, s, c), i)
  {
    StatusForward(g, s, c, RemainingOf(i));
    if r: nat :| Relevant(b, r, i) && Done(s, RuntimeOf(r), false) {
      StatusForward(g, s, c, RuntimeOf(r));
    }
  }

  /** A rollback of handoff i is the word of a shared runtime that failed. */
  lemma RollbackMeans(b: Batch, g: Graph, s: F.Sys, i: nat)
    requires JobsOk(b, g, s) && F.ResultOf(s, HandoffOf(i)).fired != [] && !F.ResultOf(s, HandoffOf(i)).fired[0].commit
    ensures LetDown(b, s, i)
  {
    F.InvAt(g, s, HandoffOf(i), HandoffOf(i));
    var id :| F.ToldNo(g, s, id, HandoffOf(i));
    PrereqMeaning(b, g, id, HandoffOf(i));
    assert id.RuntimeOf? && Relevant(b, id.r, i) && Done(s, RuntimeOf(id.r), false);
  }

  /** A handoff that was let down belongs to a job that does not succeed. */
  lemma LetDownFails(b: Batch, g: Graph, t: int, s: F.Sys, i: nat)
    requires JobsOk(b, g, s) && IsMember(b, t, i) && LetDown(b, s, i)
    ensures !Done(s, RemainingOf(i), true)
  {
    var q := MemberPrereqs(b, g, t, i);
    assert Sound(g, s, RemainingOf(i));
  }

  lemma VerdictKept(b: Batch, g: Graph, t: int, s: F.Sys, c: F.Step, verdict: map<nat, bool>, i: nat)
    requires F.Enabled(g, s, c) && VerdictOk(b, t, s, verdict, i)
    requires IsMember(b, t, i) && F.StatusOf(F.Do(g, s, c), RemainingOf(i)).Finished? ==>
               i in verdict || F.StatusOf(s, RemainingOf(i)).Finished?
    ensures VerdictOk(b, t, F.Do(g, s, c), verdict, i)
  {
    StatusForward(g, s, c, RemainingOf(i));
    if LetDown(b, s, i) {
      LetDownStays(b, g, s, c, i);
    }
  }

  /** The verdict that a job's own finish brings, or finds already there. */
  lemma VerdictOfJob(b: Batch, g: Graph, t: int, s: F.Sys, verdict: map<nat, bool>, i: nat)
    requires JobsOk(b, g, s) && F.Enabled(g, s, F.Complete(RemainingOf(i))) && IsMember(b, t, i) && VerdictOk(b, t, s, verdict, i)
    ensures var ok := F.StatusOf(s, RemainingOf(i)).ok;
            && (i in verdict ==> !verdict[i] && !ok)
            && VerdictOk(b, t, F.Do(g, s, F.Complete(RemainingOf(i))), if i in verdict then verdict else verdict[i := ok], i)
  {
    if i in verdict {
      LetDownFails(b, g, t, s, i);
      LetDownStays(b, g, s, F.Complete(RemainingOf(i)), i);
    }
  }

  lemma InvJob(b: Batch, g: Graph, t: int, start: Run, r: Run, c: F.Step)
    requires Inv(b, g, t, start, r) && Enabled(b, g, t, r, Job(c))
    ensures Inv(b, g, t, start, Do(b, g, t, r, Job(c)))
  {
    var r', s, call := Do(b, g, t, r, Job(c)), r.jobs, CallOf(b, g, t, r.jobs, c);
    JobsStep(b, g, s, c);
    MembersMeaning(b, t);
    if call.Some? {
      H.InvStep(Members(b, t), start.group, r.group, H.Call(call.value.0, call.value.1));
    }
    forall i: nat ensures VerdictOk(b, t, r'.jobs, r'.group.verdict, i) {
      assert VerdictOk(b, t, s, r.group.verdict, i);
      VerdictStep(b, g, t, r, c, i);
    }
  }

  lemma VerdictStep(b: Batch, g: Graph, t: int, r: Run, c: F.Step, i: nat)
    requires JobsOk(b, g, r.jobs) && Enabled(b, g, t, r, Job(c)) && JobsOk(b, g, F.Do(g, r.jobs, c))
    requires VerdictOk(b, t, r.jobs, r.group.verdict, i)
    ensures VerdictOk(b, t, F.Do(g, r.jobs, c), Do(b, g, t, r, Job(c)).group.verdict, i)
  {
    var s, call := r.jobs, CallOf(b, g, t, r.jobs, c);
    StatusForward(g, s, c, RemainingOf(i));
    if c == F.Complete(RemainingOf(i)) && IsMember(b, t, i) {
      VerdictOfJob(b, g, t, s, r.group.verdict, i);
    } else {
      VerdictKept(b, g, t, s, c, r.group.verdict, i);
      if call.Some? && call.value.0 == i && i !in r.group.verdict {
        RollbackMeans(b, g, F.Do(g, s, c), i);
      }
    }
  }

  lemma InvStep(b: Batch, g: Graph, t: int, start: Run, r: Run, c: Step)
    requires Inv(b, g, t, start, r) && Enabled(b, g, t, r, c)
    ensures Inv(b, g, t, start, Do(b, g, t, r, c))
  {
    match c {
      case Submit(_) => InvQuiet(b, g, t, start, r, c);
      case Prepare(_, _, _) => InvPrepare(b, g, t, start, r, c);
      case Job(step) => InvJob(b, g, t, start, r, step);
      case Check => InvQuiet(b, g, t, start, r, c);
    }
  }

  /** A planned batch with a group, before any of its jobs has run. */
  ghost predicate Begin(b: Batch, g: Graph, t: int, actions: seq<Action>, selectors: seq<H.Selector>, start: Run)
    requires |actions| == |selectors| == |b.remaining|
  {
    && IsPlan(b, g) && F.Init(g, start.jobs) && HandoffClosures(start.jobs)
    && Members(b, t) != []
    && start.group == H.Group(start.group.epoch, PlannedGroup(b, |b.remaining|, t, actions, selectors), map[], None, [], [], [])
  }

  lemma InvBegin(b: Batch, g: Graph, t: int, actions: seq<Action>, selectors: seq<H.Selector>, start: Run)
    requires |actions| == |selectors| == |b.remaining| && Begin(b, g, t, actions, selectors, start)
    ensures Inv(b, g, t, start, start)
  {
    MembersMeaning(b, t);
    F.InitInv(g, start.jobs);
    forall id ensures F.NoRepeats(Prereqs(g, id)) {
      F.PlanHasNoRepeats(b, g, id);
    }
    H.InvStart(Members(b, t), start.group.batch.guards, start.group.batch.selectors, start.group.epoch);
  }

  lemma {:induction false} InvRun(b: Batch, g: Graph, t: int, start: Run, steps: seq<Step>)
    requires Inv(b, g, t, start, start) && Exec(b, g, t, start, steps).Some?
    ensures Inv(b, g, t, start, Exec(b, g, t, start, steps).value)
  {
    if steps != [] {
      var init := steps[..|steps| - 1];
      InvRun(b, g, t, start, init);
      InvStep(b, g, t, start, Exec(b, g, t, start, init).value, steps[|steps| - 1]);
    }
  }

  // ---------------------------------------------------------------- the theorem

  /** Every planned participant has finished its own job. */
  ghost predicate MembersFinished(b: Batch, t: int, s: F.Sys) {
    forall i: nat :: IsMember(b, t, i) ==> F.StatusOf(s, RemainingOf(i)).Finished?
  }

  /** The participants heard are planned ones, counted once each, and heard as their jobs turn out. */
  ghost predicate HeardRightly(b: Batch, t: int, r: Run) {
    var verdict := r.group.verdict;
    && (forall i :: i in verdict ==> IsMember(b, t, i) && !Done(r.jobs, RemainingOf(i), !verdict[i]))
    && r.group.batch.resolved == |verdict.Keys| <= r.group.batch.participants == |Members(b, t)|
    && (MembersFinished(b, t, r.jobs) ==> forall i: nat :: IsMember(b, t, i) ==> i in verdict)
  }

  lemma HeardAsJobs(b: Batch, g: Graph, t: int, start: Run, r: Run)
    requires Inv(b, g, t, start, r)
    ensures HeardRightly(b, t, r)
  {
    var verdict := r.group.verdict;
    MembersMeaning(b, t);
    H.DistinctSize(Members(b, t));
    H.SubsetSize(verdict.Keys, H.MemberSet(Members(b, t)));
    forall i | i in verdict ensures IsMember(b, t, i) && !Done(r.jobs, RemainingOf(i), !verdict[i]) {
      assert i in verdict.Keys && i in H.MemberSet(Members(b, t));
      assert VerdictOk(b, t, r.jobs, verdict, i);
      if !verdict[i] {
        LetDownFails(b, g, t, r.jobs, i);
      }
    }
    forall i: nat | IsMember(b, t, i) && F.StatusOf(r.jobs, RemainingOf(i)).Finished? ensures i in verdict {
      assert VerdictOk(b, t, r.jobs, verdict, i);
    }
  }

  /**
   In every run of a planned batch each participant of an entry group is heard once, as its job
   turns out; the group takes effect at most once, after all of them; and unless a newer desired
   state has overtaken a guard it restores every runtime any of them replaced, if a participant
   failed, and commits them all otherwise.
   */
  lemma {:induction false} PlannedGroupFinalizedOnce(b: Batch, g: Graph, t: int, actions: seq<Action>, selectors: seq<H.Selector>, start: Run, steps: seq<Step>, r: Run)
    requires |actions| == |selectors| == |b.remaining| && Begin(b, g, t, actions, selectors, start)
    requires Exec(b, g, t, start, steps) == Some(r)
    ensures HeardRightly(b, t, r)
    ensures H.RightOutcome(Members(b, t), start.group, r.group)
    ensures MembersFinished(b, t, r.jobs) ==> r.group.check.Some?
  {
    InvBegin(b, g, t, actions, selectors, start);
    InvRun(b, g, t, start, steps);
    HeardAsJobs(b, g, t, start, r);
    H.InvMeansRight(Members(b, t), start.group, r.group);
    MembersMeaning(b, t);
  }

  /** Said of the jobs: with all participants finished and no guard overtaken, the group restores exactly if one of them failed. */
  lemma {:induction false} RestoresIfOneFailed(b: Batch, g: Graph, t: int, actions: seq<Action>, selectors: seq<H.Selector>, start: Run, steps: seq<Step>, r: Run)
    requires |actions| == |selectors| == |b.remaining| && Begin(b, g, t, actions, selectors, start)
    requires Exec(b, g, t, start, steps) == Some(r) && MembersFinished(b, t, r.jobs) && r.group.outcomes != []
    requires !H.Overtaken(r.group.epoch, start.group.batch.guards)
    ensures r.group.outcomes[0] == if exists i: nat :: IsMember(b, t, i) && Done(r.jobs, RemainingOf(i), false)
                                   then H.RestoreAll(H.Recorded(map[], r.group.prepared))
                                   else H.CommitAll(H.Recorded(map[], r.group.prepared), H.RegisteredAll(start.group.batch.selectors, r.group.asked))
  {
    PlannedGroupFinalizedOnce(b, g, t, actions, selectors, start, steps, r);
    var verdict := r.group.verdict;
    forall i | i in verdict ensures IsMember(b, t, i) && Done(r.jobs, RemainingOf(i), verdict[i]) {
      assert F.StatusOf(r.jobs, RemainingOf(i)).Finished?;
    }
    if i: nat :| IsMember(b, t, i) && Done(r.jobs, RemainingOf(i), false) {
      assert i in verdict;
    }
  }

  /** The finalizer of i's handoff has fired, to roll back. */
  predicate RolledBack(s: F.Sys, i: nat) {
    var r := F.ResultOf(s, HandoffOf(i));
    r.fired != [] && !r.fired[0].commit
  }

  ghost predicate HeardIff(b: Batch, t: int, r: Run, i: nat) {
    i in r.group.verdict <==> IsMember(b, t, i) && (F.StatusOf(r.jobs, RemainingOf(i)).Finished? || RolledBack(r.jobs, i))
  }

  /** A handoff's finalizer fires for the first time only, and then with the planner's closure. */
  lemma RolledBackBy(b: Batch, g: Graph, t: int, s: F.Sys, c: F.Step, i: nat)
    requires JobsOk(b, g, s) && F.Enabled(g, s, c)
    ensures RolledBack(F.Do(g, s, c), i) <==>
              RolledBack(s, i) ||
              (c.Resolve? && Prereqs(s.open, c.id)[0] == HandoffOf(i)
                && RollsBack(F.ResultOf(s, HandoffOf(i)), F.ResultOf(F.Do(g, s, c), HandoffOf(i))))
  {
    F.InvAt(g, s, c.id, HandoffOf(i));
  }

  lemma HeardStep(b: Batch, g: Graph, t: int, start: Run, r: Run, c: Step, i: nat)
    requires Inv(b, g, t, start, r) && Enabled(b, g, t, r, c) && HeardIff(b, t, r, i)
    ensures HeardIff(b, t, Do(b, g, t, r, c), i)
  {
    if c.Job? {
      RolledBackBy(b, g, t, r.jobs, c.step, i);
    }
  }

  /** In every run exactly those participants have been heard whose job has finished or whose handoff has rolled back. */
  lemma {:induction false} HeardExactly(b: Batch, g: Graph, t: int, actions: seq<Action>, selectors: seq<H.Selector>, start: Run, steps: seq<Step>, i: nat)
    requires |actions| == |selectors| == |b.remaining| && Begin(b, g, t, actions, selectors, start)
    requires Exec(b, g, t, start, steps).Some?
    ensures HeardIff(b, t, Exec(b, g, t, start, steps).value, i)
  {
    InvBegin(b, g, t, actions, selectors, start);
    if steps != [] {
      var init := steps[..|steps| - 1];
      HeardExactly(b, g, t, actions, selectors, start, init, i);
      InvRun(b, g, t, start, init);
      HeardStep(b, g, t, start, Exec(b, g, t, start, init).value, steps[|steps| - 1], i);
    } else {
      assert F.ResultOf(start.jobs, HandoffOf(i)).fired == [];
    }
  }

  /** Whatever has happened, while a job of the batch is unfinished the jobs can go on, and a due check can be made. */
  lemma {:induction false} RunProgresses(b: Batch, g: Graph, t: int, r: Run, id: JobId) returns (c: Step)
    requires IsPlan(b, g)
    requires !F.StatusOf(r.jobs, id).Finished? || (r.group.check.Some? && r.group.outcomes == [])
    ensures Enabled(b, g, t, r, c) && (c.Check? || (c.Job? && !c.step.Install?))
  {
    if F.StatusOf(r.jobs, id).Finished? {
      c := Check;
    } else {
      var step := F.BatchProgresses(b, g, r.jobs, id);
      c := Job(step);
    }
  }
}
