/**
 Handoff finalization (agent/main.go, actionHandoffBatch and actionHandoffState;
 agent/actions.go, finalizeActionHandoffState): handoffs of one entry group are
 finalized together, once, by whichever participant resolves last, unless a newer
 desired state has overtaken one of the guard actions.
 */
module Handoff {
  import opened ActionKeys
  import opened Epochs
  import opened Options

  /** A runtime snapshot with its server id, and a selector with its key; bodies are opaque. */
  datatype Spec = Spec(id: string, body: nat)
  datatype Selector = Selector(key: string, body: nat)

  datatype Outcome =
    | CommitAll(originals: map<string, Spec>, selectors: seq<Selector>)
    | RestoreAll(originals: map<string, Spec>)
    | Superseded

  datatype Batch = Batch(
    participants: nat,
    resolved: nat,
    failed: bool,
    originals: map<string, Spec>,
    selectors: seq<Selector>,
    guards: seq<Action>,
    once: bool)

  /** What the completing participant takes along when it leaves the batch's lock. */
  datatype Ticket = Ticket(failed: bool, originals: map<string, Spec>, selectors: seq<Selector>, guards: seq<Action>)

  const NEW_BATCH := Batch(0, 0, false, map[], [], [], false)

  predicate HasKey(sels: seq<Selector>, key: string) {
    exists i :: 0 <= i < |sels| && sels[i].key == key
  }

  function Registered(sels: seq<Selector>, s: Selector): seq<Selector> {
    if HasKey(sels, s.key) then sels else sels + [s]
  }

  function RegisteredAll(sels: seq<Selector>, more: seq<Selector>): seq<Selector> {
    if more == [] then sels else Registered(RegisteredAll(sels, more[..|more| - 1]), more[|more| - 1])
  }

  /** The first snapshot of a runtime is kept, later ones are ignored. */
  function Recorded(m: map<string, Spec>, specs: seq<Spec>): map<string, Spec> {
    if specs == [] then m
    else
      var r, last := Recorded(m, specs[..|specs| - 1]), specs[|specs| - 1];
      if last.id in r then r else r[last.id := last]
  }

  function Prepared(b: Batch, specs: seq<Spec>, s: Selector): Batch {
    b.(selectors := Registered(b.selectors, s), originals := Recorded(b.originals, specs))
  }

  function Resolved(b: Batch, ok: bool): Batch {
    if b.resolved >= b.participants then b
    else
      b.(resolved := b.resolved + 1, failed := b.failed || !ok, once := b.once || b.resolved + 1 == b.participants)
  }

  /** The last participant to resolve, and only that one, finalizes. */
  function TicketOf(b: Batch, ok: bool): Option<Ticket> {
    var r := Resolved(b, ok);
    if !b.once && r.once then Some(Ticket(r.failed, r.originals, r.selectors, r.guards)) else None
  }

  function Decided(t: Ticket): Outcome {
    if t.failed then RestoreAll(t.originals) else CommitAll(t.originals, t.selectors)
  }

  ghost predicate Overtaken(m: EpochMap, guards: seq<Action>) {
    exists k :: 0 <= k < |guards| && Older(m, guards[k])
  }

  /** The first selector of every key is kept, and nothing else. */
  lemma {:induction false} RegisteredMeaning(sels: seq<Selector>, more: seq<Selector>, key: string)
    ensures var all := RegisteredAll(sels, more);
            && |sels| <= |all| && all[..|sels|] == sels
            && ((exists i :: 0 <= i < |all| && all[i].key == key) <==>
                  (exists i :: 0 <= i < |sels| && sels[i].key == key) || exists i :: 0 <= i < |more| && more[i].key == key)
            && (forall j :: 0 <= j < |more| && more[j].key == key && !HasKey(sels, key) && !HasKey(more[..j], key) ==> more[j] in all)
            && (HasKey(all, key) <==> exists i :: 0 <= i < |all| && all[i].key == key)
            && (forall s :: s in all ==> s in sels || s in more)
  {
    if more != [] {
      var n := |more| - 1;
      var before, last := RegisteredAll(sels, more[..n]), more[n];
      RegisteredMeaning(sels, more[..n], key);
      assert more == more[..n] + [last];
      assert HasKey(more, key) <==> HasKey(more[..n], key) || last.key == key by {
        if i :| 0 <= i < |more| && more[i].key == key {
          assert i < n ==> more[..n][i].key == key;
        }
        if i :| 0 <= i < n && more[..n][i].key == key {
          assert more[i].key == key;
        }
      }
      var all := RegisteredAll(sels, more);
      assert HasKey(all, key) <==> HasKey(before, key) || last.key == key by {
        if last.key == key && !HasKey(before, key) {
          assert all[|before|].key == key;
        }
        if i :| 0 <= i < |before| && before[i].key == key {
          assert all[i].key == key;
        }
      }
      forall j | 0 <= j < |more| && more[j].key == key && !HasKey(sels, key) && !HasKey(more[..j], key) ensures more[j] in all {
        if j < n {
          assert more[..n][j] == more[j] && more[..n][..j] == more[..j];
        } else {
          assert !HasKey(before, key) && all == before + [last];
        }
      }
    }
  }

  /** One participant after the last is heard counts for nothing; before, it is counted, and the last takes all there is along. */
  lemma ResolveMeaning(b: Batch, ok: bool)
    requires b.once <==> b.resolved >= b.participants
    ensures b.resolved >= b.participants ==> Resolved(b, ok) == b && TicketOf(b, ok) == None
    ensures b.resolved < b.participants ==>
              && Resolved(b, ok).resolved == b.resolved + 1 && (Resolved(b, ok).failed <==> b.failed || !ok)
              && TicketOf(b, ok) == if b.resolved + 1 == b.participants
                                    then Some(Ticket(b.failed || !ok, b.originals, b.selectors, b.guards)) else None
    ensures var r := Resolved(b, ok); r.originals == b.originals && r.selectors == b.selectors && r.guards == b.guards && r.participants == b.participants
  {
  }

  class HandoffBatch {
    var value: Batch

    constructor ()
      ensures value == NEW_BATCH
    {
      value := NEW_BATCH;
    }

    method AddParticipant(guard: Action)
      modifies this
      ensures value == old(value).(participants := old(value).participants + 1, guards := old(value).guards + [guard])
    {
      value := value.(participants := value.participants + 1, guards := value.guards + [guard]);
    }

    method RegisterSelector(s: Selector)
      modifies this
      ensures value == old(value).(selectors := Registered(old(value).selectors, s))
    {
      if !HasKey(value.selectors, s.key) {
        value := value.(selectors := value.selectors + [s]);
      }
    }

    /** Records what a handoff is about to replace; persisting snapshot number `failAt` fails, if it is tried. */
    method PrepareTransition(originals: seq<Spec>, s: Selector, failAt: nat) returns (ok: bool)
      modifies this
      ensures ok <==> !(&& failAt < |originals| && originals[failAt].id !in old(value).originals
                        && forall i :: 0 <= i < failAt ==> originals[i].id != originals[failAt].id)
      ensures value == Prepared(old(value), if ok then originals else originals[..failAt], s)
    {
      RegisterSelector(s);
      ghost var registered := value;
      var i := 0;
      while i < |originals|
        invariant i <= |originals| && registered.originals == old(value).originals
        invariant value == registered.(originals := Recorded(registered.originals, originals[..i]))
        invariant failAt < i ==> originals[failAt].id in registered.originals || exists k :: 0 <= k < failAt && originals[k].id == originals[failAt].id
      {
        assert originals[..i + 1][..i] == originals[..i];
        RecordedKeys(registered.originals, originals[..i], originals[i].id);
        if originals[i].id !in value.originals {
          if i == failAt {
            return false;
          }
          value := value.(originals := value.originals[originals[i].id := originals[i]]);
        }
        i := i + 1;
      }
      assert originals[..i] == originals;
      ok := true;
    }

    method Resolve(ok: bool) returns (ticket: Option<Ticket>)
      modifies this
      ensures value == Resolved(old(value), ok) && ticket == TicketOf(old(value), ok)
    {
      if value.resolved >= value.participants {
        return None;
      }
      value := value.(resolved := value.resolved + 1);
      if !ok {
        value := value.(failed := true);
      }
      var ready := value.participants > 0 && value.resolved == value.participants;
      if !ready || value.once {
        return None;
      }
      value := value.(once := true);
      ticket := Some(Ticket(value.failed, value.originals, value.selectors, value.guards));
    }
  }

  /** Finalization when no newer state arrives meanwhile. */
  method FinalizeBatch(t: Ticket, epochs: EpochTable) returns (outcome: Outcome)
    modifies epochs
    ensures epochs.latest == old(epochs.latest)
    ensures outcome == if Overtaken(epochs.latest, t.guards) then Superseded else Decided(t)
  {
    for k := 0 to |t.guards|
      invariant epochs.latest == old(epochs.latest) && forall j :: 0 <= j < k ==> !Older(epochs.latest, t.guards[j])
    {
      var older := epochs.IsOlder(t.guards[k], false);
      if older {
        return Superseded;
      }
    }
    outcome := Decided(t);
  }

  lemma {:induction false} RecordedIsFirst(m: map<string, Spec>, specs: seq<Spec>, i: nat)
    requires i < |specs|
    ensures specs[i].id in Recorded(m, specs)
    ensures specs[i].id !in m && (forall j :: 0 <= j < i ==> specs[j].id != specs[i].id) ==> Recorded(m, specs)[specs[i].id] == specs[i]
    ensures forall id :: id in m ==> id in Recorded(m, specs) && Recorded(m, specs)[id] == m[id]
  {
    var init := specs[..|specs| - 1];
    RecordedKeeps(m, init);
    if i < |init| {
      RecordedIsFirst(m, init, i);
    } else {
      RecordedKeys(m, init, specs[i].id);
    }
  }

  lemma {:induction false} RecordedKeeps(m: map<string, Spec>, specs: seq<Spec>)
    ensures forall id :: id in m ==> id in Recorded(m, specs) && Recorded(m, specs)[id] == m[id]
  {
    if specs != [] {
      RecordedKeeps(m, specs[..|specs| - 1]);
    }
  }

  lemma {:induction false} RecordedKeys(m: map<string, Spec>, specs: seq<Spec>, id: string)
    ensures id in Recorded(m, specs) <==> id in m || exists j :: 0 <= j < |specs| && specs[j].id == id
  {
    if specs != [] {
      var n := |specs| - 1;
      RecordedKeys(m, specs[..n], id);
      if j :| 0 <= j < |specs| && specs[j].id == id {
        assert j < n ==> specs[..n][j].id == id;
      }
    }
  }

  lemma {:induction false} RecordedConcat(m: map<string, Spec>, specs: seq<Spec>, more: seq<Spec>)
    ensures Recorded(m, specs + more) == Recorded(Recorded(m, specs), more)
  {
    if more == [] {
      assert specs + more == specs;
    } else {
      assert (specs + more)[..|specs + more| - 1] == specs + more[..|more| - 1];
      RecordedConcat(m, specs, more[..|more| - 1]);
    }
  }

  // ------------------------------------------------------------ a group in motion

  /** The guard checks made so far, each with the issue times it saw; `closing` are those at the completing call. */
  datatype Checking = Checking(ticket: Ticket, closing: EpochMap, seen: seq<EpochMap>)

  /**
   `verdict` holds the first call on each participant's handoff, later ones being ignored.
   `prepared` and `asked` list all snapshots and selectors in the order they came in.
   */
  datatype Group = Group(
    epoch: EpochMap,
    batch: Batch,
    verdict: map<nat, bool>,
    check: Option<Checking>,
    outcomes: seq<Outcome>,
    prepared: seq<Spec>,
    asked: seq<Selector>)

  datatype Step =
    | Submit(action: Action)                                        // a newer desired state is accepted
    | Prepare(who: nat, specs: seq<Spec>, selector: Selector)       // a participant's handoff replaces runtimes
    | Call(who: nat, ok: bool)                                      // its handoff is committed, finished or rolled back
    | Check                                                         // the finalizer looks at the next guard, or acts

  function Planned(members: seq<nat>, guards: seq<Action>, selectors: seq<Selector>): Batch {
    Batch(|members|, 0, false, map[], selectors, guards, false)
  }

  function Start(members: seq<nat>, guards: seq<Action>, selectors: seq<Selector>, epoch: EpochMap): Group {
    Group(epoch, Planned(members, guards, selectors), map[], None, [], [], [])
  }

  /** Only a participant that has not been heard yet prepares; see HandoffRuns.PreparesBeforeItsCall. */
  predicate Enabled(members: seq<nat>, gr: Group, c: Step) {
    match c
    case Submit(_) => true
    case Prepare(who, _, _) => who in members && who !in gr.verdict
    case Call(who, _) => who in members
    case Check => gr.check.Some? && gr.outcomes == []
  }

  ghost function Do(gr: Group, c: Step): Group {
    match c
    case Submit(a) => gr.(epoch := Remember(gr.epoch, a))
    case Prepare(_, specs, s) =>
      gr.(batch := Prepared(gr.batch, specs, s), prepared := gr.prepared + specs, asked := gr.asked + [s])
    case Call(who, ok) =>
      if who in gr.verdict then gr
      else
        var t := TicketOf(gr.batch, ok);
        gr.(batch := Resolved(gr.batch, ok), verdict := gr.verdict[who := ok],
            check := if t.Some? then Some(Checking(t.value, gr.epoch, [])) else gr.check)
    case Check => if gr.check.Some? then Checked(gr) else gr
  }

  ghost function Checked(gr: Group): Group
    requires gr.check.Some?
  {
    var c := gr.check.value;
    if |c.seen| >= |c.ticket.guards| then gr.(outcomes := gr.outcomes + [Decided(c.ticket)])
    else
      gr.(check := Some(c.(seen := c.seen + [gr.epoch])),
          outcomes := if Older(gr.epoch, c.ticket.guards[|c.seen|]) then gr.outcomes + [Superseded] else gr.outcomes)
  }

  ghost function Exec(members: seq<nat>, start: Group, steps: seq<Step>): Option<Group> {
    if steps == [] then Some(start)
    else
      var before := Exec(members, start, steps[..|steps| - 1]);
      if before.None? || !Enabled(members, before.value, steps[|steps| - 1]) then None
      else Some(Do(before.value, steps[|steps| - 1]))
  }

  /** A step that is enabled can be taken. */
  lemma {:induction false} CanTake(members: seq<nat>, start: Group, steps: seq<Step>, gr: Group, c: Step)
    requires Exec(members, start, steps) == Some(gr) && Enabled(members, gr, c)
    ensures Exec(members, start, steps + [c]) == Some(Do(gr, c))
  {
    assert (steps + [c])[..|steps|] == steps;
  }

  // -------------------------------------------------------------- the invariant

  ghost predicate Leq(m: EpochMap, n: EpochMap) {
    forall k :: Latest(m, k) <= Latest(n, k)
  }

  lemma OlderLater(m: EpochMap, n: EpochMap, a: Action)
    requires Leq(m, n) && Older(m, a)
    ensures Older(n, a)
  {
    var k :| k in StaleKeys(a) && a.issuedAt < Latest(m, k);
    assert Latest(m, k) <= Latest(n, k);
  }

  lemma SubmitLater(m: EpochMap, a: Action)
    ensures Leq(m, Remember(m, a))
  {
    forall k ensures Latest(m, k) <= Latest(Remember(m, a), k) {
      RememberRaises(m, a, k);
    }
  }

  function MemberSet(members: seq<nat>): set<nat> {
    set i | i in members
  }

  ghost predicate AnyFailed(verdict: map<nat, bool>) {
    exists i :: i in verdict && !verdict[i]
  }

  /** The batch says what the participants heard so far have said. */
  ghost predicate Counted(members: seq<nat>, start: Group, gr: Group) {
    var b := gr.batch;
    && b.participants == |MemberSet(members)| && b.participants > 0
    && gr.verdict.Keys <= MemberSet(members) && b.resolved == |gr.verdict.Keys|
    && (b.failed <==> AnyFailed(gr.verdict))
    && (b.once <==> b.resolved == b.participants)
    && b.guards == start.batch.guards
    && b.originals == Recorded(map[], gr.prepared)
    && b.selectors == RegisteredAll(start.batch.selectors, gr.asked)
  }

  ghost predicate NoneOlder(c: Checking, n: nat) {
    n <= |c.seen| && |c.seen| <= |c.ticket.guards| && forall k :: 0 <= k < n ==> !Older(c.seen[k], c.ticket.guards[k])
  }

  /** The issue times seen lie between those at the completing call and now. */
  ghost predicate InOrder(gr: Group, c: Checking) {
    Leq(c.closing, gr.epoch) && forall k :: 0 <= k < |c.seen| ==> Leq(c.closing, c.seen[k]) && Leq(c.seen[k], gr.epoch)
  }

  ghost predicate Judged(c: Checking, outcomes: seq<Outcome>) {
    && |c.seen| <= |c.ticket.guards|
    && (outcomes == [] ==> NoneOlder(c, |c.seen|))
    && (outcomes != [] ==>
          || (&& outcomes == [Superseded] && c.seen != [] && NoneOlder(c, |c.seen| - 1)
              && Older(c.seen[|c.seen| - 1], c.ticket.guards[|c.seen| - 1]))
          || (outcomes == [Decided(c.ticket)] && |c.seen| == |c.ticket.guards| && NoneOlder(c, |c.seen|)))
  }

  ghost predicate CheckOk(gr: Group) {
    && (gr.check.Some? <==> gr.batch.once)
    && (gr.check.None? ==> gr.outcomes == [])
    && (gr.check.Some? ==>
          && gr.check.value.ticket == Ticket(gr.batch.failed, gr.batch.originals, gr.batch.selectors, gr.batch.guards)
          && InOrder(gr, gr.check.value) && Judged(gr.check.value, gr.outcomes))
  }

  ghost predicate Inv(members: seq<nat>, start: Group, gr: Group) {
    Counted(members, start, gr) && CheckOk(gr)
  }

  lemma {:induction false} SubsetSize(a: set<nat>, b: set<nat>)
    requires a <= b
    ensures |a| <= |b| && (|a| == |b| ==> a == b)
  {
    if a != {} {
      var x :| x in a;
      SubsetSize(a - {x}, b - {x});
    }
  }

  lemma InvSubmit(members: seq<nat>, start: Group, gr: Group, a: Action)
    requires Inv(members, start, gr)
    ensures Inv(members, start, Do(gr, Submit(a)))
  {
    SubmitLater(gr.epoch, a);
  }

  lemma InvPrepare(members: seq<nat>, start: Group, gr: Group, c: Step)
    requires Inv(members, start, gr) && c.Prepare? && Enabled(members, gr, c)
    ensures Inv(members, start, Do(gr, c))
  {
    RecordedConcat(map[], gr.prepared, c.specs);
    assert (gr.asked + [c.selector])[..|gr.asked|] == gr.asked;
    SubsetSize(gr.verdict.Keys, MemberSet(members));
    assert c.who in MemberSet(members);
  }

  lemma CountedCall(members: seq<nat>, start: Group, gr: Group, who: nat, ok: bool)
    requires Counted(members, start, gr) && who in members && who !in gr.verdict
    ensures Counted(members, start, Do(gr, Call(who, ok))) && !gr.batch.once
  {
    var gr' := Do(gr, Call(who, ok));
    assert who in MemberSet(members);
    SubsetSize(gr.verdict.Keys, MemberSet(members));
    assert gr'.verdict.Keys == gr.verdict.Keys + {who};
    SubsetSize(gr'.verdict.Keys, MemberSet(members));
    forall i | i in gr.verdict ensures gr'.verdict[i] == gr.verdict[i] {
    }
    if AnyFailed(gr.verdict) {
      var i :| i in gr.verdict && !gr.verdict[i];
      assert !gr'.verdict[i];
    }
    if !ok {
      assert !gr'.verdict[who];
    }
  }

  lemma InvCall(members: seq<nat>, start: Group, gr: Group, who: nat, ok: bool)
    requires Inv(members, start, gr) && who in members
    ensures Inv(members, start, Do(gr, Call(who, ok)))
  {
    if who !in gr.verdict {
      CountedCall(members, start, gr, who, ok);
    }
  }

  lemma JudgedMore(c: Checking, m: EpochMap)
    requires Judged(c, []) && |c.seen| < |c.ticket.guards|
    ensures Judged(c.(seen := c.seen + [m]), if Older(m, c.ticket.guards[|c.seen|]) then [Superseded] else [])
  {
    var c' := c.(seen := c.seen + [m]);
    assert forall k :: 0 <= k < |c.seen| ==> c'.seen[k] == c.seen[k];
    assert NoneOlder(c', |c.seen|);
  }

  lemma InOrderMore(gr: Group, gr': Group, c: Checking)
    requires InOrder(gr, c) && gr'.epoch == gr.epoch
    ensures InOrder(gr', c.(seen := c.seen + [gr.epoch]))
  {
  }

  lemma InvCheck(members: seq<nat>, start: Group, gr: Group)
    requires Inv(members, start, gr) && Enabled(members, gr, Check)
    ensures Inv(members, start, Do(gr, Check))
  {
    var c := gr.check.value;
    if |c.seen| < |c.ticket.guards| {
      JudgedMore(c, gr.epoch);
      InOrderMore(gr, Do(gr, Check), c);
    }
  }

  lemma InvStep(members: seq<nat>, start: Group, gr: Group, c: Step)
    requires Inv(members, start, gr) && Enabled(members, gr, c)
    ensures Inv(members, start, Do(gr, c))
  {
    match c {
      case Submit(a) => InvSubmit(members, start, gr, a);
      case Prepare(_, _, _) => InvPrepare(members, start, gr, c);
      case Call(who, ok) => InvCall(members, start, gr, who, ok);
      case Check => InvCheck(members, start, gr);
    }
  }

  ghost predicate Distinct(members: seq<nat>) {
    forall i, j :: 0 <= i < j < |members| ==> members[i] != members[j]
  }

  lemma {:induction false} DistinctSize(members: seq<nat>)
    requires Distinct(members)
    ensures |MemberSet(members)| == |members|
  {
    if members != [] {
      var init, last := members[..|members| - 1], members[|members| - 1];
      DistinctSize(init);
      assert MemberSet(members) == MemberSet(init) + {last};
    }
  }

  lemma InvStart(members: seq<nat>, guards: seq<Action>, selectors: seq<Selector>, epoch: EpochMap)
    requires members != [] && Distinct(members)
    ensures var start := Start(members, guards, selectors, epoch); Inv(members, start, start)
  {
    DistinctSize(members);
  }

  lemma {:induction false} InvRun(members: seq<nat>, start: Group, steps: seq<Step>)
    requires Inv(members, start, start) && Exec(members, start, steps).Some?
    ensures Inv(members, start, Exec(members, start, steps).value)
  {
    if steps != [] {
      var init := steps[..|steps| - 1];
      InvRun(members, start, init);
      InvStep(members, start, Exec(members, start, init).value, steps[|steps| - 1]);
    }
  }

  // ------------------------------------------------------------------ the outcome

  /** Some guard was overtaken by the time it was looked at. */
  ghost predicate SeenOlder(c: Checking) {
    exists k :: 0 <= k < |c.seen| && k < |c.ticket.guards| && Older(c.seen[k], c.ticket.guards[k])
  }

  /** What a group of participants must have led to. */
  ghost predicate RightOutcome(members: seq<nat>, start: Group, gr: Group) {
    var originals, guards := Recorded(map[], gr.prepared), start.batch.guards;
    && |gr.outcomes| <= 1
    && (gr.check.Some? <==> forall who :: who in members ==> who in gr.verdict)
    && (gr.outcomes != [] ==> gr.check.Some?)
    && (gr.outcomes != [] ==>
          && (gr.outcomes[0] == Superseded <==> SeenOlder(gr.check.value))
          && (gr.outcomes[0] != Superseded ==>
                gr.outcomes[0] == if AnyFailed(gr.verdict) then RestoreAll(originals)
                                  else CommitAll(originals, RegisteredAll(start.batch.selectors, gr.asked)))
          && (Overtaken(gr.check.value.closing, guards) ==> gr.outcomes[0] == Superseded)
          && (gr.outcomes[0] == Superseded ==> Overtaken(gr.epoch, guards)))
  }

  lemma SupersededExactly(gr: Group)
    requires CheckOk(gr) && gr.outcomes != []
    ensures gr.outcomes[0] == Superseded <==> SeenOlder(gr.check.value)
    ensures gr.outcomes[0] == Superseded ==> Overtaken(gr.epoch, gr.batch.guards)
    ensures Overtaken(gr.check.value.closing, gr.batch.guards) ==> gr.outcomes[0] == Superseded
  {
    var c := gr.check.value;
    if gr.outcomes[0] == Superseded {
      var k := |c.seen| - 1;
      OlderLater(c.seen[k], gr.epoch, c.ticket.guards[k]);
    } else if Overtaken(c.closing, gr.batch.guards) {
      var k :| 0 <= k < |gr.batch.guards| && Older(c.closing, gr.batch.guards[k]);
      OlderLater(c.closing, c.seen[k], gr.batch.guards[k]);
    }
  }

  lemma AllHeard(members: seq<nat>, start: Group, gr: Group)
    requires Inv(members, start, gr)
    ensures gr.check.Some? <==> forall who :: who in members ==> who in gr.verdict
  {
    SubsetSize(gr.verdict.Keys, MemberSet(members));
    if forall who :: who in members ==> who in gr.verdict {
      assert gr.verdict.Keys == MemberSet(members);
    } else {
      var who :| who in members && who !in gr.verdict;
      assert who in MemberSet(members);
    }
  }

  lemma InvMeansRight(members: seq<nat>, start: Group, gr: Group)
    requires Inv(members, start, gr)
    ensures RightOutcome(members, start, gr)
  {
    AllHeard(members, start, gr);
    if gr.outcomes != [] {
      SupersededExactly(gr);
    }
  }

  /**
   However preparations, finalizer calls and newer desired states interleave, a group takes
   effect at most once, after every participant has been heard. It is superseded exactly if a
   guard was older when looked at, so certainly if one was at the completing call and only if
   one still is; otherwise it restores the first snapshot of every runtime ever prepared if a
   participant failed, and commits all selectors if none did.
   */
  lemma {:induction false} GroupFinalizedOnce(members: seq<nat>, guards: seq<Action>, selectors: seq<Selector>, epoch: EpochMap, steps: seq<Step>, gr: Group)
    requires members != [] && Distinct(members)
    requires Exec(members, Start(members, guards, selectors, epoch), steps) == Some(gr)
    ensures RightOutcome(members, Start(members, guards, selectors, epoch), gr)
  {
    InvStart(members, guards, selectors, epoch);
    InvRun(members, Start(members, guards, selectors, epoch), steps);
    InvMeansRight(members, Start(members, guards, selectors, epoch), gr);
  }

  /** Once everybody has been heard each check shortens the way to the outcome. */
  lemma ChecksEnd(members: seq<nat>, start: Group, gr: Group)
    requires Inv(members, start, gr) && Enabled(members, gr, Check)
    ensures var gr' := Do(gr, Check);
            gr'.outcomes != [] || (gr'.check.Some? && |gr'.check.value.seen| == |gr.check.value.seen| + 1 <= |start.batch.guards|)
  {
  }

  /** Until its outcome a group can always be brought on: a participant is still to be heard, or a check is due. */
  lemma {:induction false} GroupProgresses(members: seq<nat>, guards: seq<Action>, selectors: seq<Selector>, epoch: EpochMap, steps: seq<Step>, gr: Group, ok: bool)
    requires members != [] && Distinct(members)
    requires Exec(members, Start(members, guards, selectors, epoch), steps) == Some(gr) && gr.outcomes == []
    ensures (exists who :: who in members && who !in gr.verdict && Enabled(members, gr, Call(who, ok))) || Enabled(members, gr, Check)
  {
    var start := Start(members, guards, selectors, epoch);
    InvStart(members, guards, selectors, epoch);
    InvRun(members, start, steps);
    if forall who :: who in members ==> who in gr.verdict {
      assert gr.verdict.Keys == MemberSet(members);
      assert Enabled(members, gr, Check);
    } else {
      var who :| who in members && who !in gr.verdict;
      assert Enabled(members, gr, Call(who, ok));
    }
  }

  // ------------------------------------------------------- a handoff on its own

  datatype Kind = Commit | Finish | Rollback

  datatype Effect = RanCommit | RanRollback

  /** commitFn and rollbackFn say which closures the handoff installed. */
  datatype State = State(once: bool, commitFn: bool, rollbackFn: bool, effects: seq<Effect>)

  /** Without a batch: an overtaken guard cancels, otherwise the call takes effect. */
  ghost function Finalized(s: State, guard: Action, kind: Kind, m: EpochMap): State {
    if s.once then s
    else if Older(m, guard) then s.(once := true)
    else
      s.(once := true,
         effects := s.effects + if kind.Commit? && s.commitFn then [RanCommit]
                                else if kind.Rollback? && s.rollbackFn then [RanRollback] else [])
  }

  class HandoffState {
    var value: State

    constructor ()
      ensures value == State(false, false, false, [])
    {
      value := State(false, false, false, []);
    }

    method SetFinalizers(commit: bool, rollback: bool)
      modifies this
      ensures value == old(value).(commitFn := commit, rollbackFn := rollback)
    {
      value := value.(commitFn := commit, rollbackFn := rollback);
    }

    method Finalize(guard: Action, kind: Kind, epochs: EpochTable)
      modifies this, epochs
      ensures epochs.latest == old(epochs.latest)
      ensures value == Finalized(old(value), guard, kind, epochs.latest)
    {
      var older := epochs.IsOlder(guard, false);
      if value.once {
        return;
      }
      value := value.(once := true);
      if older {
        return;
      }
      if kind.Commit? && value.commitFn {
        value := value.(effects := value.effects + [RanCommit]);
      } else if kind.Rollback? && value.rollbackFn {
        value := value.(effects := value.effects + [RanRollback]);
      }
    }
  }

  /** The calls on one handoff, each with the issue times at that moment. */
  ghost function FinalizeAll(s: State, guard: Action, calls: seq<(Kind, EpochMap)>): State
    decreases |calls|
  {
    if calls == [] then s else FinalizeAll(Finalized(s, guard, calls[0].0, calls[0].1), guard, calls[1..])
  }

  /** The first path to reach a handoff decides, whatever comes after, and nothing runs once the guard is overtaken. */
  lemma {:induction false} FirstCallDecides(s: State, guard: Action, calls: seq<(Kind, EpochMap)>)
    requires calls != [] && !s.once && s.effects == []
    ensures FinalizeAll(s, guard, calls) == Finalized(s, guard, calls[0].0, calls[0].1)
    ensures |FinalizeAll(s, guard, calls).effects| <= 1
    ensures Older(calls[0].1, guard) ==> FinalizeAll(s, guard, calls).effects == []
  {
    OnceStays(Finalized(s, guard, calls[0].0, calls[0].1), guard, calls[1..]);
  }

  lemma {:induction false} OnceStays(s: State, guard: Action, calls: seq<(Kind, EpochMap)>)
    requires s.once
    ensures FinalizeAll(s, guard, calls) == s
    decreases |calls|
  {
    if calls != [] {
      OnceStays(s, guard, calls[1..]);
    }
  }
}
