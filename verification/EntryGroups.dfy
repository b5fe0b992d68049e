/**
 Staging entry groups for a batch of actions (agent/main.go,
 attachDesiredSharedFXPEntryGroups and buildSharedFXPEntryGroup): one group for every
 transport and tunnel the batch touches, each put into normal form at the end, against
 the plain version that recomputes one group from the persisted entries.
 */
module EntryGroups {
  import opened ActionKeys
  import opened FxpSpecs
  import opened EntryIndex
  import opened Options

  datatype Key = Key(tunnelID: int, version: Version)

  /** What a batch action says about entry groups. */
  datatype GroupAction = GroupAction(op: OpText, fxp: Option<Spec>, ruleID: int, tunnelID: int)

  function KeyOf(m: Mutation): Key {
    Key(m.spec.tunnelID, NormalVersion(m.spec.version))
  }

  function Change(a: GroupAction): (m: Option<Mutation>)
    ensures m.Some? ==> Staged(m.value)
  {
    if a.fxp.None? then None else MutationOf(a.op, a.fxp.value)
  }

  /** The mutations of a batch that concern one group, in order. */
  function ChangesFor(actions: seq<GroupAction>, key: Key): (ms: seq<Mutation>)
    ensures forall i :: 0 <= i < |ms| ==> Staged(ms[i])
  {
    if actions == [] then []
    else
      var m := Change(actions[|actions| - 1]);
      ChangesFor(actions[..|actions| - 1], key) + if m.Some? && KeyOf(m.value) == key then [m.value] else []
  }

  function SupersedingRemoval(a: GroupAction): Option<Spec> {
    if !a.op.op.Apply? || a.fxp.Some? || a.ruleID <= 0 then None
    else Some(Spec(EntryRole, None, a.tunnelID, a.ruleID, 0, 0, None, "", 0))
  }

  function SupersededRules(actions: seq<GroupAction>): seq<Spec> {
    if actions == [] then []
    else
      var r := SupersedingRemoval(actions[|actions| - 1]);
      SupersededRules(actions[..|actions| - 1]) + if r.Some? then [r.value] else []
  }

  function Keys(actions: seq<GroupAction>): set<Key> {
    if actions == [] then {}
    else
      var m := Change(actions[|actions| - 1]);
      Keys(actions[..|actions| - 1]) + if m.Some? then {KeyOf(m.value)} else {}
  }

  /** The group's entries before they are put into normal form. */
  function StagedList(persisted: seq<Spec>, actions: seq<GroupAction>, key: Key): seq<Spec> {
    MutateAll(Supersede(Filter(persisted, InGroup(key.tunnelID, key.version)), SupersededRules(actions)),
              ChangesFor(actions, key), key.tunnelID, key.version)
  }

  /** r is the normal form of a list of entries as a group. */
  ghost predicate IsGroup(r: seq<Spec>, list: seq<Spec>, key: Key) {
    Lists(r, LastWriter(Members(Compatible(list, key), key.tunnelID, key.version)))
  }

  /** The entries of the group's own tunnel and transport, normalized. */
  function Compatible(list: seq<Spec>, key: Key): seq<Spec> {
    if list == [] then []
    else
      var e := Normal(list[|list| - 1]);
      Compatible(list[..|list| - 1], key) + if Belongs(e, key.tunnelID, key.version) then [e] else []
  }

  method BuildGroup(list: seq<Spec>, key: Key) returns (entries: seq<Spec>)
    ensures IsGroup(entries, list, key)
  {
    var compatible: seq<Spec> := [];
    for i := 0 to |list|
      invariant compatible == Compatible(list[..i], key)
    {
      assert list[..i + 1][..i] == list[..i];
      var e := Normal(list[i]);
      if e.tunnelID == key.tunnelID && e.version == Some(key.version) && IsSharedEntry(e) {
        compatible := compatible + [e];
      }
    }
    assert list[..|list|] == list;
    entries := NormalizeGroup(compatible, key.tunnelID, key.version);
  }

  /** The groups of a batch do not touch one another; they are staged one key after another. */
  method StageBatch(persisted: seq<Spec>, actions: seq<GroupAction>) returns (staged: map<Key, seq<Spec>>)
    requires forall i :: 0 <= i < |persisted| ==> Normal(persisted[i]) == persisted[i]
    ensures staged.Keys == Keys(actions)
    ensures forall key :: key in staged ==> IsGroup(staged[key], StagedList(persisted, actions, key), key)
  {
    staged := map[];
    var removals := SupersededRules(actions);
    var rest := Keys(actions);
    while rest != {}
      invariant staged.Keys + rest == Keys(actions) && staged.Keys !! rest
      invariant forall key :: key in staged ==> IsGroup(staged[key], StagedList(persisted, actions, key), key)
      decreases rest
    {
      var key :| key in rest;
      var list := StageGroup(key.tunnelID, key.version, persisted, removals, ChangesFor(actions, key));
      var entries := BuildGroup(list, key);
      staged := staged[key := entries];
      rest := rest - {key};
    }
  }

  /** Equal lists have one normal form. */
  lemma SameGroup(n1: seq<Spec>, n2: seq<Spec>, list: seq<Spec>, key: Key)
    requires IsGroup(n1, list, key) && IsGroup(n2, list, key)
    ensures n1 == n2
  {
    ListingUnique(n1, n2, LastWriter(Members(Compatible(list, key), key.tunnelID, key.version)));
  }

  // --------------------------------------------------- agreement of a single apply

  lemma {:induction false} LastWriterSnoc(ms: seq<Spec>, e: Spec)
    ensures LastWriter(ms + [e]) == LastWriter(ms)[IdentityOf(e) := e]
  {
    assert (ms + [e])[..|ms|] == ms;
  }

  lemma {:induction false} FilteredPass(ms: seq<Spec>, keep: Spec -> bool, k: Identity)
    ensures k in LastWriter(Filter(ms, keep)) ==> keep(LastWriter(Filter(ms, keep))[k])
  {
    LastWriterKeys(Filter(ms, keep));
    if k in LastWriter(Filter(ms, keep)) {
      FilterMember(ms, keep, LastWriter(Filter(ms, keep))[k]);
    }
  }

  function WriterOf(ms: seq<Spec>, k: Identity): Option<Spec> {
    var last := LastWriter(ms);
    if k in last then Some(last[k]) else None
  }

  lemma WriterSnoc(ms: seq<Spec>, e: Spec, k: Identity)
    ensures WriterOf(ms + [e], k) == if k == IdentityOf(e) then Some(e) else WriterOf(ms, k)
  {
    LastWriterSnoc(ms, e);
  }

  /** The last writer of an identity survives a filter exactly if it passes it. */
  lemma {:induction false} FilterLast(ms: seq<Spec>, keep: Spec -> bool, k: Identity)
    ensures WriterOf(Filter(ms, keep), k) == WriterOf(ms, k) <==> WriterOf(ms, k).None? || keep(WriterOf(ms, k).value)
  {
    FilteredPass(ms, keep, k);
    if ms != [] {
      var init, last := ms[..|ms| - 1], ms[|ms| - 1];
      assert ms == init + [last];
      WriterSnoc(init, last, k);
      if keep(last) {
        WriterSnoc(Filter(init, keep), last, k);
      } else {
        assert Filter(ms, keep) == Filter(init, keep);
      }
      FilterLast(init, keep, k);
    }
  }

  function UsableEntry(): Spec -> bool { (e: Spec) => Usable(e) }

  /** On the group's own entries, compatible members are the usable entries. */
  lemma {:induction false} MembersOfGroup(list: seq<Spec>, key: Key)
    requires forall e :: e in list ==> Belongs(e, key.tunnelID, key.version)
    ensures Compatible(list, key) == list
    ensures Members(list, key.tunnelID, key.version) == Filter(list, UsableEntry())
  {
    if list != [] {
      var init, last := list[..|list| - 1], list[|list| - 1];
      assert list == init + [last] && last in list;
      MembersOfGroup(init, key);
      assert Adopt(last, key.tunnelID, key.version) == last;
    }
  }

  /** Filtering keeps the last-writer map exactly if every last writer passes. */
  lemma {:induction false} FilterKeepsWriters(ms: seq<Spec>, keep: Spec -> bool)
    ensures LastWriter(Filter(ms, keep)) == LastWriter(ms) <==> forall k :: k in LastWriter(ms) ==> keep(LastWriter(ms)[k])
  {
    var a, b := LastWriter(Filter(ms, keep)), LastWriter(ms);
    forall k ensures WriterOf(Filter(ms, keep), k) == WriterOf(ms, k) <==> (k in b ==> keep(b[k])) {
      FilterLast(ms, keep, k);
    }
    if forall k :: k in b ==> keep(b[k]) {
      forall k ensures (k in a <==> k in b) && (k in b ==> a[k] == b[k]) {
        assert WriterOf(Filter(ms, keep), k) == WriterOf(ms, k);
      }
      assert a == b;
    }
    assert a == b ==> forall k :: WriterOf(Filter(ms, keep), k) == WriterOf(ms, k);
  }

  lemma {:induction false} FilterConcat(s: seq<Spec>, more: seq<Spec>, keep: Spec -> bool)
    ensures Filter(s + more, keep) == Filter(s, keep) + Filter(more, keep)
  {
    if more == [] {
      assert s + more == s;
    } else {
      assert (s + more)[..|s + more| - 1] == s + more[..|more| - 1];
      FilterConcat(s, more[..|more| - 1], keep);
    }
  }

  /** What an apply leaves of a group, in place of the entries it removes. */
  function Survivors(list: seq<Spec>, c: Spec): seq<Spec> {
    Filter(Filter(list, NoMatch(c)), UsableEntry())
  }

  function Beside(c: Spec): Spec -> bool { BothHold(OtherRule(c.ruleID), NoConflict(c)) }

  function Appended(c: Spec, key: Key): seq<Spec> {
    if Belongs(c, key.tunnelID, key.version) && Usable(c) then [c] else []
  }

  /** The members of the group after an apply that replaces conflicts, or does not. */
  lemma {:induction false} MembersAfterApply(list: seq<Spec>, c: Spec, replace: bool, key: Key)
    requires (forall e :: e in list ==> Belongs(e, key.tunnelID, key.version)) && Normal(c) == c
    ensures var after := Mutate(list, Mutation(c, true, replace), key.tunnelID, key.version);
            Members(Compatible(after, key), key.tunnelID, key.version)
            == (if replace then Filter(Survivors(list, c), Beside(c)) else Survivors(list, c)) + Appended(c, key)
  {
    var kept := Filter(list, NoMatch(c));
    var filtered := Filter(kept, Beside(c));
    FilterFilter(kept, OtherRule(c.ruleID), NoConflict(c), Beside(c));
    var tail := if Belongs(c, key.tunnelID, key.version) then [c] else [];
    var before := if replace then filtered else kept;
    var after := before + tail;
    assert Mutate(list, Mutation(c, true, replace), key.tunnelID, key.version) == after;
    forall e | e in after ensures Belongs(e, key.tunnelID, key.version) {
      FilterMember(list, NoMatch(c), e);
      FilterMember(kept, Beside(c), e);
    }
    MembersOfGroup(after, key);
    FilterConcat(before, tail, UsableEntry());
    FilterFilter(kept, Beside(c), UsableEntry(), BothHold(UsableEntry(), Beside(c)));
    FilterFilter(kept, UsableEntry(), Beside(c), BothHold(UsableEntry(), Beside(c)));
    assert [c][..0] == [];
  }

  /** No survivor has the identity of the applied entry itself. */
  lemma AppliedIsNew(list: seq<Spec>, c: Spec, key: Key)
    requires (forall e :: e in list ==> Belongs(e, key.tunnelID, key.version)) && Belongs(c, key.tunnelID, key.version)
    ensures IdentityOf(c) !in LastWriter(Survivors(list, c))
  {
    var kept := Filter(list, NoMatch(c));
    LastWriterKeys(Survivors(list, c));
    if IdentityOf(c) in LastWriter(Survivors(list, c)) {
      var e := LastWriter(Survivors(list, c))[IdentityOf(c)];
      FilterMember(kept, UsableEntry(), e);
      FilterMember(list, NoMatch(c), e);
      assert false;
    }
  }

  lemma SameUpdate(a: map<Identity, Spec>, b: map<Identity, Spec>, k: Identity, e: Spec)
    requires k !in a && k !in b
    ensures a[k := e] == b[k := e] <==> a == b
  {
    if a[k := e] == b[k := e] {
      assert a == a[k := e] - {k} && b == b[k := e] - {k};
    }
  }

  lemma {:induction false} WritersAfterApply(survivors: seq<Spec>, c: Spec, tail: seq<Spec>)
    requires tail == [] || (tail == [c] && IdentityOf(c) !in LastWriter(survivors))
    ensures LastWriter(survivors + tail) == LastWriter(Filter(survivors, Beside(c)) + tail) <==>
            forall k :: k in LastWriter(survivors) ==> Beside(c)(LastWriter(survivors)[k])
  {
    var filtered := Filter(survivors, Beside(c));
    FilterKeepsWriters(survivors, Beside(c));
    if tail == [] {
      assert survivors + tail == survivors && filtered + tail == filtered;
    } else {
      LastWriterSnoc(survivors, c);
      LastWriterSnoc(filtered, c);
      FilterLast(survivors, Beside(c), IdentityOf(c));
      SameUpdate(LastWriter(survivors), LastWriter(filtered), IdentityOf(c), c);
    }
  }

  lemma {:induction false} GroupsEqualIff(l1: seq<Spec>, l2: seq<Spec>, key: Key, n1: seq<Spec>, n2: seq<Spec>)
    requires IsGroup(n1, l1, key) && IsGroup(n2, l2, key)
    ensures n1 == n2 <==> LastWriter(Members(Compatible(l1, key), key.tunnelID, key.version))
                          == LastWriter(Members(Compatible(l2, key), key.tunnelID, key.version))
  {
    NormalFormIsCanonical(Compatible(l1, key), Compatible(l2, key), key.tunnelID, key.version, n1, n2);
  }

  lemma AppliesAgreeIff(list: seq<Spec>, c: Spec, key: Key, n1: seq<Spec>, n2: seq<Spec>)
    requires (forall e :: e in list ==> Belongs(e, key.tunnelID, key.version)) && Normal(c) == c
    requires IsGroup(n1, Mutate(list, Mutation(c, true, false), key.tunnelID, key.version), key)
    requires IsGroup(n2, Mutate(list, Mutation(c, true, true), key.tunnelID, key.version), key)
    ensures n1 == n2 <==>
            forall k :: k in LastWriter(Survivors(list, c)) ==> Beside(c)(LastWriter(Survivors(list, c))[k])
  {
    var l1 := Mutate(list, Mutation(c, true, false), key.tunnelID, key.version);
    var l2 := Mutate(list, Mutation(c, true, true), key.tunnelID, key.version);
    var survivors, tail := Survivors(list, c), Appended(c, key);
    MembersAfterApply(list, c, false, key);
    MembersAfterApply(list, c, true, key);
    if tail != [] {
      AppliedIsNew(list, c, key);
    }
    WritersAfterApply(survivors, c, tail);
    GroupsEqualIff(l1, l2, key, n1, n2);
  }

  /**
   An apply written with blanks around it stages the same group as an exact one if and only if
   none of the usable entries that survive the removal test, the last of each identity, has the
   applied entry's rule or one of its sockets.
   */
  lemma {:induction false} PaddedGroupAgreesIff(list: seq<Spec>, raw: Spec, padded: Mutation, exact: Mutation, key: Key, n1: seq<Spec>, n2: seq<Spec>)
    requires forall e :: e in list ==> Belongs(e, key.tunnelID, key.version)
    requires MutationOf(OpText(Apply, false), raw) == Some(padded) && MutationOf(OpText(Apply, true), raw) == Some(exact)
    requires IsGroup(n1, Mutate(list, padded, key.tunnelID, key.version), key)
    requires IsGroup(n2, Mutate(list, exact, key.tunnelID, key.version), key)
    ensures n1 == n2 <==>
            var last := LastWriter(Survivors(list, exact.spec));
            forall k :: k in last ==> last[k].ruleID != exact.spec.ruleID && !ListenConflict(last[k], exact.spec)
  {
    AppliesAgreeIff(list, exact.spec, key, n1, n2);
    forall e: Spec ensures Beside(exact.spec)(e) <==> e.ruleID != exact.spec.ruleID && !ListenConflict(e, exact.spec) {
    }
  }

  // ------------------------------------------- the plain version, group by group

  lemma OneAction(a: GroupAction, m: Mutation)
    requires Change(a) == Some(m)
    ensures ChangesFor([a], KeyOf(m)) == [m] && SupersededRules([a]) == []
  {
    assert [a][..0] == [];
  }

  lemma {:induction false} MutateOnce(list: seq<Spec>, m: Mutation, tunnelID: int, version: Version)
    ensures MutateAll(list, [m], tunnelID, version) == Mutate(list, m, tunnelID, version)
  {
    assert [m][..0] == [];
  }

  lemma {:induction false} OneMutation(persisted: seq<Spec>, a: GroupAction, m: Mutation)
    requires Change(a) == Some(m)
    ensures var key := KeyOf(m);
            StagedList(persisted, [a], key) == Mutate(Filter(persisted, InGroup(key.tunnelID, key.version)), m, key.tunnelID, key.version)
  {
    var key := KeyOf(m);
    OneAction(a, m);
    MutateOnce(Supersede(Filter(persisted, InGroup(key.tunnelID, key.version)), []), m, key.tunnelID, key.version);
  }

  /** A batch with one apply stages exactly the group that the plain version computes. */
  lemma {:induction false} SingleApplyStagesPlainGroup(persisted: seq<Spec>, raw: Spec, ruleID: int, tunnelID: int, n1: seq<Spec>, n2: seq<Spec>)
    requires (forall i :: 0 <= i < |persisted| ==> Normal(persisted[i]) == persisted[i]) && IsSharedEntry(Normal(raw))
    requires var c := Normal(raw); var key := Key(c.tunnelID, c.version.value);
             && IsGroup(n1, StagedList(persisted, [GroupAction(OpText(Apply, true), Some(raw), ruleID, tunnelID)], key), key)
             && IsGroup(n2, DesiredGroup(persisted, c), key)
    ensures n1 == n2
  {
    var c, a := Normal(raw), GroupAction(OpText(Apply, true), Some(raw), ruleID, tunnelID);
    var m := Change(a).value;
    var key := Key(c.tunnelID, c.version.value);
    assert KeyOf(m) == key;
    OneMutation(persisted, a, m);
    SingleApplyAgrees(persisted, raw, m);
    SameGroup(n1, n2, DesiredGroup(persisted, c), key);
  }

  /**
   A batch with one removal stages the group of the plain version, transport and entries, if and
   only if the removal names a transport, or matches nothing, or first matches an entry of the
   first version.
   */
  lemma {:induction false} SingleRemovalStagesPlainGroupIff(persisted: seq<Spec>, exact: bool, removal: Spec, ruleID: int, tunnelID: int, m: Mutation, n1: seq<Spec>, n2: seq<Spec>)
    requires (forall i :: 0 <= i < |persisted| ==> Normal(persisted[i]) == persisted[i])
    requires MutationOf(OpText(Remove, exact), removal) == Some(m)
    requires IsGroup(n1, StagedList(persisted, [GroupAction(OpText(Remove, exact), Some(removal), ruleID, tunnelID)], KeyOf(m)), KeyOf(m))
    requires var plain := GroupAfterRemoval(persisted, removal); IsGroup(n2, plain.entries, Key(removal.tunnelID, plain.version))
    ensures Group(KeyOf(m).version, n1) == Group(GroupAfterRemoval(persisted, removal).version, n2) <==>
            || removal.version.Some? || FirstMatch(persisted, removal).None?
            || NormalVersion(FirstMatch(persisted, removal).value.version) == V1
  {
    OneMutation(persisted, GroupAction(OpText(Remove, exact), Some(removal), ruleID, tunnelID), m);
    RemovalAgreesIff(persisted, exact, removal, m);
    if KeyOf(m).version == GroupAfterRemoval(persisted, removal).version {
      SameGroup(n1, n2, GroupAfterRemoval(persisted, removal).entries, KeyOf(m));
    }
  }

  /** Removing rule 1 of a second-version group without naming a transport stages the first version. */
  lemma RemovalWithoutTransportDisagrees()
    ensures var persisted := [Spec(EntryRole, Some(V2), 7, 1, 80, 80, Some(Tcp), "k", 0)];
            var removal := Spec(EntryRole, None, 7, 1, 0, 0, None, "", 0);
            && MutationOf(OpText(Remove, true), removal) == Some(Mutation(removal, false, false))
            && KeyOf(Mutation(removal, false, false)).version == V1
            && GroupAfterRemoval(persisted, removal).version == V2
  {
    var persisted := [Spec(EntryRole, Some(V2), 7, 1, 80, 80, Some(Tcp), "k", 0)];
    assert RemovalMatches(Spec(EntryRole, None, 7, 1, 0, 0, None, "", 0), persisted[0]);
  }

  // ------------------------------------------------------------ disjoint listeners

  lemma ConflictIsSymmetric(a: Spec, b: Spec)
    ensures ListenConflict(a, b) <==> ListenConflict(b, a)
  {
    if ListenConflict(a, b) {
      var i, j :| i in ListenEndpoints(a) && j in ListenEndpoints(b) && ListenEndpoints(a)[i] > 0 && ListenEndpoints(a)[i] == ListenEndpoints(b)[j] && i == j;
      assert ListenEndpoints(b)[j] == ListenEndpoints(a)[i];
    }
    if ListenConflict(b, a) {
      var i, j :| i in ListenEndpoints(b) && j in ListenEndpoints(a) && ListenEndpoints(b)[i] > 0 && ListenEndpoints(b)[i] == ListenEndpoints(a)[j] && i == j;
      assert ListenEndpoints(a)[j] == ListenEndpoints(b)[i];
    }
  }

  /** The normal form only drops and reorders entries, so it keeps their sockets apart. */
  lemma GroupDisjoint(n: seq<Spec>, list: seq<Spec>, key: Key)
    requires IsGroup(n, list, key) && Disjoint(list) && forall e :: e in list ==> Belongs(e, key.tunnelID, key.version)
    ensures Disjoint(n)
  {
    MembersOfGroup(list, key);
    var members := Filter(list, UsableEntry());
    LastWriterKeys(members);
    forall i, j | 0 <= i < j < |n| ensures !ListenConflict(n[i], n[j]) {
      assert Less(IdentityOf(n[i]), IdentityOf(n[j]));
      assert LastWriter(members)[IdentityOf(n[i])] == n[i] && LastWriter(members)[IdentityOf(n[j])] == n[j];
      FilterMember(list, UsableEntry(), n[i]);
      FilterMember(list, UsableEntry(), n[j]);
      var p :| 0 <= p < |list| && list[p] == n[i];
      var q :| 0 <= q < |list| && list[q] == n[j];
      ConflictIsSymmetric(n[i], n[j]);
    }
  }

  lemma {:induction false} MutateAllBelongs(list: seq<Spec>, ms: seq<Mutation>, key: Key)
    requires forall e :: e in list ==> Belongs(e, key.tunnelID, key.version)
    ensures forall e :: e in MutateAll(list, ms, key.tunnelID, key.version) ==> Belongs(e, key.tunnelID, key.version)
  {
    if ms != [] {
      var before, m := MutateAll(list, ms[..|ms| - 1], key.tunnelID, key.version), ms[|ms| - 1];
      MutateAllBelongs(list, ms[..|ms| - 1], key);
      forall e | e in Kept(before, m) ensures Belongs(e, key.tunnelID, key.version) {
        KeptMember(before, m, e);
      }
    }
  }

  lemma KeptMember(list: seq<Spec>, m: Mutation, e: Spec)
    ensures e in Kept(list, m) ==> e in list
  {
    var unmatched := Filter(list, NoMatch(m.spec));
    FilterMember(list, NoMatch(m.spec), e);
    FilterMember(unmatched, OtherRule(m.spec.ruleID), e);
    FilterMember(Filter(unmatched, OtherRule(m.spec.ruleID)), NoConflict(m.spec), e);
  }

  lemma {:induction false} SupersedeKeeps(list: seq<Spec>, removals: seq<Spec>)
    requires Disjoint(list)
    ensures Disjoint(Supersede(list, removals)) && forall e :: e in Supersede(list, removals) ==> e in list
  {
    if removals != [] {
      var before, r := Supersede(list, removals[..|removals| - 1]), removals[|removals| - 1];
      SupersedeKeeps(list, removals[..|removals| - 1]);
      FilterDisjoint(before, NoMatch(r));
      forall e | e in Filter(before, NoMatch(r)) ensures e in list {
        FilterMember(before, NoMatch(r), e);
      }
    }
  }

  /** Every apply of the batch is written exactly. */
  predicate ExactApplies(actions: seq<GroupAction>) {
    forall i :: 0 <= i < |actions| && actions[i].fxp.Some? && actions[i].op.op.Apply? ==> actions[i].op.exact
  }

  lemma {:induction false} ChangesAreSourced(actions: seq<GroupAction>, key: Key)
    ensures FromActions(ChangesFor(actions, key))
    ensures ExactApplies(actions) ==> forall i :: 0 <= i < |ChangesFor(actions, key)| && ChangesFor(actions, key)[i].append ==>
                                        ChangesFor(actions, key)[i].replaceConflicts
  {
    if actions != [] {
      var init, last := actions[..|actions| - 1], actions[|actions| - 1];
      ChangesAreSourced(init, key);
      if Change(last).Some? {
        assert MutationOf(last.op, last.fxp.value) == Some(Change(last).value);
      }
    }
  }

  /**
   Whatever a batch of exactly written actions does, every group it stages has pairwise disjoint
   listeners, if the persisted entries of that group had.
   */
  lemma {:induction false} StagedGroupsAreDisjoint(persisted: seq<Spec>, actions: seq<GroupAction>, key: Key, n: seq<Spec>)
    requires Disjoint(Filter(persisted, InGroup(key.tunnelID, key.version))) && ExactApplies(actions)
    requires IsGroup(n, StagedList(persisted, actions, key), key)
    ensures Disjoint(n)
  {
    var own := Filter(persisted, InGroup(key.tunnelID, key.version));
    var start, ms := Supersede(own, SupersededRules(actions)), ChangesFor(actions, key);
    SupersedeKeeps(own, SupersededRules(actions));
    ChangesAreSourced(actions, key);
    BatchKeepsDisjoint(start, ms, key.tunnelID, key.version);
    forall e | e in start ensures Belongs(e, key.tunnelID, key.version) {
      FilterMember(persisted, InGroup(key.tunnelID, key.version), e);
    }
    MutateAllBelongs(start, ms, key);
    GroupDisjoint(n, StagedList(persisted, actions, key), key);
  }
}
