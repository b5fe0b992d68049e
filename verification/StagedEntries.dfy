/**
 What a batch leaves in its entry groups, entry by entry (agent/main.go,
 attachDesiredSharedFXPEntryGroups): in terms of what the actions say and what the
 entries are, for every batch and every list of persisted entries.
 */
module StagedEntries {
  import opened ActionKeys
  import opened EntryGroups
  import opened EntryIndex
  import opened FxpSpecs
  import opened Options

  // -------------------------------------------------- what an action says of an entry

  /** The group an entry or a removal names; without a transport it is the first version's. */
  predicate Names(x: Spec, key: Key) {
    x.tunnelID == key.tunnelID > 0 && (x.version == Some(V2) <==> key.version == V2)
  }

  /** A normalized entry of the group. */
  predicate EntryOf(e: Spec, key: Key) {
    && e.role == EntryRole && e.tunnelID == key.tunnelID > 0 && e.ruleID > 0 && e.listenPort > 0
    && e.version == Some(key.version) && e.protocol.Some? && e.udpListenPort > 0
  }

  /** An entry that an action carries for the group. */
  predicate Carried(x: Spec, key: Key) {
    x.role == EntryRole && x.ruleID > 0 && x.listenPort > 0 && Names(x, key)
  }

  predicate SameKind(e: Spec, p: Option<Protocol>) {
    var q := if p == None then Tcp else p.value;
    e.protocol == Some(Both) || q == Both || e.protocol == Some(q)
  }

  /** Both listen on one TCP port, or on one UDP port; the UDP port is the listen port unless set. */
  predicate OneSocket(e: Spec, x: Spec) {
    || (e.protocol != Some(Udp) && x.protocol != Some(Udp) && e.listenPort == x.listenPort)
    || (e.protocol in {Some(Udp), Some(Both)} && x.protocol in {Some(Udp), Some(Both)} &&
        e.udpListenPort == if x.udpListenPort > 0 then x.udpListenPort else x.listenPort)
  }

  /** An apply without FXP takes over the rule's entries, in its tunnel or, without one, in all. */
  predicate TakesOver(a: GroupAction, e: Spec) {
    a.op.op == Apply && a.fxp == None && e.ruleID == a.ruleID > 0 && (a.tunnelID <= 0 || e.tunnelID == a.tunnelID)
  }

  /** A removal names what it removes by whatever it sets. */
  predicate Removes(a: GroupAction, key: Key, e: Spec) {
    a.op.op == Remove && a.fxp.Some? &&
    var x := a.fxp.value;
    && Names(x, key) && x.role != OtherRole
    && (x.ruleID <= 0 || x.ruleID == e.ruleID) && (x.listenPort <= 0 || x.listenPort == e.listenPort)
    && (x.protocol == None || SameKind(e, x.protocol))
  }

  /**
   An action with an entry takes that entry's former self out, and an exactly written apply
   also whatever has its rule or one of its sockets.
   */
  predicate Replaces(a: GroupAction, key: Key, e: Spec) {
    a.op.op != Remove && a.fxp.Some? &&
    var x := a.fxp.value;
    && Carried(x, key)
    && (|| (x.ruleID == e.ruleID && x.listenPort == e.listenPort && SameKind(e, x.protocol))
        || (a.op == OpText(Apply, true) && (x.ruleID == e.ruleID || OneSocket(e, x))))
  }

  predicate Takes(a: GroupAction, key: Key, e: Spec) {
    Removes(a, key, e) || Replaces(a, key, e)
  }

  /** The action applies exactly this entry, its empty fields filled in. */
  predicate Brings(a: GroupAction, key: Key, e: Spec) {
    a.op.op == Apply && a.fxp.Some? &&
    var x := a.fxp.value;
    && Carried(x, key)
    && e == x.(version := Some(key.version), protocol := Some(if x.protocol == None then Tcp else x.protocol.value),
               udpListenPort := if x.udpListenPort > 0 then x.udpListenPort else x.listenPort)
  }

  /** The entry was persisted, and no action of the batch takes it over or out. */
  ghost predicate Untouched(persisted: seq<Spec>, actions: seq<GroupAction>, key: Key, e: Spec) {
    && e in persisted && EntryOf(e, key)
    && forall i :: 0 <= i < |actions| ==> !TakesOver(actions[i], e) && !Takes(actions[i], key, e)
  }

  /** An action brought the entry, and no later one takes it out. */
  ghost predicate Brought(actions: seq<GroupAction>, key: Key, e: Spec, j: int) {
    0 <= j < |actions| && Brings(actions[j], key, e) && forall i :: j < i < |actions| ==> !Takes(actions[i], key, e)
  }

  ghost predicate Remains(persisted: seq<Spec>, actions: seq<GroupAction>, key: Key, e: Spec) {
    Untouched(persisted, actions, key, e) || exists j :: Brought(actions, key, e, j)
  }

  // ----------------------------------------------------------- one action, one entry

  lemma BelongsMeaning(e: Spec, key: Key)
    ensures Belongs(e, key.tunnelID, key.version) <==> EntryOf(e, key)
  {
    if EntryOf(e, key) {
      assert key.version.V1? || key.version.V2?;
      assert e.protocol == Some(NormalProtocol(e.protocol)) && e.version == Some(NormalVersion(e.version));
      assert Normal(e) == e;
      assert Belongs(e, key.tunnelID, key.version);
    }
    if Belongs(e, key.tunnelID, key.version) {
      assert Normal(e).udpListenPort == e.udpListenPort && Normal(e).protocol == e.protocol;
      assert IsSharedEntry(e);
    }
  }

  lemma SocketMeaning(e: Spec, x: Spec, key: Key)
    requires EntryOf(e, key) && Carried(x, key)
    ensures ListenConflict(e, Normal(x)) <==> OneSocket(e, x)
  {
    var n := Normal(x);
    ConflictIsSharedSocket(e, n);
    if OneSocket(e, x) {
      var s := if e.protocol != Some(Udp) && x.protocol != Some(Udp) && e.listenPort == x.listenPort then Endpoint(false, e.listenPort)
               else Endpoint(true, e.udpListenPort);
      assert s in Endpoints(e) && s in Endpoints(n);
    }
  }

  lemma ChangeMeaning(a: GroupAction, key: Key)
    ensures Change(a).Some? && KeyOf(Change(a).value) == key <==>
              a.fxp.Some? && if a.op.op == Remove then Names(a.fxp.value, key) && a.fxp.value.role != OtherRole else Carried(a.fxp.value, key)
  {
  }

  lemma KeptExactly(list: seq<Spec>, m: Mutation, e: Spec)
    ensures e in Kept(list, m) <==>
            e in list && !RemovalMatches(m.spec, e) && (m.replaceConflicts ==> e.ruleID != m.spec.ruleID && !ListenConflict(e, m.spec))
  {
    var unmatched := Filter(list, NoMatch(m.spec));
    FilterMember(list, NoMatch(m.spec), e);
    FilterMember(unmatched, OtherRule(m.spec.ruleID), e);
    FilterMember(Filter(unmatched, OtherRule(m.spec.ruleID)), NoConflict(m.spec), e);
  }

  /** What one mutation takes out. */
  lemma TakesMeaning(a: GroupAction, key: Key, e: Spec)
    requires EntryOf(e, key) && Change(a).Some? && KeyOf(Change(a).value) == key
    ensures var m := Change(a).value;
            Takes(a, key, e) <==>
              RemovalMatches(m.spec, e) || (m.replaceConflicts && (e.ruleID == m.spec.ruleID || ListenConflict(e, m.spec)))
  {
    ChangeMeaning(a, key);
    if a.op.op != Remove {
      SocketMeaning(e, a.fxp.value, key);
    }
  }

  lemma BringsMeaning(a: GroupAction, key: Key, e: Spec)
    requires Change(a).Some? && KeyOf(Change(a).value) == key
    ensures var m := Change(a).value;
            Brings(a, key, e) <==> m.append && Belongs(Normal(m.spec), key.tunnelID, key.version) && e == Normal(m.spec)
  {
    ChangeMeaning(a, key);
  }

  lemma OtherGroup(a: GroupAction, key: Key, e: Spec)
    requires !(Change(a).Some? && KeyOf(Change(a).value) == key)
    ensures !Takes(a, key, e) && !Brings(a, key, e)
  {
    ChangeMeaning(a, key);
  }

  // -------------------------------------------------------------------- the batch

  ghost predicate AllOf(list: seq<Spec>, key: Key) {
    forall e :: e in list ==> EntryOf(e, key)
  }

  /** One more action, seen from one entry. */
  lemma OneMore(list: seq<Spec>, a: GroupAction, m: Mutation, key: Key, e: Spec)
    requires AllOf(list, key) && Change(a) == Some(m) && KeyOf(m) == key
    ensures e in Mutate(list, m, key.tunnelID, key.version) <==> (e in list && !Takes(a, key, e)) || Brings(a, key, e)
  {
    KeptExactly(list, m, e);
    BringsMeaning(a, key, e);
    if e in list {
      TakesMeaning(a, key, e);
    }
  }

  lemma {:induction false} ChangesSnoc(actions: seq<GroupAction>, a: GroupAction, key: Key)
    ensures ChangesFor(actions + [a], key) ==
            ChangesFor(actions, key) + if Change(a).Some? && KeyOf(Change(a).value) == key then [Change(a).value] else []
  {
    assert (actions + [a])[..|actions|] == actions;
  }

  lemma {:induction false} MutateSnoc(list: seq<Spec>, ms: seq<Mutation>, m: Mutation, key: Key)
    ensures MutateAll(list, ms + [m], key.tunnelID, key.version) ==
            Mutate(MutateAll(list, ms, key.tunnelID, key.version), m, key.tunnelID, key.version)
  {
    assert (ms + [m])[..|ms|] == ms;
  }

  /** What a batch leaves of a list, before any of its actions take entries over. */
  function Left(list: seq<Spec>, actions: seq<GroupAction>, key: Key): seq<Spec> {
    MutateAll(list, ChangesFor(actions, key), key.tunnelID, key.version)
  }

  lemma LeftSnoc(list: seq<Spec>, actions: seq<GroupAction>, a: GroupAction, key: Key)
    ensures Left(list, actions + [a], key) ==
            if Change(a).Some? && KeyOf(Change(a).value) == key
            then Mutate(Left(list, actions, key), Change(a).value, key.tunnelID, key.version) else Left(list, actions, key)
  {
    ChangesSnoc(actions, a, key);
    if Change(a).Some? && KeyOf(Change(a).value) == key {
      MutateSnoc(list, ChangesFor(actions, key), Change(a).value, key);
    } else {
      assert ChangesFor(actions, key) + [] == ChangesFor(actions, key);
    }
  }

  lemma {:induction false} LeftBelongs(list: seq<Spec>, actions: seq<GroupAction>, key: Key)
    requires AllOf(list, key)
    ensures AllOf(Left(list, actions, key), key)
  {
    forall e | e in list ensures Belongs(e, key.tunnelID, key.version) {
      BelongsMeaning(e, key);
    }
    MutateAllBelongs(list, ChangesFor(actions, key), key);
    forall e | e in Left(list, actions, key) ensures EntryOf(e, key) {
      BelongsMeaning(e, key);
    }
  }

  ghost predicate Spared(actions: seq<GroupAction>, key: Key, e: Spec) {
    forall i :: 0 <= i < |actions| ==> !Takes(actions[i], key, e)
  }

  lemma {:induction false} LeftMeaning(list: seq<Spec>, actions: seq<GroupAction>, key: Key, e: Spec)
    requires AllOf(list, key)
    ensures e in Left(list, actions, key) <==> (e in list && Spared(actions, key, e)) || exists j :: Brought(actions, key, e, j)
  {
    if actions == [] {
      assert Left(list, actions, key) == list;
    } else {
      var n := |actions| - 1;
      var init, a := actions[..n], actions[n];
      assert actions == init + [a];
      LeftMeaning(list, init, key, e);
      LeftSnoc(list, init, a, key);
      LeftBelongs(list, init, key);
      if Change(a).Some? && KeyOf(Change(a).value) == key {
        OneMore(Left(list, init, key), a, Change(a).value, key, e);
      } else {
        OtherGroup(a, key, e);
      }
      SparedSnoc(init, a, key, e);
      BroughtSnoc(init, a, key, e);
    }
  }

  lemma SparedSnoc(actions: seq<GroupAction>, a: GroupAction, key: Key, e: Spec)
    ensures Spared(actions + [a], key, e) <==> Spared(actions, key, e) && !Takes(a, key, e)
  {
    var all := actions + [a];
    assert all[|actions|] == a && forall i :: 0 <= i < |actions| ==> all[i] == actions[i];
    if Spared(all, key, e) {
      assert !Takes(all[|actions|], key, e);
      forall i | 0 <= i < |actions| ensures !Takes(actions[i], key, e) {
        assert !Takes(all[i], key, e);
      }
    }
  }

  lemma BroughtSnoc(actions: seq<GroupAction>, a: GroupAction, key: Key, e: Spec)
    ensures (exists j :: Brought(actions + [a], key, e, j)) <==>
            Brings(a, key, e) || (!Takes(a, key, e) && exists j :: Brought(actions, key, e, j))
  {
    var all, n := actions + [a], |actions|;
    assert all[n] == a && forall i :: 0 <= i < n ==> all[i] == actions[i];
    if j :| Brought(all, key, e, j) {
      if j < n {
        assert !Takes(all[n], key, e);
        assert Brought(actions, key, e, j);
      }
    }
    if Brings(a, key, e) {
      assert Brought(all, key, e, n);
    } else if !Takes(a, key, e) {
      if j :| Brought(actions, key, e, j) {
        assert Brought(all, key, e, j);
      }
    }
  }

  // ---------------------------------------------------------------- rules taken over

  lemma SupersedingMeaning(a: GroupAction, key: Key, e: Spec)
    requires EntryOf(e, key)
    ensures TakesOver(a, e) <==> SupersedingRemoval(a).Some? && RemovalMatches(SupersedingRemoval(a).value, e)
  {
  }

  lemma {:induction false} SupersededSnoc(list: seq<Spec>, actions: seq<GroupAction>, a: GroupAction)
    ensures Supersede(list, SupersededRules(actions + [a])) ==
            var before := Supersede(list, SupersededRules(actions));
            if SupersedingRemoval(a).Some? then Filter(before, NoMatch(SupersedingRemoval(a).value)) else before
  {
    assert (actions + [a])[..|actions|] == actions;
    var rs := SupersededRules(actions);
    if SupersedingRemoval(a).Some? {
      assert (rs + [SupersedingRemoval(a).value])[..|rs|] == rs;
    } else {
      assert rs + [] == rs;
    }
  }

  lemma {:induction false} SupersedeMeaning(list: seq<Spec>, actions: seq<GroupAction>, key: Key, e: Spec)
    requires AllOf(list, key)
    ensures e in Supersede(list, SupersededRules(actions)) <==>
            e in list && forall i :: 0 <= i < |actions| ==> !TakesOver(actions[i], e)
  {
    if actions != [] {
      var n := |actions| - 1;
      var init, a := actions[..n], actions[n];
      assert actions == init + [a];
      SupersedeMeaning(list, init, key, e);
      SupersededSnoc(list, init, a);
      if SupersedingRemoval(a).Some? {
        FilterMember(Supersede(list, SupersededRules(init)), NoMatch(SupersedingRemoval(a).value), e);
      }
      if e in list {
        SupersedingMeaning(a, key, e);
      }
      assert (forall i :: 0 <= i < |actions| ==> !TakesOver(actions[i], e)) <==>
             (forall i :: 0 <= i < n ==> !TakesOver(init[i], e)) && !TakesOver(a, e);
    }
  }

  /** The group's list before normalization: what remains, and nothing else. */
  lemma {:induction false} StagedListMeaning(persisted: seq<Spec>, actions: seq<GroupAction>, key: Key, e: Spec)
    ensures e in StagedList(persisted, actions, key) <==> Remains(persisted, actions, key, e)
    ensures AllOf(StagedList(persisted, actions, key), key)
  {
    var own := Filter(persisted, InGroup(key.tunnelID, key.version));
    forall x ensures x in own <==> x in persisted && EntryOf(x, key) {
      FilterMember(persisted, InGroup(key.tunnelID, key.version), x);
      BelongsMeaning(x, key);
    }
    var start := Supersede(own, SupersededRules(actions));
    forall x ensures x in start <==> x in own && forall i :: 0 <= i < |actions| ==> !TakesOver(actions[i], x) {
      SupersedeMeaning(own, actions, key, x);
    }
    LeftBelongs(start, actions, key);
    LeftMeaning(start, actions, key, e);
  }

  // ------------------------------------------------------------- the staged groups

  /** Entries of one rule, port and protocol; a group lists one of them. */
  predicate SameIdentity(a: Spec, b: Spec) {
    a.ruleID == b.ruleID && a.listenPort == b.listenPort && a.protocol == b.protocol
  }

  /** A group lists remaining entries that have a key, one for each identity that remains. */
  ghost predicate GroupIs(n: seq<Spec>, persisted: seq<Spec>, actions: seq<GroupAction>, key: Key) {
    && (forall e :: e in n ==> e.key != "" && Remains(persisted, actions, key, e))
    && (forall e: Spec :: e.key != "" && Remains(persisted, actions, key, e) ==> exists i :: 0 <= i < |n| && SameIdentity(n[i], e))
    && (forall i, j :: 0 <= i < j < |n| ==> !SameIdentity(n[i], n[j]))
  }

  lemma IdentityMeaning(a: Spec, b: Spec, key: Key)
    requires EntryOf(a, key) && EntryOf(b, key)
    ensures IdentityOf(a) == IdentityOf(b) <==> SameIdentity(a, b)
  {
  }

  lemma {:induction false} WriterExists(ms: seq<Spec>, e: Spec)
    requires e in ms
    ensures IdentityOf(e) in LastWriter(ms)
  {
    var n := |ms| - 1;
    if e != ms[n] {
      assert e in ms[..n];
      WriterExists(ms[..n], e);
    }
  }

  /**
   Every group that a batch stages, entry by entry: it lists the entries with a key that were
   persisted and that no action takes over or out, and those an action brings and no later one
   takes out; of several with one rule, port and protocol it lists one.
   */
  lemma {:induction false} StagedExactly(persisted: seq<Spec>, actions: seq<GroupAction>, key: Key, n: seq<Spec>)
    requires IsGroup(n, StagedList(persisted, actions, key), key)
    ensures GroupIs(n, persisted, actions, key)
  {
    var list := StagedList(persisted, actions, key);
    forall e ensures e in list <==> Remains(persisted, actions, key, e) {
      StagedListMeaning(persisted, actions, key, e);
    }
    StagedListMeaning(persisted, actions, key, Spec(NoRole, None, 0, 0, 0, 0, None, "", 0));
    forall e | e in list ensures Belongs(e, key.tunnelID, key.version) {
      BelongsMeaning(e, key);
    }
    MembersOfGroup(list, key);
    var members := Filter(list, UsableEntry());
    forall e ensures e in members <==> e in list && e.key != "" {
      FilterMember(list, UsableEntry(), e);
    }
    LastWriterKeys(members);
    forall e | e in n ensures e in members {
      var i :| 0 <= i < |n| && n[i] == e;
    }
    forall e | e in members ensures exists i :: 0 <= i < |n| && SameIdentity(n[i], e) {
      WriterExists(members, e);
      var x := LastWriter(members)[IdentityOf(e)];
      var i :| 0 <= i < |n| && n[i] == x;
      IdentityMeaning(x, e, key);
    }
    forall i, j | 0 <= i < j < |n| ensures !SameIdentity(n[i], n[j]) {
      assert n[i] in n && n[j] in n;
      IdentityMeaning(n[i], n[j], key);
    }
  }

  /** A group is staged for exactly the tunnels and transports that some action names with an entry or a removal. */
  lemma {:induction false} StagedKeys(actions: seq<GroupAction>, key: Key)
    ensures key in Keys(actions) <==>
            exists i :: 0 <= i < |actions| && actions[i].fxp.Some? &&
                        if actions[i].op.op == Remove then Names(actions[i].fxp.value, key) && actions[i].fxp.value.role != OtherRole
                        else Carried(actions[i].fxp.value, key)
  {
    if actions != [] {
      var n := |actions| - 1;
      StagedKeys(actions[..n], key);
      ChangeMeaning(actions[n], key);
    }
  }

  lemma {:induction false} ListedRemains(persisted: seq<Spec>, actions: seq<GroupAction>, key: Key, n: seq<Spec>, e: Spec)
    requires IsGroup(n, StagedList(persisted, actions, key), key) && e in n
    ensures Remains(persisted, actions, key, e)
  {
    StagedExactly(persisted, actions, key, n);
  }

  lemma GoneIfTakenOver(persisted: seq<Spec>, actions: seq<GroupAction>, key: Key, e: Spec, i: nat)
    requires i < |actions| && TakesOver(actions[i], e) && Remains(persisted, actions, key, e)
    ensures exists j :: Brought(actions, key, e, j)
  {
  }

  /** A rule that the batch serves without FXP has no entry left that the batch does not bring itself. */
  lemma {:induction false} TakenOverIsGone(persisted: seq<Spec>, actions: seq<GroupAction>, key: Key, n: seq<Spec>, i: nat, e: Spec)
    requires IsGroup(n, StagedList(persisted, actions, key), key)
    requires i < |actions| && actions[i].op.op == Apply && actions[i].fxp == None && actions[i].ruleID > 0
    requires e in n && e.ruleID == actions[i].ruleID && (actions[i].tunnelID <= 0 || e.tunnelID == actions[i].tunnelID)
    ensures exists j :: Brought(actions, key, e, j)
  {
    ListedRemains(persisted, actions, key, n, e);
    GoneIfTakenOver(persisted, actions, key, e, i);
  }

  lemma AloneStays(persisted: seq<Spec>, actions: seq<GroupAction>, key: Key, n: seq<Spec>, e: Spec)
    requires GroupIs(n, persisted, actions, key) && e.key != "" && Remains(persisted, actions, key, e)
    requires forall x :: Remains(persisted, actions, key, x) && SameIdentity(x, e) ==> x == e
    ensures e in n
  {
    var i :| 0 <= i < |n| && SameIdentity(n[i], e);
    assert n[i] in n;
  }

  /** A persisted entry that no action takes over or out stays, unless another entry of its rule, port and protocol does. */
  lemma {:induction false} UntouchedStays(persisted: seq<Spec>, actions: seq<GroupAction>, key: Key, n: seq<Spec>, e: Spec)
    requires IsGroup(n, StagedList(persisted, actions, key), key) && e.key != "" && Untouched(persisted, actions, key, e)
    requires forall x :: Remains(persisted, actions, key, x) && SameIdentity(x, e) ==> x == e
    ensures e in n
  {
    StagedExactly(persisted, actions, key, n);
    AloneStays(persisted, actions, key, n, e);
  }
}
