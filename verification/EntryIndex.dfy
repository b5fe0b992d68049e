/**
 The mutable entry group (agent/main.go, mutableSharedFXPEntryGroup): a slot array
 with lazy deletion and three secondary indexes. Every operation is proved to do on
 the live entries what the plain list version does by appending and filtering.
 */
module EntryIndex {
  import opened ActionKeys
  import opened Options
  import opened FxpSpecs

  // -------------------------------------------------------------- plain lists

  function Filter(s: seq<Spec>, keep: Spec -> bool): seq<Spec> {
    if s == [] then []
    else Filter(s[..|s| - 1], keep) + if keep(s[|s| - 1]) then [s[|s| - 1]] else []
  }

  lemma {:induction false} FilterMember(s: seq<Spec>, keep: Spec -> bool, x: Spec)
    ensures x in Filter(s, keep) <==> x in s && keep(x)
  {
    if s != [] {
      assert s == s[..|s| - 1] + [s[|s| - 1]];
      FilterMember(s[..|s| - 1], keep, x);
    }
  }

  lemma {:induction false} FilterFilter(s: seq<Spec>, p: Spec -> bool, q: Spec -> bool, pq: Spec -> bool)
    requires forall x :: x in s ==> (pq(x) <==> p(x) && q(x))
    ensures Filter(Filter(s, p), q) == Filter(s, pq)
  {
    if s != [] {
      var init, last := s[..|s| - 1], s[|s| - 1];
      assert last in s && forall x :: x in init ==> x in s;
      FilterFilter(init, p, q, pq);
      if p(last) {
        assert Filter(s, p)[..|Filter(s, p)| - 1] == Filter(init, p);
      } else {
        assert Filter(s, p) == Filter(init, p);
      }
    }
  }

  lemma {:induction false} FilterTrue(s: seq<Spec>, keep: Spec -> bool)
    ensures Filter(s, keep) == s <==> forall x :: x in s ==> keep(x)
    ensures |Filter(s, keep)| <= |s|
  {
    if s != [] {
      var init, last := s[..|s| - 1], s[|s| - 1];
      assert s == init + [last];
      FilterTrue(init, keep);
      if keep(last) && Filter(s, keep) == s {
        assert Filter(init, keep) == Filter(s, keep)[..|s| - 1] == init;
      }
      if forall x :: x in s ==> keep(x) {
        assert last in s && forall x :: x in init ==> x in s;
      }
    }
  }

  // -------------------------------------------------------------------- slots

  datatype Slot = Slot(entry: Spec, active: bool)

  /** The live entries, in slot order. */
  function Live(slots: seq<Slot>): seq<Spec> {
    if slots == [] then []
    else Live(slots[..|slots| - 1]) + if slots[|slots| - 1].active then [slots[|slots| - 1].entry] else []
  }

  /** `after` is `before` with exactly the live entries that fail `keep` switched off. */
  ghost predicate SwitchedOff(before: seq<Slot>, after: seq<Slot>, keep: Spec -> bool) {
    && |after| == |before|
    && (forall i :: 0 <= i < |before| ==> after[i].entry == before[i].entry)
    && (forall i :: 0 <= i < |before| ==> (after[i].active <==> before[i].active && keep(before[i].entry)))
  }

  lemma {:induction false} LiveFilter(before: seq<Slot>, after: seq<Slot>, keep: Spec -> bool)
    requires SwitchedOff(before, after, keep)
    ensures Live(after) == Filter(Live(before), keep)
  {
    if before != [] {
      var n := |before| - 1;
      LiveFilter(before[..n], after[..n], keep);
      var x := before[n];
      if x.active {
        assert Live(before)[..|Live(before)| - 1] == Live(before[..n]);
      } else {
        assert Live(before) == Live(before[..n]);
      }
    }
  }

  // ------------------------------------------------------------------- indexes

  type Index<K> = map<K, seq<nat>>

  function Bucket<K>(idx: Index<K>, k: K): seq<nat> {
    if k in idx then idx[k] else []
  }

  predicate InBucket<K(==)>(idx: Index<K>, k: K, i: nat) {
    i in Bucket(idx, k)
  }

  predicate HasKey<K(==)>(slots: seq<Slot>, keys: Spec -> seq<K>, i: nat, k: K) {
    i < |slots| && k in keys(slots[i].entry)
  }

  /** Slots in a bucket have its key, and live slots are in the buckets of their keys. */
  ghost predicate IndexOk<K(!new)>(idx: Index<K>, slots: seq<Slot>, keys: Spec -> seq<K>) {
    && (forall k, i: nat :: InBucket(idx, k, i) ==> HasKey(slots, keys, i, k))
    && (forall k, i: nat :: HasKey(slots, keys, i, k) && slots[i].active ==> InBucket(idx, k, i))
  }

  function RuleKeys(): Spec -> seq<int> { (s: Spec) => [s.ruleID] }
  function PortKeys(): Spec -> seq<int> { (s: Spec) => [s.listenPort] }
  function EndpointKeys(): Spec -> seq<Endpoint> { (s: Spec) => Endpoints(s) }

  lemma IndexShrink<K(!new)>(idx: Index<K>, before: seq<Slot>, after: seq<Slot>, keys: Spec -> seq<K>)
    requires IndexOk(idx, before, keys) && |after| == |before|
    requires forall i :: 0 <= i < |before| ==> after[i].entry == before[i].entry && (after[i].active ==> before[i].active)
    ensures IndexOk(idx, after, keys)
  {
    forall k, i: nat ensures HasKey(after, keys, i, k) <==> HasKey(before, keys, i, k) {
    }
  }

  /** `idx2` has bucket `bucket` at k and is otherwise `idx`. */
  ghost predicate Rebucketed<K(!new)>(idx: Index<K>, idx2: Index<K>, k: K, bucket: seq<nat>) {
    forall j :: Bucket(idx2, j) == if j == k then bucket else Bucket(idx, j)
  }

  /** Replacing a bucket by part of it is harmless as long as every live member stays. */
  lemma IndexReplace<K(!new)>(idx: Index<K>, idx2: Index<K>, slots: seq<Slot>, keys: Spec -> seq<K>, k: K, bucket: seq<nat>)
    requires IndexOk(idx, slots, keys) && Rebucketed(idx, idx2, k, bucket)
    requires forall i :: i in bucket ==> InBucket(idx, k, i)
    requires forall i: nat :: InBucket(idx, k, i) && i < |slots| && slots[i].active ==> i in bucket
    ensures IndexOk(idx2, slots, keys)
  {
    forall j, i: nat ensures InBucket(idx2, j, i) ==> InBucket(idx, j, i) {
      assert Bucket(idx2, j) == if j == k then bucket else Bucket(idx, j);
    }
    forall j, i: nat | HasKey(slots, keys, i, j) && slots[i].active ensures InBucket(idx2, j, i) {
      assert InBucket(idx, j, i);
      assert Bucket(idx2, j) == if j == k then bucket else Bucket(idx, j);
    }
  }

  /** Files a new slot under one of its keys. */
  function Filed<K(==)>(idx: Index<K>, k: K, i: nat): Index<K> {
    idx[k := Bucket(idx, k) + [i]]
  }

  function FiledAll<K(==)>(idx: Index<K>, ks: seq<K>, i: nat): Index<K> {
    if ks == [] then idx else Filed(FiledAll(idx, ks[..|ks| - 1], i), ks[|ks| - 1], i)
  }

  lemma {:induction false} FiledBuckets<K(!new)>(idx: Index<K>, ks: seq<K>, i: nat, k: K, j: nat)
    ensures InBucket(FiledAll(idx, ks, i), k, j) <==> InBucket(idx, k, j) || (j == i && k in ks)
  {
    if ks != [] {
      FiledBuckets(idx, ks[..|ks| - 1], i, k, j);
      assert ks == ks[..|ks| - 1] + [ks[|ks| - 1]];
    }
  }

  lemma {:induction false} IndexAppend<K(!new)>(idx: Index<K>, slots: seq<Slot>, keys: Spec -> seq<K>, e: Spec)
    requires IndexOk(idx, slots, keys)
    ensures IndexOk(FiledAll(idx, keys(e), |slots|), slots + [Slot(e, true)], keys)
  {
    var idx', slots' := FiledAll(idx, keys(e), |slots|), slots + [Slot(e, true)];
    forall k, i: nat ensures InBucket(idx', k, i) <==> InBucket(idx, k, i) || (i == |slots| && k in keys(e)) {
      FiledBuckets(idx, keys(e), |slots|, k, i);
    }
    forall k, i: nat ensures HasKey(slots', keys, i, k) <==> HasKey(slots, keys, i, k) || (i == |slots| && k in keys(e)) {
    }
  }

  // ---------------------------------------------------------- the mutable group

  function NoMatch(request: Spec): Spec -> bool { (e: Spec) => !RemovalMatches(request, e) }
  function OtherRule(ruleID: int): Spec -> bool { (e: Spec) => e.ruleID != ruleID }
  function NoEndpointIn(es: seq<Endpoint>): Spec -> bool { (x: Spec) => forall e :: e in es ==> e !in Endpoints(x) }

  function NoConflict(c: Spec): Spec -> bool { (x: Spec) => !ListenConflict(x, c) }

  /** Entries the group stores: normalized shared entries of its own tunnel and transport. */
  predicate Belongs(e: Spec, tunnelID: int, version: Version) {
    Normal(e) == e && IsSharedEntry(e) && e.tunnelID == tunnelID && e.version == Some(version)
  }

  ghost predicate ActiveSet(active: set<nat>, slots: seq<Slot>) {
    forall i: nat :: i in active <==> i < |slots| && slots[i].active
  }

  ghost predicate AllBelong(slots: seq<Slot>, tunnelID: int, version: Version) {
    forall i :: 0 <= i < |slots| ==> Belongs(slots[i].entry, tunnelID, version)
  }

  class MutableGroup {
    const tunnelID: int
    const version: Version
    var slots: seq<Slot>
    var active: set<nat>
    var byRule: Index<int>
    var byPort: Index<int>
    var byEndpoint: Index<Endpoint>

    ghost predicate Valid()
      reads this
    {
      && ActiveSet(active, slots) && AllBelong(slots, tunnelID, version)
      && IndexOk(byRule, slots, RuleKeys())
      && IndexOk(byPort, slots, PortKeys())
      && IndexOk(byEndpoint, slots, EndpointKeys())
    }

    ghost function Contents(): seq<Spec>
      reads this
    {
      Live(slots)
    }

    constructor (tunnelID: int, version: Version)
      ensures this.tunnelID == tunnelID && this.version == version && Valid() && Contents() == []
    {
      this.tunnelID, this.version := tunnelID, version;
      slots, active, byRule, byPort, byEndpoint := [], {}, map[], map[], map[];
    }

    /** Appends, unless the entry belongs to another group or is not a shared entry. */
    method Add(entry: Spec)
      requires Valid()
      modifies this
      ensures Valid()
      ensures Contents() == old(Contents()) + if Belongs(Normal(entry), tunnelID, version) then [Normal(entry)] else []
    {
      var e := Normal(entry);
      if !IsSharedEntry(e) || e.tunnelID != tunnelID || e.version != Some(version) {
        return;
      }
      IndexAppend(byRule, slots, RuleKeys(), e);
      IndexAppend(byPort, slots, PortKeys(), e);
      IndexAppend(byEndpoint, slots, EndpointKeys(), e);
      var index := |slots|;
      FiledOne(byRule, e.ruleID, index);
      FiledOne(byPort, e.listenPort, index);
      byRule := Filed(byRule, e.ruleID, index);
      byPort := Filed(byPort, e.listenPort, index);
      byEndpoint := FiledAll(byEndpoint, Endpoints(e), index);
      assert (slots + [Slot(e, true)])[..index] == slots;
      slots := slots + [Slot(e, true)];
      active := active + {index};
    }

    /** Switches off the slots of a bucket whose entry is to be dropped; returns those still on. */
    method Visit(bucket: seq<nat>, drop: Spec -> bool) returns (remaining: seq<nat>)
      requires ActiveSet(active, slots) && forall j :: 0 <= j < |bucket| ==> bucket[j] < |slots|
      modifies this`slots, this`active
      ensures ActiveSet(active, slots) && |slots| == |old(slots)|
      ensures forall i :: 0 <= i < |slots| ==> slots[i].entry == old(slots)[i].entry
      ensures forall i: nat :: i < |slots| ==> (slots[i].active <==> old(slots)[i].active && !(i in bucket && drop(slots[i].entry)))
      ensures forall i :: i in remaining ==> i in bucket
      ensures forall i: nat :: i in bucket && i < |slots| && slots[i].active ==> i in remaining
    {
      remaining := [];
      for n := 0 to |bucket|
        invariant ActiveSet(active, slots) && |slots| == |old(slots)|
        invariant forall i :: 0 <= i < |slots| ==> slots[i].entry == old(slots)[i].entry
        invariant forall i: nat :: i < |slots| ==> (slots[i].active <==> old(slots)[i].active && !(i in bucket[..n] && drop(slots[i].entry)))
        invariant forall i :: i in remaining ==> i in bucket
        invariant forall j :: 0 <= j < n && slots[bucket[j]].active ==> bucket[j] in remaining
      {
        var index := bucket[n];
        assert index in bucket && bucket[..n + 1] == bucket[..n] + [index];
        if slots[index].active {
          if drop(slots[index].entry) {
            slots := slots[index := slots[index].(active := false)];
            active := active - {index};
          } else {
            remaining := remaining + [index];
          }
        }
      }
      assert bucket[..|bucket|] == bucket;
    }

    /** A bucket's slots exist, and visiting it leaves the indexes right. */
    twostate lemma VisitKeepsIndexes()
      requires old(Valid()) && ActiveSet(active, slots) && |slots| == |old(slots)|
      requires byRule == old(byRule) && byPort == old(byPort) && byEndpoint == old(byEndpoint)
      requires forall i :: 0 <= i < |slots| ==> slots[i].entry == old(slots)[i].entry && (slots[i].active ==> old(slots)[i].active)
      ensures Valid()
    {
      IndexShrink(byRule, old(slots), slots, RuleKeys());
      IndexShrink(byPort, old(slots), slots, PortKeys());
      IndexShrink(byEndpoint, old(slots), slots, EndpointKeys());
    }

    method RemoveRule(ruleID: int)
      requires Valid()
      modifies this
      ensures Valid() && Contents() == Filter(old(Contents()), OtherRule(ruleID))
    {
      var bucket := Bucket(byRule, ruleID);
      BucketInRange(byRule, slots, RuleKeys(), ruleID);
      var _ := Visit(bucket, _ => true);
      VisitKeepsIndexes();
      forall i: nat | i < |slots| ensures slots[i].active <==> old(slots)[i].active && OtherRule(ruleID)(old(slots)[i].entry) {
        RuleBucket(byRule, old(slots), i, ruleID);
      }
      LiveFilter(old(slots), slots, OtherRule(ruleID));
      IndexReplace(byRule, byRule - {ruleID}, slots, RuleKeys(), ruleID, []);
      byRule := byRule - {ruleID};
    }

    method RemoveEndpoint(e: Endpoint)
      requires Valid()
      modifies this
      ensures Valid() && Contents() == Filter(old(Contents()), NoEndpointIn([e]))
    {
      var bucket := Bucket(byEndpoint, e);
      BucketInRange(byEndpoint, slots, EndpointKeys(), e);
      var _ := Visit(bucket, _ => true);
      VisitKeepsIndexes();
      forall i: nat | i < |slots| ensures slots[i].active <==> old(slots)[i].active && NoEndpointIn([e])(old(slots)[i].entry) {
        assert InBucket(byEndpoint, e, i) ==> HasKey(old(slots), EndpointKeys(), i, e);
        assert HasKey(old(slots), EndpointKeys(), i, e) <==> e in Endpoints(old(slots)[i].entry);
      }
      LiveFilter(old(slots), slots, NoEndpointIn([e]));
      IndexReplace(byEndpoint, byEndpoint - {e}, slots, EndpointKeys(), e, []);
      byEndpoint := byEndpoint - {e};
    }

    /** By sockets, as the index has them; of a normalized entry these are its listen conflicts. */
    method RemoveListenConflicts(entry: Spec)
      requires Valid()
      modifies this
      ensures Valid() && Contents() == Filter(old(Contents()), NoEndpointIn(Endpoints(entry)))
      ensures Normal(entry) == entry ==> Contents() == Filter(old(Contents()), NoConflict(entry))
    {
      var es := Endpoints(entry);
      FilterTrue(Contents(), NoEndpointIn([]));
      for n := 0 to |es|
        invariant Valid() && Contents() == Filter(old(Contents()), NoEndpointIn(es[..n]))
      {
        DropEndpoint(old(Contents()), es, n);
        RemoveEndpoint(es[n]);
      }
      assert es[..|es|] == es;
      if Normal(entry) == entry {
        SocketsAreConflicts(old(slots), tunnelID, version, entry);
      }
    }

    method RemoveMatching(request: Spec)
      requires Valid()
      modifies this
      ensures Valid() && Contents() == Filter(old(Contents()), NoMatch(request))
    {
      var bucket;
      if request.ruleID > 0 {
        bucket := Bucket(byRule, request.ruleID);
        BucketInRange(byRule, slots, RuleKeys(), request.ruleID);
      } else if request.listenPort > 0 {
        bucket := Bucket(byPort, request.listenPort);
        BucketInRange(byPort, slots, PortKeys(), request.listenPort);
      } else {
        bucket := Listed(active);
        assert forall j :: 0 <= j < |bucket| ==> bucket[j] in active;
      }
      var remaining := Visit(bucket, e => RemovalMatches(request, e));
      VisitKeepsIndexes();
      forall i: nat | i < |slots| ensures slots[i].active <==> old(slots)[i].active && NoMatch(request)(old(slots)[i].entry) {
        if request.ruleID > 0 {
          RuleBucket(byRule, old(slots), i, request.ruleID);
        } else if request.listenPort > 0 {
          PortBucket(byPort, old(slots), i, request.listenPort);
        }
      }
      LiveFilter(old(slots), slots, NoMatch(request));
      if request.ruleID > 0 {
        byRule := Replace(byRule, slots, RuleKeys(), request.ruleID, remaining);
      } else if request.listenPort > 0 {
        byPort := Replace(byPort, slots, PortKeys(), request.listenPort, remaining);
      }
    }
  }

  lemma {:induction false} DropEndpoint(list: seq<Spec>, es: seq<Endpoint>, n: nat)
    requires n < |es|
    ensures Filter(Filter(list, NoEndpointIn(es[..n])), NoEndpointIn([es[n]])) == Filter(list, NoEndpointIn(es[..n + 1]))
  {
    assert es[..n + 1] == es[..n] + [es[n]];
    forall x: Spec ensures NoEndpointIn(es[..n + 1])(x) <==> NoEndpointIn(es[..n])(x) && NoEndpointIn([es[n]])(x) {
    }
    FilterFilter(list, NoEndpointIn(es[..n]), NoEndpointIn([es[n]]), NoEndpointIn(es[..n + 1]));
  }

  lemma {:induction false} LiveBelongs(slots: seq<Slot>, tunnelID: int, version: Version)
    requires AllBelong(slots, tunnelID, version)
    ensures forall e :: e in Live(slots) ==> Belongs(e, tunnelID, version)
  {
    if slots != [] {
      LiveBelongs(slots[..|slots| - 1], tunnelID, version);
    }
  }

  lemma {:induction false} FilterSame(s: seq<Spec>, p: Spec -> bool, q: Spec -> bool)
    requires forall x :: x in s ==> p(x) == q(x)
    ensures Filter(s, p) == Filter(s, q)
  {
    if s != [] {
      assert s[|s| - 1] in s && forall x :: x in s[..|s| - 1] ==> x in s;
      FilterSame(s[..|s| - 1], p, q);
    }
  }

  /** On the group's normalized entries, dropping by socket is dropping by listen conflict. */
  lemma {:induction false} SocketsAreConflicts(slots: seq<Slot>, tunnelID: int, version: Version, c: Spec)
    requires AllBelong(slots, tunnelID, version) && Normal(c) == c
    ensures Filter(Live(slots), NoEndpointIn(Endpoints(c))) == Filter(Live(slots), NoConflict(c))
  {
    LiveBelongs(slots, tunnelID, version);
    forall x | x in Live(slots) ensures NoEndpointIn(Endpoints(c))(x) == NoConflict(c)(x) {
      ConflictIsSharedSocket(x, c);
    }
    FilterSame(Live(slots), NoEndpointIn(Endpoints(c)), NoConflict(c));
  }

  /** Any enumeration of the live slots. */
  method Listed(s: set<nat>) returns (r: seq<nat>)
    ensures forall i :: i in r <==> i in s
  {
    r := [];
    var rest := s;
    while rest != {}
      invariant rest <= s && forall i :: i in s <==> i in r || i in rest
      invariant forall i :: i in r ==> i in s
      decreases rest
    {
      var x :| x in rest;
      r := r + [x];
      rest := rest - {x};
    }
  }

  /** Stores a pruned bucket, dropping the key when nothing is left. */
  method Replace(idx: Index<int>, ghost slots: seq<Slot>, ghost keys: Spec -> seq<int>, k: int, bucket: seq<nat>) returns (idx2: Index<int>)
    requires IndexOk(idx, slots, keys)
    requires forall i :: i in bucket ==> InBucket(idx, k, i)
    requires forall i: nat :: InBucket(idx, k, i) && i < |slots| && slots[i].active ==> i in bucket
    ensures IndexOk(idx2, slots, keys)
  {
    idx2 := if |bucket| == 0 then idx - {k} else idx[k := bucket];
    IndexReplace(idx, idx2, slots, keys, k, bucket);
  }

  lemma BucketInRange<K(!new)>(idx: Index<K>, slots: seq<Slot>, keys: Spec -> seq<K>, k: K)
    requires IndexOk(idx, slots, keys)
    ensures forall j :: 0 <= j < |Bucket(idx, k)| ==> Bucket(idx, k)[j] < |slots|
  {
    forall j | 0 <= j < |Bucket(idx, k)| ensures Bucket(idx, k)[j] < |slots| {
      assert InBucket(idx, k, Bucket(idx, k)[j]);
    }
  }

  lemma RuleBucket(idx: Index<int>, slots: seq<Slot>, i: nat, ruleID: int)
    requires IndexOk(idx, slots, RuleKeys()) && i < |slots|
    ensures i in Bucket(idx, ruleID) ==> slots[i].entry.ruleID == ruleID
    ensures slots[i].active && slots[i].entry.ruleID == ruleID ==> i in Bucket(idx, ruleID)
  {
    assert InBucket(idx, ruleID, i) ==> HasKey(slots, RuleKeys(), i, ruleID);
    assert HasKey(slots, RuleKeys(), i, ruleID) <==> slots[i].entry.ruleID == ruleID;
  }

  lemma PortBucket(idx: Index<int>, slots: seq<Slot>, i: nat, port: int)
    requires IndexOk(idx, slots, PortKeys()) && i < |slots|
    ensures i in Bucket(idx, port) ==> slots[i].entry.listenPort == port
    ensures slots[i].active && slots[i].entry.listenPort == port ==> i in Bucket(idx, port)
  {
    assert InBucket(idx, port, i) ==> HasKey(slots, PortKeys(), i, port);
    assert HasKey(slots, PortKeys(), i, port) <==> slots[i].entry.listenPort == port;
  }

  lemma {:induction false} FiledOne<K(!new)>(idx: Index<K>, k: K, i: nat)
    ensures FiledAll(idx, [k], i) == Filed(idx, k, i)
  {
    assert [k][..0] == [];
  }

  // ------------------------------------------------------------- a whole batch

  /** One FXP action of a batch: what to drop, whether to replace conflicting entries, whether to append. */
  datatype Mutation = Mutation(spec: Spec, append: bool, replaceConflicts: bool)

  /** `exact`: the operation's text is the word itself, without surrounding blanks. */
  datatype OpText = OpText(op: Op, exact: bool)

  function MutationOf(op: OpText, raw: Spec): (m: Option<Mutation>)
    ensures m.Some? ==> Staged(m.value)
  {
    if op.op.Remove? then
      if raw.tunnelID <= 0 || raw.role.OtherRole? then None else Some(Mutation(raw, false, false))
    else
      var spec := Normal(raw);
      if !IsSharedEntry(spec) then None
      else Some(Mutation(spec, op.op.Apply?, op.op.Apply? && op.exact))
  }

  /** What a mutation leaves, before it appends. */
  function Kept(list: seq<Spec>, m: Mutation): seq<Spec> {
    var unmatched := Filter(list, NoMatch(m.spec));
    if m.replaceConflicts then Filter(Filter(unmatched, OtherRule(m.spec.ruleID)), NoConflict(m.spec)) else unmatched
  }

  /** The mutation on a plain list. */
  function Mutate(list: seq<Spec>, m: Mutation, tunnelID: int, version: Version): seq<Spec> {
    var kept := Kept(list, m);
    if m.append && Belongs(Normal(m.spec), tunnelID, version) then kept + [Normal(m.spec)] else kept
  }

  function MutateAll(list: seq<Spec>, ms: seq<Mutation>, tunnelID: int, version: Version): seq<Spec> {
    if ms == [] then list else Mutate(MutateAll(list, ms[..|ms| - 1], tunnelID, version), ms[|ms| - 1], tunnelID, version)
  }

  function InGroup(tunnelID: int, version: Version): Spec -> bool { (e: Spec) => Belongs(e, tunnelID, version) }

  /** Persisted members of rules that the batch now serves without FXP are dropped first. */
  function Supersede(list: seq<Spec>, removals: seq<Spec>): seq<Spec> {
    if removals == [] then list else Filter(Supersede(list, removals[..|removals| - 1]), NoMatch(removals[|removals| - 1]))
  }

  /** A replacing mutation carries a normalized entry. */
  predicate Staged(m: Mutation) {
    m.replaceConflicts ==> Normal(m.spec) == m.spec
  }

  method ApplyMutation(group: MutableGroup, m: Mutation)
    requires group.Valid() && Staged(m)
    modifies group
    ensures group.Valid() && group.Contents() == Mutate(old(group.Contents()), m, group.tunnelID, group.version)
  {
    group.RemoveMatching(m.spec);
    if m.replaceConflicts {
      group.RemoveRule(m.spec.ruleID);
      group.RemoveListenConflicts(m.spec);
    }
    if m.append {
      group.Add(m.spec);
    }
  }

  /** attachDesiredSharedFXPEntryGroups for one group key: load, drop superseded rules, mutate, snapshot. */
  method StageGroup(tunnelID: int, version: Version, persisted: seq<Spec>, removals: seq<Spec>, ms: seq<Mutation>) returns (entries: seq<Spec>)
    requires forall i :: 0 <= i < |persisted| ==> Normal(persisted[i]) == persisted[i]
    requires forall i :: 0 <= i < |ms| ==> Staged(ms[i])
    ensures entries == MutateAll(Supersede(Filter(persisted, InGroup(tunnelID, version)), removals), ms, tunnelID, version)
  {
    var group := new MutableGroup(tunnelID, version);
    for i := 0 to |persisted|
      invariant fresh(group) && group.Valid() && group.tunnelID == tunnelID && group.version == version
      invariant group.Contents() == Filter(persisted[..i], InGroup(tunnelID, version))
    {
      assert persisted[..i + 1][..i] == persisted[..i];
      group.Add(persisted[i]);
    }
    assert persisted[..|persisted|] == persisted;
    for i := 0 to |removals|
      invariant fresh(group) && group.Valid() && group.tunnelID == tunnelID && group.version == version
      invariant group.Contents() == Supersede(Filter(persisted, InGroup(tunnelID, version)), removals[..i])
    {
      assert removals[..i + 1][..i] == removals[..i];
      group.RemoveMatching(removals[i]);
    }
    assert removals[..|removals|] == removals;
    ghost var start := group.Contents();
    for i := 0 to |ms|
      invariant fresh(group) && group.Valid() && group.tunnelID == tunnelID && group.version == version
      invariant group.Contents() == MutateAll(start, ms[..i], tunnelID, version)
    {
      assert ms[..i + 1][..i] == ms[..i];
      ApplyMutation(group, ms[i]);
    }
    assert ms[..|ms|] == ms;
    entries := Snapshot(group.slots);
  }

  method Snapshot(slots: seq<Slot>) returns (entries: seq<Spec>)
    ensures entries == Live(slots)
  {
    entries := [];
    for i := 0 to |slots|
      invariant entries == Live(slots[..i])
    {
      assert slots[..i + 1][..i] == slots[..i];
      if slots[i].active {
        entries := entries + [slots[i].entry];
      }
    }
    assert slots[..|slots|] == slots;
  }

  // -------------------------------------------------- agreement with the plain form

  /** desiredSharedFXPEntryGroup for an apply: one pass over the persisted entries. */
  function KeepBeside(current: Spec): Spec -> bool {
    (p: Spec) => && IsSharedEntry(p) && p.tunnelID == current.tunnelID && p.version == current.version
                 && !(p.ruleID == current.ruleID || ListenConflict(p, current))
  }

  function DesiredGroup(persisted: seq<Spec>, current: Spec): seq<Spec> {
    Filter(persisted, KeepBeside(current)) + [current]
  }

  function BothHold(p: Spec -> bool, q: Spec -> bool): Spec -> bool { (x: Spec) => p(x) && q(x) }

  /** The three filters of a replacing apply, and the one test of the plain version. */
  lemma SameKeep(p: Spec, c: Spec)
    requires Normal(p) == p && Normal(c) == c && IsSharedEntry(c)
    ensures KeepBeside(c)(p) <==>
            Belongs(p, c.tunnelID, c.version.value) && NoMatch(c)(p) && OtherRule(c.ruleID)(p) && NoConflict(c)(p)
  {
    assert RemovalMatches(c, p) ==> p.ruleID == c.ruleID;
  }

  lemma {:induction false} FilterThrice(s: seq<Spec>, p: Spec -> bool, q: Spec -> bool, r: Spec -> bool, t: Spec -> bool, all: Spec -> bool)
    requires forall x :: x in s ==> (all(x) <==> p(x) && q(x) && r(x) && t(x))
    ensures Filter(Filter(Filter(Filter(s, p), q), r), t) == Filter(s, all)
  {
    FilterFilter(s, p, q, BothHold(p, q));
    FilterFilter(s, BothHold(p, q), r, BothHold(BothHold(p, q), r));
    FilterFilter(s, BothHold(BothHold(p, q), r), t, all);
  }

  /** A batch with one exact apply stages exactly the entries the plain version computes. */
  lemma {:induction false} SingleApplyAgrees(persisted: seq<Spec>, raw: Spec, m: Mutation)
    requires forall i :: 0 <= i < |persisted| ==> Normal(persisted[i]) == persisted[i]
    requires MutationOf(OpText(Apply, true), raw) == Some(m)
    ensures var current := Normal(raw);
            Mutate(Filter(persisted, InGroup(current.tunnelID, current.version.value)), m, current.tunnelID, current.version.value)
            == DesiredGroup(persisted, current)
  {
    var c := Normal(raw);
    forall p | p in persisted
      ensures KeepBeside(c)(p) <==>
              InGroup(c.tunnelID, c.version.value)(p) && NoMatch(c)(p) && OtherRule(c.ruleID)(p) && NoConflict(c)(p)
    {
      SameKeep(p, c);
    }
    FilterThrice(persisted, InGroup(c.tunnelID, c.version.value), NoMatch(c), OtherRule(c.ruleID), NoConflict(c), KeepBeside(c));
  }

  /**
   The append test trims the operation's text and the replacement test does not: an
   apply written with surrounding blanks appends beside entries it should replace.
   It still agrees with an exact apply exactly if no entry that survives the match
   has the new entry's rule or one of its sockets.
   */
  lemma PaddedApplyAgreesIff(list: seq<Spec>, raw: Spec, padded: Mutation, exact: Mutation, tunnelID: int, version: Version)
    requires MutationOf(OpText(Apply, false), raw) == Some(padded) && MutationOf(OpText(Apply, true), raw) == Some(exact)
    ensures Mutate(list, padded, tunnelID, version) == Mutate(list, exact, tunnelID, version) <==>
            forall e :: e in list && NoMatch(exact.spec)(e) ==>
                          e.ruleID != exact.spec.ruleID && NoConflict(exact.spec)(e)
  {
    var c := exact.spec;
    var kept := Filter(list, NoMatch(c));
    var both := BothHold(OtherRule(c.ruleID), NoConflict(c));
    FilterFilter(kept, OtherRule(c.ruleID), NoConflict(c), both);
    FilterTrue(kept, both);
    forall e ensures e in kept <==> e in list && NoMatch(c)(e) {
      FilterMember(list, NoMatch(c), e);
    }
    var tail := if Belongs(Normal(c), tunnelID, version) then [Normal(c)] else [];
    assert Mutate(list, padded, tunnelID, version) == kept + tail;
    assert Mutate(list, exact, tunnelID, version) == Filter(kept, both) + tail;
    SameTail(kept, Filter(kept, both), tail);
  }

  lemma SameTail(a: seq<Spec>, b: seq<Spec>, tail: seq<Spec>)
    ensures a + tail == b + tail <==> a == b
  {
    if a + tail == b + tail {
      assert a == (a + tail)[..|a|] && b == (b + tail)[..|b|];
    }
  }

  /** A padded apply really can put two entries on one socket. */
  lemma PaddedApplyCollides()
    ensures var old_ := Spec(EntryRole, Some(V1), 7, 1, 80, 80, Some(Tcp), "k", 0);
            var raw := Spec(EntryRole, Some(V1), 7, 2, 80, 80, Some(Tcp), "k", 0);
            && MutationOf(OpText(Apply, false), raw) == Some(Mutation(raw, true, false))
            && Mutate([old_], Mutation(raw, true, false), 7, V1) == [old_, raw]
            && ListenConflict(old_, raw)
  {
    var old_ := Spec(EntryRole, Some(V1), 7, 1, 80, 80, Some(Tcp), "k", 0);
    var raw := Spec(EntryRole, Some(V1), 7, 2, 80, 80, Some(Tcp), "k", 0);
    assert [old_][..0] == [] && NoMatch(raw)(old_);
    assert Filter([old_], NoMatch(raw)) == [old_];
    assert Endpoint(false, 80) in Endpoints(old_) && Endpoint(false, 80) in Endpoints(raw);
    ConflictIsSharedSocket(old_, raw);
  }

  // -------------------------------------------------------------- a single removal

  function FirstMatch(persisted: seq<Spec>, removal: Spec): Option<Spec> {
    if persisted == [] then None
    else if RemovalMatches(removal, persisted[0]) then Some(persisted[0])
    else FirstMatch(persisted[1..], removal)
  }

  /** desiredSharedFXPEntryGroup for a removal: without a transport it takes that of the first match. */
  function RemovalVersion(persisted: seq<Spec>, removal: Spec): Version {
    var first := FirstMatch(persisted, removal);
    if removal.version.Some? then NormalVersion(removal.version)
    else if first.Some? then NormalVersion(first.value.version)
    else V1
  }

  function KeepAfter(removal: Spec, version: Version): Spec -> bool {
    (p: Spec) => IsSharedEntry(p) && p.tunnelID == removal.tunnelID && p.version == Some(version) && !RemovalMatches(removal, p)
  }

  datatype Group = Group(version: Version, entries: seq<Spec>)

  function GroupAfterRemoval(persisted: seq<Spec>, removal: Spec): Group {
    var version := RemovalVersion(persisted, removal);
    Group(version, Filter(persisted, KeepAfter(removal, version)))
  }

  /** The batch keys a removal by its own transport, an empty one meaning the first version. */
  function StagedAfterRemoval(persisted: seq<Spec>, removal: Spec, m: Mutation): Group {
    var version := NormalVersion(removal.version);
    Group(version, Mutate(Filter(persisted, InGroup(removal.tunnelID, version)), m, removal.tunnelID, version))
  }

  /**
   A removal stages the group that the plain version computes exactly if it names a transport,
   or matches nothing, or matches an entry of the first version first.
   */
  lemma {:induction false} RemovalAgreesIff(persisted: seq<Spec>, exact: bool, removal: Spec, m: Mutation)
    requires forall i :: 0 <= i < |persisted| ==> Normal(persisted[i]) == persisted[i]
    requires MutationOf(OpText(Remove, exact), removal) == Some(m)
    ensures StagedAfterRemoval(persisted, removal, m) == GroupAfterRemoval(persisted, removal) <==>
            || removal.version.Some? || FirstMatch(persisted, removal).None?
            || NormalVersion(FirstMatch(persisted, removal).value.version) == V1
  {
    var t, version := removal.tunnelID, NormalVersion(removal.version);
    forall p | p in persisted ensures KeepAfter(removal, version)(p) <==> InGroup(t, version)(p) && NoMatch(removal)(p) {
    }
    FilterFilter(persisted, InGroup(t, version), NoMatch(removal), KeepAfter(removal, version));
  }

  // ----------------------------------------------------------- disjoint listeners

  ghost predicate Disjoint(list: seq<Spec>) {
    forall i, j :: 0 <= i < j < |list| ==> !ListenConflict(list[i], list[j])
  }

  lemma {:induction false} FilterDisjoint(list: seq<Spec>, keep: Spec -> bool)
    requires Disjoint(list)
    ensures Disjoint(Filter(list, keep))
  {
    if list != [] {
      var init, last := list[..|list| - 1], list[|list| - 1];
      FilterDisjoint(init, keep);
      var r := Filter(init, keep);
      forall i | 0 <= i < |r| ensures !ListenConflict(r[i], last) {
        FilterMember(init, keep, r[i]);
        var k :| 0 <= k < |init| && init[k] == r[i];
        assert list[k] == r[i];
      }
    }
  }

  /** The mutation appends an entry and removes nothing for it that it could collide with. */
  predicate AppendsBlindly(m: Mutation, tunnelID: int, version: Version) {
    m.append && !m.replaceConflicts && Belongs(Normal(m.spec), tunnelID, version)
  }

  ghost predicate NoCollision(list: seq<Spec>, m: Mutation, tunnelID: int, version: Version) {
    AppendsBlindly(m, tunnelID, version) ==>
      forall e :: e in list && NoMatch(m.spec)(e) ==> !ListenConflict(e, Normal(m.spec))
  }

  lemma KeptProps(list: seq<Spec>, m: Mutation)
    requires Disjoint(list)
    ensures Disjoint(Kept(list, m))
    ensures forall e :: e in Kept(list, m) ==> e in list && NoMatch(m.spec)(e) && (m.replaceConflicts ==> !ListenConflict(e, m.spec))
    ensures !m.replaceConflicts ==> forall e :: e in list && NoMatch(m.spec)(e) ==> e in Kept(list, m)
  {
    var unmatched := Filter(list, NoMatch(m.spec));
    var other := Filter(unmatched, OtherRule(m.spec.ruleID));
    FilterDisjoint(list, NoMatch(m.spec));
    FilterDisjoint(unmatched, OtherRule(m.spec.ruleID));
    FilterDisjoint(other, NoConflict(m.spec));
    forall e
      ensures e in unmatched <==> e in list && NoMatch(m.spec)(e)
      ensures e in Filter(other, NoConflict(m.spec)) ==> e in unmatched && !ListenConflict(e, m.spec)
    {
      FilterMember(list, NoMatch(m.spec), e);
      FilterMember(unmatched, OtherRule(m.spec.ruleID), e);
      FilterMember(other, NoConflict(m.spec), e);
    }
  }

  lemma DisjointAppend(kept: seq<Spec>, c: Spec)
    requires Disjoint(kept)
    ensures Disjoint(kept + [c]) <==> forall e :: e in kept ==> !ListenConflict(e, c)
  {
    var all := kept + [c];
    if Disjoint(all) {
      forall e | e in kept ensures !ListenConflict(e, c) {
        var i :| 0 <= i < |kept| && kept[i] == e;
        assert all[i] == e && all[|kept|] == c;
      }
    }
  }

  /**
   One action of a batch, whatever its text, keeps the listening sockets pairwise disjoint if
   and only if it does not append, without replacing, beside an entry that listens on a socket
   of its own.
   */
  lemma MutateDisjointIff(list: seq<Spec>, op: OpText, raw: Spec, m: Mutation, tunnelID: int, version: Version)
    requires Disjoint(list) && MutationOf(op, raw) == Some(m)
    ensures Disjoint(Mutate(list, m, tunnelID, version)) <==> NoCollision(list, m, tunnelID, version)
  {
    var kept := Kept(list, m);
    KeptProps(list, m);
    DisjointAppend(kept, Normal(m.spec));
  }

  /** For an apply written with blanks around it: exactly if no surviving entry has one of its sockets. */
  lemma PaddedApplyDisjointIff(list: seq<Spec>, raw: Spec, m: Mutation, tunnelID: int, version: Version)
    requires Disjoint(list) && MutationOf(OpText(Apply, false), raw) == Some(m)
    ensures Disjoint(Mutate(list, m, tunnelID, version)) <==>
            (Belongs(Normal(m.spec), tunnelID, version) ==>
               forall e :: e in list && NoMatch(m.spec)(e) ==> !ListenConflict(e, Normal(m.spec)))
  {
    MutateDisjointIff(list, OpText(Apply, false), raw, m, tunnelID, version);
  }

  /** The mutation comes from an action. */
  ghost predicate Sourced(m: Mutation) {
    exists op, raw :: MutationOf(op, raw) == Some(m)
  }

  ghost predicate FromActions(ms: seq<Mutation>) {
    forall i :: 0 <= i < |ms| ==> Sourced(ms[i])
  }

  /** The list after the first k mutations. */
  function Staging(list: seq<Spec>, ms: seq<Mutation>, k: nat, tunnelID: int, version: Version): seq<Spec>
    requires k <= |ms|
  {
    if k == 0 then list else Mutate(Staging(list, ms, k - 1, tunnelID, version), ms[k - 1], tunnelID, version)
  }

  lemma {:induction false} StagingIsMutateAll(list: seq<Spec>, ms: seq<Mutation>, k: nat, tunnelID: int, version: Version)
    requires k <= |ms|
    ensures Staging(list, ms, k, tunnelID, version) == MutateAll(list, ms[..k], tunnelID, version)
  {
    if k > 0 {
      assert ms[..k][..k - 1] == ms[..k - 1];
      StagingIsMutateAll(list, ms, k - 1, tunnelID, version);
    }
  }

  ghost predicate DisjointAt(list: seq<Spec>, ms: seq<Mutation>, k: nat, tunnelID: int, version: Version) {
    k <= |ms| && Disjoint(Staging(list, ms, k, tunnelID, version))
  }

  ghost predicate SafeAt(list: seq<Spec>, ms: seq<Mutation>, k: nat, tunnelID: int, version: Version) {
    k < |ms| && NoCollision(Staging(list, ms, k, tunnelID, version), ms[k], tunnelID, version)
  }

  lemma OneStepDisjointIff(list: seq<Spec>, ms: seq<Mutation>, k: nat, tunnelID: int, version: Version)
    requires FromActions(ms) && k < |ms| && DisjointAt(list, ms, k, tunnelID, version)
    ensures DisjointAt(list, ms, k + 1, tunnelID, version) <==> SafeAt(list, ms, k, tunnelID, version)
  {
    var op, raw :| MutationOf(op, raw) == Some(ms[k]);
    MutateDisjointIff(Staging(list, ms, k, tunnelID, version), op, raw, ms[k], tunnelID, version);
  }

  lemma {:induction false} SafeStepsKeep(list: seq<Spec>, ms: seq<Mutation>, k: nat, tunnelID: int, version: Version)
    requires Disjoint(list) && FromActions(ms) && k <= |ms|
    requires forall i: nat :: i < k ==> SafeAt(list, ms, i, tunnelID, version)
    ensures DisjointAt(list, ms, k, tunnelID, version)
  {
    if k == 0 {
      assert Staging(list, ms, 0, tunnelID, version) == list;
    } else {
      var before := k - 1;
      SafeStepsKeep(list, ms, before, tunnelID, version);
      assert SafeAt(list, ms, before, tunnelID, version);
      OneStepDisjointIff(list, ms, before, tunnelID, version);
    }
  }

  /** Throughout a batch no two staged entries share a socket, if and only if no step appends blindly onto one. */
  lemma {:induction false} BatchDisjointIff(list: seq<Spec>, ms: seq<Mutation>, tunnelID: int, version: Version)
    requires Disjoint(list) && FromActions(ms)
    ensures (forall k: nat :: k <= |ms| ==> DisjointAt(list, ms, k, tunnelID, version)) <==>
            forall k: nat :: k < |ms| ==> SafeAt(list, ms, k, tunnelID, version)
  {
    if forall k: nat :: k <= |ms| ==> DisjointAt(list, ms, k, tunnelID, version) {
      forall k: nat | k < |ms| ensures SafeAt(list, ms, k, tunnelID, version) {
        OneStepDisjointIff(list, ms, k, tunnelID, version);
      }
    } else if forall k: nat :: k < |ms| ==> SafeAt(list, ms, k, tunnelID, version) {
      var k: nat :| k <= |ms| && !DisjointAt(list, ms, k, tunnelID, version);
      SafeStepsKeep(list, ms, k, tunnelID, version);
      assert false;
    }
  }

  /** So a batch of removals and exact applies always keeps them disjoint. */
  lemma {:induction false} BatchKeepsDisjoint(list: seq<Spec>, ms: seq<Mutation>, tunnelID: int, version: Version)
    requires Disjoint(list) && FromActions(ms)
    requires forall i :: 0 <= i < |ms| && ms[i].append ==> ms[i].replaceConflicts
    ensures Disjoint(MutateAll(list, ms, tunnelID, version))
  {
    forall i: nat | i < |ms| ensures SafeAt(list, ms, i, tunnelID, version) {
    }
    SafeStepsKeep(list, ms, |ms|, tunnelID, version);
    StagingIsMutateAll(list, ms, |ms|, tunnelID, version);
    assert ms[..|ms|] == ms;
  }
}
