/**
 FXP entry specifications (agent/main.go): normalization of one entry, the
 removal and listen-conflict tests, and the canonical form of an entry group.
 */
module FxpSpecs {
  import opened ActionKeys
  import opened Options

  datatype Role = NoRole | EntryRole | OtherRole
  datatype Version = V1 | V2

  /**
   `version` and `protocol` are None when the field is empty; `rest` stands for the
   fields that neither the index nor the normal form look at.
   */
  datatype Spec = Spec(
    role: Role,
    version: Option<Version>,
    tunnelID: int,
    ruleID: int,
    listenPort: int,
    udpListenPort: int,
    protocol: Option<Protocol>,
    key: string,
    rest: nat)

  function NormalVersion(v: Option<Version>): Version {
    if v == Some(V2) then V2 else V1
  }

  function NormalProtocol(p: Option<Protocol>): Protocol {
    if p.Some? then p.value else Tcp
  }

  function Normal(s: Spec): Spec {
    s.(version := Some(NormalVersion(s.version)),
       protocol := Some(NormalProtocol(s.protocol)),
       udpListenPort := if s.udpListenPort <= 0 then s.listenPort else s.udpListenPort)
  }

  predicate IsSharedEntry(s: Spec) {
    s.role.EntryRole? && s.tunnelID > 0 && s.ruleID > 0 && s.listenPort > 0
  }

  predicate Overlap(a: Protocol, b: Protocol) {
    a.Both? || b.Both? || a == b
  }

  predicate RemovalMatches(request: Spec, entry: Spec) {
    var e := Normal(entry);
    && IsSharedEntry(e)
    && (request.role.NoRole? || request.role == e.role)
    && (request.tunnelID <= 0 || request.tunnelID == e.tunnelID)
    && (request.version.None? || NormalVersion(request.version) == e.version.value)
    && (request.ruleID <= 0 || request.ruleID == e.ruleID)
    && (request.listenPort <= 0 || request.listenPort == e.listenPort)
    && (request.protocol.None? || Overlap(e.protocol.value, request.protocol.value))
  }

  /** A removal matches an entry that has everything the removal sets; protocols need only overlap. */
  lemma RemovalMeaning(r: Spec, e: Spec)
    ensures RemovalMatches(r, e) <==>
            && e.role == EntryRole && e.tunnelID > 0 && e.ruleID > 0 && e.listenPort > 0
            && r.role != OtherRole
            && (r.tunnelID > 0 ==> r.tunnelID == e.tunnelID) && (r.ruleID > 0 ==> r.ruleID == e.ruleID)
            && (r.listenPort > 0 ==> r.listenPort == e.listenPort)
            && (r.version.Some? ==> (r.version == Some(V2) <==> e.version == Some(V2)))
            && (r.protocol.Some? ==> (var p := if e.protocol == None then Tcp else e.protocol.value;
                                      p == Both || r.protocol == Some(Both) || r.protocol == Some(p)))
  {
  }

  datatype Endpoint = Endpoint(udp: bool, port: int)

  /** The sockets an entry listens on, as the index computes them. */
  function Endpoints(s: Spec): seq<Endpoint> {
    var p := NormalProtocol(s.protocol);
    (if !p.Udp? && s.listenPort > 0 then [Endpoint(false, s.listenPort)] else []) +
    (if !p.Tcp? && s.udpListenPort > 0 then [Endpoint(true, s.udpListenPort)] else [])
  }

  datatype Lane = TcpLane | UdpLane

  function RuntimeProtocols(p: Protocol): seq<Lane> {
    match p
    case Udp => [UdpLane]
    case Both => [TcpLane, UdpLane]
    case Tcp => [TcpLane]
  }

  /** Each protocol's port, protocols without a port left out. */
  function PortsOf(s: Spec, lanes: seq<Lane>): map<Lane, int> {
    if lanes == [] then map[]
    else
      var m, lane := PortsOf(s, lanes[..|lanes| - 1]), lanes[|lanes| - 1];
      var port := if lane.UdpLane? then s.udpListenPort else s.listenPort;
      if port > 0 then m[lane := port] else m
  }

  /** What an entry listens on, by protocol. */
  function ListenEndpoints(s: Spec): map<Lane, int> {
    var n := Normal(s);
    PortsOf(n, RuntimeProtocols(n.protocol.value))
  }

  /** Some protocol has the same positive port in both. */
  predicate ListenConflict(left: Spec, right: Spec) {
    var l, r := ListenEndpoints(left), ListenEndpoints(right);
    exists i, j :: i in l && j in r && l[i] > 0 && l[i] == r[j] && i == j
  }

  lemma PortsMeaning(s: Spec)
    requires Normal(s) == s
    ensures forall lane :: lane in ListenEndpoints(s) <==>
              if lane.UdpLane? then s.protocol != Some(Tcp) && s.udpListenPort > 0 else s.protocol != Some(Udp) && s.listenPort > 0
    ensures forall lane :: lane in ListenEndpoints(s) ==>
              ListenEndpoints(s)[lane] == if lane.UdpLane? then s.udpListenPort else s.listenPort
  {
    var lanes := RuntimeProtocols(s.protocol.value);
    assert lanes[..|lanes| - 1] == if s.protocol == Some(Both) then [TcpLane] else [];
    assert [TcpLane][..0] == [];
    assert PortsOf(s, []) == map[];
    assert PortsOf(s, [TcpLane]) == if s.listenPort > 0 then map[TcpLane := s.listenPort] else map[];
  }

  /** Of normalized entries, a conflict by protocols and ports is a socket that the index files both under. */
  lemma ConflictIsSharedSocket(a: Spec, b: Spec)
    requires Normal(a) == a && Normal(b) == b
    ensures ListenConflict(a, b) <==> exists e :: e in Endpoints(a) && e in Endpoints(b)
  {
    PortsMeaning(a);
    PortsMeaning(b);
    var l, r := ListenEndpoints(a), ListenEndpoints(b);
    if ListenConflict(a, b) {
      var i, j :| i in l && j in r && l[i] > 0 && l[i] == r[j] && i == j;
      var e := Endpoint(i.UdpLane?, l[i]);
      assert e in Endpoints(a) && e in Endpoints(b);
    }
    if e :| e in Endpoints(a) && e in Endpoints(b) {
      var i := if e.udp then UdpLane else TcpLane;
      assert i in l && i in r && l[i] == r[i] == e.port;
    }
  }

  // --------------------------------------------------------- canonical group form

  /** Rule, port and protocol; protocols sort as the texts "both", "tcp", "udp". */
  datatype Identity = Identity(rule: int, port: int, protocol: int)

  function ProtocolRank(p: Protocol): int {
    match p
    case Both => 0
    case Tcp => 1
    case Udp => 2
  }

  function IdentityOf(s: Spec): Identity {
    Identity(s.ruleID, s.listenPort, ProtocolRank(NormalProtocol(s.protocol)))
  }

  predicate Less(a: Identity, b: Identity) {
    a.rule < b.rule || (a.rule == b.rule && (a.port < b.port || (a.port == b.port && a.protocol < b.protocol)))
  }

  predicate Ascending(s: seq<Spec>) {
    forall i, j :: 0 <= i < j < |s| ==> Less(IdentityOf(s[i]), IdentityOf(s[j]))
  }

  /** Entries are listed by rule, then by port, then by protocol as its text sorts: both, tcp, udp. */
  lemma OrderMeaning(a: Spec, b: Spec)
    ensures var pa, pb := if a.protocol == None then Tcp else a.protocol.value, if b.protocol == None then Tcp else b.protocol.value;
            Less(IdentityOf(a), IdentityOf(b)) <==>
              || a.ruleID < b.ruleID
              || (a.ruleID == b.ruleID && a.listenPort < b.listenPort)
              || (a.ruleID == b.ruleID && a.listenPort == b.listenPort && ((pa == Both && pb != Both) || (pa == Tcp && pb == Udp)))
  {
  }

  /** An entry as a member of the group: forced into the group's tunnel and transport. */
  function Adopt(s: Spec, tunnelID: int, version: Version): Spec {
    Normal(s.(role := EntryRole, tunnelID := tunnelID, version := Some(version)))
  }

  /** A member is usable whatever role, tunnel and transport it names: they become the group's, and nothing else changes but what is empty. */
  lemma AdoptMeaning(s: Spec, tunnelID: int, version: Version)
    ensures var a := Adopt(s, tunnelID, version);
            && (Usable(a) <==> tunnelID > 0 && s.ruleID > 0 && s.listenPort > 0 && s.key != "")
            && a == Spec(EntryRole, Some(version), tunnelID, s.ruleID, s.listenPort, if s.udpListenPort > 0 then s.udpListenPort else s.listenPort,
                         if s.protocol == None then Some(Tcp) else s.protocol, s.key, s.rest)
  {
    assert version.V1? || version.V2?;
  }

  predicate Usable(s: Spec) {
    IsSharedEntry(s) && s.key != ""
  }

  /** The usable members, adopted, in order. */
  function Members(entries: seq<Spec>, tunnelID: int, version: Version): seq<Spec> {
    if entries == [] then []
    else
      var e := Adopt(entries[|entries| - 1], tunnelID, version);
      Members(entries[..|entries| - 1], tunnelID, version) + if Usable(e) then [e] else []
  }

  /** For every identity, the last member that has it. */
  function LastWriter(members: seq<Spec>): map<Identity, Spec> {
    if members == [] then map[]
    else LastWriter(members[..|members| - 1])[IdentityOf(members[|members| - 1]) := members[|members| - 1]]
  }

  /** `s` lists exactly the values of `m`, in identity order. */
  ghost predicate Lists(s: seq<Spec>, m: map<Identity, Spec>) {
    && Ascending(s)
    && (forall i :: 0 <= i < |s| ==> IdentityOf(s[i]) in m && m[IdentityOf(s[i])] == s[i])
    && (forall k :: k in m ==> m[k] in s && IdentityOf(m[k]) == k)
  }

  lemma {:induction false} LastWriterKeys(members: seq<Spec>)
    ensures forall k :: k in LastWriter(members) ==> IdentityOf(LastWriter(members)[k]) == k && LastWriter(members)[k] in members
  {
    if members != [] {
      LastWriterKeys(members[..|members| - 1]);
    }
  }

  /** The last entry of an identity wins. */
  lemma {:induction false} LastWriterIsLast(members: seq<Spec>, i: nat)
    requires i < |members| && forall j :: i < j < |members| ==> IdentityOf(members[j]) != IdentityOf(members[i])
    ensures IdentityOf(members[i]) in LastWriter(members) && LastWriter(members)[IdentityOf(members[i])] == members[i]
  {
    var n := |members| - 1;
    if i < n {
      LastWriterIsLast(members[..n], i);
    }
  }

  /** An ascending listing is unique: the normal form depends on the last-writer map alone. */
  lemma {:induction false} ListingUnique(a: seq<Spec>, b: seq<Spec>, m: map<Identity, Spec>)
    requires Lists(a, m) && Lists(b, m)
    ensures a == b
  {
    if a != [] {
      var x := a[|a| - 1];
      assert m[IdentityOf(x)] in b;
      var y := b[|b| - 1];
      assert m[IdentityOf(y)] in a;
      LastIsLargest(a, y);
      LastIsLargest(b, x);
      assert x == y;
      var rest := m - {IdentityOf(x)};
      ListingInit(a, m);
      ListingInit(b, m);
      ListingUnique(a[..|a| - 1], b[..|b| - 1], rest);
      assert a == a[..|a| - 1] + [x] && b == b[..|b| - 1] + [x];
    }
  }

  lemma LastIsLargest(a: seq<Spec>, y: Spec)
    requires a != [] && Ascending(a) && y in a
    ensures y == a[|a| - 1] || Less(IdentityOf(y), IdentityOf(a[|a| - 1]))
  {
  }

  lemma ListingInit(a: seq<Spec>, m: map<Identity, Spec>)
    requires a != [] && Lists(a, m)
    ensures Lists(a[..|a| - 1], m - {IdentityOf(a[|a| - 1])})
  {
    var init, rest := a[..|a| - 1], m - {IdentityOf(a[|a| - 1])};
    forall i | 0 <= i < |init| ensures IdentityOf(init[i]) in rest && rest[IdentityOf(init[i])] == init[i] {
      assert Less(IdentityOf(a[i]), IdentityOf(a[|a| - 1]));
    }
    forall k | k in rest ensures rest[k] in init {
      assert m[k] in a;
      var i :| 0 <= i < |a| && a[i] == m[k];
      assert i < |a| - 1 && init[i] == m[k];
    }
  }

  // ------------------------------------------------------------ the normalizer

  /** Puts an entry into an identity-ordered list without that identity. */
  function Insert(s: seq<Spec>, e: Spec): seq<Spec> {
    if s == [] then [e]
    else if Less(IdentityOf(e), IdentityOf(s[0])) then [e] + s
    else [s[0]] + Insert(s[1..], e)
  }

  lemma {:induction false} InsertProps(s: seq<Spec>, e: Spec)
    requires Ascending(s) && forall i :: 0 <= i < |s| ==> IdentityOf(s[i]) != IdentityOf(e)
    ensures Ascending(Insert(s, e)) && forall x :: x in Insert(s, e) <==> x in s || x == e
  {
    if s != [] && !Less(IdentityOf(e), IdentityOf(s[0])) {
      InsertProps(s[1..], e);
      var r := Insert(s[1..], e);
      assert s == [s[0]] + s[1..];
      forall j | 0 <= j < |r| ensures Less(IdentityOf(s[0]), IdentityOf(r[j])) {
        assert r[j] in r;
      }
    }
  }

  method SortEntries(entries: seq<Spec>) returns (r: seq<Spec>)
    requires forall i, j :: 0 <= i < j < |entries| ==> IdentityOf(entries[i]) != IdentityOf(entries[j])
    ensures Ascending(r) && forall x :: x in r <==> x in entries
  {
    r := [];
    for i := 0 to |entries|
      invariant Ascending(r) && forall x :: x in r <==> x in entries[..i]
    {
      forall k | 0 <= k < |r| ensures IdentityOf(r[k]) != IdentityOf(entries[i]) {
        assert r[k] in entries[..i];
        var j :| 0 <= j < i && entries[j] == r[k];
      }
      InsertProps(r, entries[i]);
      assert entries[..i + 1] == entries[..i] + [entries[i]];
      r := Insert(r, entries[i]);
    }
    assert entries[..|entries|] == entries;
  }

  /** The positions in `entries` are what `byIdentity` says, and the entries are the last writers so far. */
  ghost predicate Deduped(entries: seq<Spec>, byIdentity: map<Identity, nat>, last: map<Identity, Spec>) {
    && byIdentity.Keys == last.Keys
    && (forall k :: k in byIdentity ==> byIdentity[k] < |entries| && entries[byIdentity[k]] == last[k] && IdentityOf(last[k]) == k)
    && (forall i :: 0 <= i < |entries| ==> IdentityOf(entries[i]) in byIdentity && byIdentity[IdentityOf(entries[i])] == i)
  }

  lemma DedupedStep(entries: seq<Spec>, byIdentity: map<Identity, nat>, last: map<Identity, Spec>, e: Spec)
    requires Deduped(entries, byIdentity, last)
    ensures var k := IdentityOf(e);
            if k in byIdentity then Deduped(entries[byIdentity[k] := e], byIdentity, last[k := e])
            else Deduped(entries + [e], byIdentity[k := |entries|], last[k := e])
  {
  }

  lemma DedupedLists(entries: seq<Spec>, byIdentity: map<Identity, nat>, last: map<Identity, Spec>, sorted: seq<Spec>)
    requires Deduped(entries, byIdentity, last) && Ascending(sorted) && forall x :: x in sorted <==> x in entries
    ensures Lists(sorted, last)
  {
    forall i | 0 <= i < |sorted| ensures IdentityOf(sorted[i]) in last && last[IdentityOf(sorted[i])] == sorted[i] {
      assert sorted[i] in entries;
    }
    forall k | k in last ensures last[k] in sorted && IdentityOf(last[k]) == k {
      assert entries[byIdentity[k]] in entries;
    }
  }

  /** Whatever the entries said, the listed ones are entries of the group, with a rule, a port and a key. */
  lemma {:induction false} ListedBelong(n: seq<Spec>, entries: seq<Spec>, tunnelID: int, version: Version)
    requires Lists(n, LastWriter(Members(entries, tunnelID, version)))
    ensures forall e :: e in n ==>
              && e.role == EntryRole && e.tunnelID == tunnelID > 0 && e.version == Some(version)
              && e.ruleID > 0 && e.listenPort > 0 && e.udpListenPort > 0 && e.protocol.Some? && e.key != ""
  {
    var members := Members(entries, tunnelID, version);
    LastWriterKeys(members);
    MembersAdopted(entries, tunnelID, version);
    forall e | e in n ensures e in members {
      var i :| 0 <= i < |n| && n[i] == e;
    }
  }

  lemma {:induction false} MembersAdopted(entries: seq<Spec>, tunnelID: int, version: Version)
    ensures forall e :: e in Members(entries, tunnelID, version) ==>
              && e.role == EntryRole && e.tunnelID == tunnelID > 0 && e.version == Some(version)
              && e.ruleID > 0 && e.listenPort > 0 && e.udpListenPort > 0 && e.protocol.Some? && e.key != ""
  {
    if entries != [] {
      MembersAdopted(entries[..|entries| - 1], tunnelID, version);
      var e := Adopt(entries[|entries| - 1], tunnelID, version);
      assert version.V1? || version.V2?;
      assert e.version == Some(version);
    }
  }

  /** normalizeFXPSpec on a group: filter, keep the last entry per identity, sort. */
  method NormalizeGroup(entries: seq<Spec>, tunnelID: int, version: Version) returns (r: seq<Spec>)
    ensures Lists(r, LastWriter(Members(entries, tunnelID, version)))
  {
    var kept: seq<Spec> := [];
    var byIdentity: map<Identity, nat> := map[];
    for i := 0 to |entries|
      invariant Deduped(kept, byIdentity, LastWriter(Members(entries[..i], tunnelID, version)))
    {
      ghost var before := Members(entries[..i], tunnelID, version);
      assert entries[..i + 1][..i] == entries[..i];
      var e := Adopt(entries[i], tunnelID, version);
      if Usable(e) {
        assert (before + [e])[..|before|] == before;
        DedupedStep(kept, byIdentity, LastWriter(before), e);
        var k := IdentityOf(e);
        if k in byIdentity {
          kept := kept[byIdentity[k] := e];
        } else {
          byIdentity := byIdentity[k := |kept|];
          kept := kept + [e];
        }
      } else {
        assert before + [] == before;
      }
    }
    assert entries[..|entries|] == entries;
    r := SortEntries(kept);
    DedupedLists(kept, byIdentity, LastWriter(Members(entries, tunnelID, version)), r);
  }

  // --------------------------------------------------------- canonical, idempotent

  lemma {:induction false} MembersUsable(entries: seq<Spec>, tunnelID: int, version: Version)
    ensures forall e :: e in Members(entries, tunnelID, version) ==> Usable(e) && Adopt(e, tunnelID, version) == e
  {
    if entries != [] {
      MembersUsable(entries[..|entries| - 1], tunnelID, version);
    }
  }

  lemma {:induction false} MembersOfNormal(s: seq<Spec>, tunnelID: int, version: Version)
    requires forall i :: 0 <= i < |s| ==> Usable(s[i]) && Adopt(s[i], tunnelID, version) == s[i]
    ensures Members(s, tunnelID, version) == s
  {
    if s != [] {
      MembersOfNormal(s[..|s| - 1], tunnelID, version);
      assert s == s[..|s| - 1] + [s[|s| - 1]];
    }
  }

  /** A list in identity order is its own last-writer listing. */
  lemma {:induction false} AscendingLists(s: seq<Spec>)
    requires Ascending(s)
    ensures Lists(s, LastWriter(s))
  {
    LastWriterKeys(s);
    forall i | 0 <= i < |s| ensures IdentityOf(s[i]) in LastWriter(s) && LastWriter(s)[IdentityOf(s[i])] == s[i] {
      LastWriterIsLast(s, i);
    }
  }

  /** Two inputs with the same last-writer map have the same normal form. */
  lemma {:induction false} NormalFormIsCanonical(e1: seq<Spec>, e2: seq<Spec>, tunnelID: int, version: Version, n1: seq<Spec>, n2: seq<Spec>)
    requires Lists(n1, LastWriter(Members(e1, tunnelID, version))) && Lists(n2, LastWriter(Members(e2, tunnelID, version)))
    ensures LastWriter(Members(e1, tunnelID, version)) == LastWriter(Members(e2, tunnelID, version)) <==> n1 == n2
  {
    var m1, m2 := LastWriter(Members(e1, tunnelID, version)), LastWriter(Members(e2, tunnelID, version));
    if m1 == m2 {
      ListingUnique(n1, n2, m1);
    }
    if n1 == n2 {
      forall k ensures k in m1 <==> k in m2 {
        assert k in m1 ==> m1[k] in n2;
        assert k in m2 ==> m2[k] in n1;
      }
      forall k | k in m1 ensures m1[k] == m2[k] {
        assert m1[k] in n2;
      }
      assert m1 == m2;
    }
  }

  /** Normalizing a normal form changes nothing. */
  lemma {:induction false} NormalFormIsFixed(entries: seq<Spec>, tunnelID: int, version: Version, n1: seq<Spec>, n2: seq<Spec>)
    requires Lists(n1, LastWriter(Members(entries, tunnelID, version))) && Lists(n2, LastWriter(Members(n1, tunnelID, version)))
    ensures n2 == n1
  {
    var m := Members(entries, tunnelID, version);
    MembersUsable(entries, tunnelID, version);
    LastWriterKeys(m);
    forall i | 0 <= i < |n1| ensures Usable(n1[i]) && Adopt(n1[i], tunnelID, version) == n1[i] {
      assert LastWriter(m)[IdentityOf(n1[i])] == n1[i];
    }
    MembersOfNormal(n1, tunnelID, version);
    AscendingLists(n1);
    ListingUnique(n1, n2, LastWriter(n1));
  }
}
