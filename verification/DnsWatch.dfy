/**
 The DNS watcher (agent/dnswatch.go, updateDNSWatchWithLookupAt): every scan looks all
 watched hosts up; a new answer replaces the stable snapshot of a host only after
 it was confirmed, and the value just replaced is held down for a while.
 */
module DnsWatch {
  import opened Options
  import DC = DnsCompaction

  type Addresses = seq<string>

  const CONFIRMATIONS: nat := 3
  const WINDOW: int := 10      // seconds
  const HOLD_DOWN: int := 300  // seconds

  datatype Candidate = Candidate(ips: Addresses, confirmations: nat, firstSeen: int)
  datatype Retired = Retired(ips: Addresses, replacedAt: int)

  /** What is known of one host; an empty `stable` means no snapshot. */
  datatype Host = Host(stable: Addresses, candidate: Option<Candidate>, retired: Option<Retired>)

  const UNKNOWN := Host([], None, None)

  /** A normalized host name, or "" when the name was refused. */
  datatype Item = Item(host: string, scope: string, refID: int)

  // ------------------------------------------------------------ one host, one scan

  function StillRetired(r: Option<Retired>, now: int): Option<Retired> {
    if r.Some? && |r.value.ips| > 0 && now - r.value.replacedAt < HOLD_DOWN then r else None
  }

  function Counted(c: Option<Candidate>, ips: Addresses, now: int): Candidate {
    if c.Some? && c.value.ips == ips then c.value.(confirmations := c.value.confirmations + 1)
    else Candidate(ips, 1, now)
  }

  predicate Confirmed(c: Candidate, now: int) {
    c.confirmations >= CONFIRMATIONS && now - c.firstSeen >= WINDOW
  }

  function Step(h: Host, ips: Addresses, now: int): Host {
    var kept := StillRetired(h.retired, now);
    if ips == [] then Host(h.stable, None, kept)
    else if h.stable == [] then Host(ips, None, kept)
    else if h.stable == ips || (kept.Some? && kept.value.ips == ips) then Host(h.stable, None, kept)
    else
      var c := Counted(h.candidate, ips, now);
      if Confirmed(c, now) then Host(ips, None, Some(Retired(h.stable, now)))
      else Host(h.stable, Some(c), kept)
  }

  predicate Changed(before: Host, after: Host) {
    before.stable != [] && after.stable != before.stable
  }

  // ----------------------------------------------------------------- the whole scan

  function Lower(s: string): string {
    seq(|s|, i requires 0 <= i < |s| => if 'A' <= s[i] <= 'Z' then s[i] - 'A' + 'a' else s[i])
  }

  /** The name to look up for a key: the last item's; "" when the key is not watched. */
  function NameOf(items: seq<Item>, k: string): string {
    if items == [] then ""
    else
      var last := items[|items| - 1];
      if last.host != "" && Lower(last.host) == k then last.host else NameOf(items[..|items| - 1], k)
  }

  /** Capital letters become small ones, and nothing else changes. */
  lemma LowerMeaning(s: string)
    ensures |Lower(s)| == |s| && Lower(Lower(s)) == Lower(s)
    ensures forall i :: 0 <= i < |s| ==>
              if 'A' <= s[i] <= 'Z' then 'a' <= Lower(s)[i] <= 'z' && Lower(s)[i] as int - 'a' as int == s[i] as int - 'A' as int
              else Lower(s)[i] == s[i]
  {
  }

  predicate Named(item: Item, k: string) {
    item.host != "" && Lower(item.host) == k
  }

  /** The last item whose host is k, whatever its capitals. */
  ghost predicate LastNamed(items: seq<Item>, k: string, i: int) {
    0 <= i < |items| && Named(items[i], k) && forall j :: i < j < |items| ==> !Named(items[j], k)
  }

  lemma LastNamedPrefix(items: seq<Item>, k: string, i: int)
    requires items != []
    ensures var n := |items| - 1; LastNamed(items, k, i) <==> if Named(items[n], k) then i == n else LastNamed(items[..n], k, i)
  {
    var n := |items| - 1;
    assert forall j :: 0 <= j < n ==> items[..n][j] == items[j];
    if i < n && LastNamed(items, k, i) {
      assert !Named(items[n], k);
    }
  }

  /** A key is watched exactly if some item names it, and looked up as the last of them writes it. */
  lemma {:induction false} NameMeaning(items: seq<Item>, k: string)
    ensures NameOf(items, k) != "" <==> exists i :: LastNamed(items, k, i)
    ensures forall i :: LastNamed(items, k, i) ==> NameOf(items, k) == items[i].host
  {
    if items != [] {
      var n := |items| - 1;
      NameMeaning(items[..n], k);
      forall i ensures LastNamed(items, k, i) <==> if Named(items[n], k) then i == n else LastNamed(items[..n], k, i) {
        LastNamedPrefix(items, k, i);
      }
      if NameOf(items, k) != "" {
        if Named(items[n], k) {
          assert LastNamed(items, k, n);
        } else {
          var i :| LastNamed(items[..n], k, i);
          assert LastNamed(items, k, i);
        }
      }
    }
  }

  /** The three tables of the watcher. */
  datatype Tables = Tables(snapshot: map<string, Addresses>, candidates: map<string, Candidate>, retired: map<string, Retired>)

  function View(t: Tables, k: string): Host {
    Host(if k in t.snapshot then t.snapshot[k] else [],
         if k in t.candidates then Some(t.candidates[k]) else None,
         if k in t.retired then Some(t.retired[k]) else None)
  }

  function After(before: Host, name: string, ips: Addresses, now: int): Host {
    if name == "" then UNKNOWN else Step(before, ips, now)
  }

  predicate IsRef(items: seq<Item>, i: nat, k: string) {
    i < |items| && items[i].host != "" && Lower(items[i].host) == k
  }

  function ReportOf(item: Item, before: Addresses, after: Addresses): DC.Report {
    DC.Report(DC.Key(Lower(item.host), item.scope, item.refID), before, after)
  }

  /** r reports a host whose stable snapshot changed, to one of the items that watch it. */
  ghost predicate Reported(items: seq<Item>, t: Tables, t': Tables, r: DC.Report) {
    Changed(View(t, r.key.host), View(t', r.key.host)) && RefersTo(items, r.key.host, View(t, r.key.host).stable, View(t', r.key.host).stable, r)
  }

  /** r names the host, the scope and reference of one of its items, and both snapshots. */
  ghost predicate RefersTo(items: seq<Item>, k: string, before: Addresses, after: Addresses, r: DC.Report) {
    exists i: nat :: IsRef(items, i, k) && Tells(r, k, items[i], before, after)
  }

  predicate Tells(r: DC.Report, k: string, item: Item, before: Addresses, after: Addresses) {
    r.key.host == k && r.key.scope == item.scope && r.key.refID == item.refID && r.before == before && r.after == after
  }

  /** Every item that names a changed host has a report with its scope and reference and both snapshots. */
  lemma ReportsEveryItem(items: seq<Item>, t: Tables, t': Tables, k: string, i: nat)
    requires i < |items| && items[i].host != "" && Lower(items[i].host) == k
    requires View(t, k).stable != [] && View(t', k).stable != View(t, k).stable
    ensures Reported(items, t, t', DC.Report(DC.Key(k, items[i].scope, items[i].refID), View(t, k).stable, View(t', k).stable))
  {
    var r := DC.Report(DC.Key(k, items[i].scope, items[i].refID), View(t, k).stable, View(t', k).stable);
    assert IsRef(items, i, k) && Tells(r, k, items[i], r.before, r.after);
  }

  /** What the tables hold for a watched host before its turn in the scan. */
  function Carried(h: Host, now: int): Host {
    Host(h.stable, None, StillRetired(h.retired, now))
  }

  ghost predicate SameElsewhere(t: Tables, t': Tables, k: string) {
    forall j :: j != k ==> View(t', j) == View(t, j)
  }

  method Watch(items: seq<Item>) returns (watched: map<string, string>)
    ensures forall k :: k in watched <==> NameOf(items, k) != ""
    ensures forall k :: k in watched ==> watched[k] == NameOf(items, k)
  {
    watched := map[];
    var i := 0;
    while i < |items|
      invariant i <= |items|
      invariant forall k :: k in watched <==> NameOf(items[..i], k) != ""
      invariant forall k :: k in watched ==> watched[k] == NameOf(items[..i], k)
    {
      assert items[..i + 1][..i] == items[..i];
      if items[i].host != "" {
        watched := watched[Lower(items[i].host) := items[i].host];
      }
      i := i + 1;
    }
    assert items[..i] == items;
  }

  method Refs(items: seq<Item>, k: string, before: Addresses, after: Addresses) returns (reports: seq<DC.Report>)
    ensures forall r :: r in reports <==> RefersTo(items, k, before, after, r)
  {
    reports := [];
    var n := 0;
    while n < |items|
      invariant n <= |items|
      invariant forall r :: r in reports <==> RefersTo(items[..n], k, before, after, r)
    {
      if items[n].host != "" && Lower(items[n].host) == k {
        reports := reports + [ReportOf(items[n], before, after)];
      }
      forall r ensures r in reports <==> RefersTo(items[..n + 1], k, before, after, r) {
        RefersStep(items, n, k, before, after, r);
        assert IsRef(items, n, k) ==> (Tells(r, k, items[n], before, after) <==> r == ReportOf(items[n], before, after));
      }
      n := n + 1;
    }
    assert items[..n] == items;
  }

  lemma RefersStep(items: seq<Item>, n: nat, k: string, before: Addresses, after: Addresses, r: DC.Report)
    requires n < |items|
    ensures RefersTo(items[..n + 1], k, before, after, r) <==>
              RefersTo(items[..n], k, before, after, r) || (IsRef(items, n, k) && Tells(r, k, items[n], before, after))
  {
    if RefersTo(items[..n], k, before, after, r) {
      var i: nat :| IsRef(items[..n], i, k) && Tells(r, k, items[..n][i], before, after);
      assert IsRef(items[..n + 1], i, k) && items[..n + 1][i] == items[i];
    }
    if IsRef(items, n, k) && Tells(r, k, items[n], before, after) {
      assert IsRef(items[..n + 1], n, k) && items[..n + 1][n] == items[n];
    }
    if RefersTo(items[..n + 1], k, before, after, r) {
      var i: nat :| IsRef(items[..n + 1], i, k) && Tells(r, k, items[..n + 1][i], before, after);
      assert i < n ==> IsRef(items[..n], i, k) && items[..n][i] == items[i];
    }
  }

  /** The turn of one watched host in a scan: from the old tables `t` into the next ones. */
  method Turn(t: Tables, next: Tables, k: string, ips: Addresses, now: int) returns (next': Tables, waiting: bool)
    requires View(next, k) == Carried(View(t, k), now)
    ensures View(next', k) == Step(View(t, k), ips, now)
    ensures SameElsewhere(next, next', k)
    ensures waiting == View(next', k).candidate.Some?
  {
    next', waiting := next, false;
    if ips == [] {
      return;
    }
    if k !in t.snapshot || t.snapshot[k] == [] {
      next' := next.(snapshot := next.snapshot[k := ips]);
    } else if t.snapshot[k] == ips || (k in next.retired && next.retired[k].ips == ips) {
      next' := next.(snapshot := next.snapshot[k := t.snapshot[k]]);
    } else {
      var c := Candidate(ips, 1, now);
      if k in t.candidates && t.candidates[k].ips == ips {
        c := t.candidates[k].(confirmations := t.candidates[k].confirmations + 1);
      }
      if c.confirmations < CONFIRMATIONS || now - c.firstSeen < WINDOW {
        waiting := true;
        next' := next.(snapshot := next.snapshot[k := t.snapshot[k]], candidates := next.candidates[k := c]);
      } else {
        next' := next.(snapshot := next.snapshot[k := ips], retired := next.retired[k := Retired(t.snapshot[k], now)]);
      }
    }
  }

  /** The tables a scan starts from: what is no longer watched or held down is gone. */
  method Begin(t: Tables, watched: map<string, string>, now: int) returns (next: Tables)
    ensures forall k :: View(next, k) == if k in watched then Carried(View(t, k), now) else UNKNOWN
  {
    next := Tables(
      map k | k in t.snapshot && k in watched && |t.snapshot[k]| > 0 :: t.snapshot[k],
      map[],
      map k | k in t.retired && k in watched && |t.retired[k].ips| > 0 && now - t.retired[k].replacedAt < HOLD_DOWN :: t.retired[k]);
  }

  lemma {:induction false} RefIsWatched(items: seq<Item>, i: nat, k: string)
    requires IsRef(items, i, k)
    ensures NameOf(items, k) != ""
  {
    var n := |items| - 1;
    if i < n {
      assert IsRef(items[..n], i, k);
      RefIsWatched(items[..n], i, k);
    }
  }

  lemma {:induction false} NothingReported(items: seq<Item>, t: Tables, next: Tables, watched: map<string, string>, now: int, r: DC.Report)
    requires forall k :: k in watched <==> NameOf(items, k) != ""
    requires forall k :: View(next, k) == if k in watched then Carried(View(t, k), now) else UNKNOWN
    ensures !Reported(items, t, next, r)
  {
    if RefersTo(items, r.key.host, View(t, r.key.host).stable, View(next, r.key.host).stable, r) {
      var i: nat :| IsRef(items, i, r.key.host);
      RefIsWatched(items, i, r.key.host);
    }
  }

  /** The turn of k adds exactly the reports about k. */
  lemma TurnReports(items: seq<Item>, t: Tables, next: Tables, next': Tables, k: string, now: int)
    requires View(next, k) == Carried(View(t, k), now)
    requires SameElsewhere(next, next', k)
    ensures forall r :: Reported(items, t, next', r) <==>
              Reported(items, t, next, r) ||
              (Changed(View(t, k), View(next', k)) && RefersTo(items, k, View(t, k).stable, View(next', k).stable, r))
  {
    forall r ensures Reported(items, t, next', r) <==>
        Reported(items, t, next, r) ||
        (Changed(View(t, k), View(next', k)) && RefersTo(items, k, View(t, k).stable, View(next', k).stable, r)) {
      assert RefersTo(items, k, View(t, k).stable, View(next', k).stable, r) ==> r.key.host == k;
    }
  }

  /** Hosts in `todo` still wait for their turn, the other watched ones had it. */
  ghost predicate Staged(t: Tables, next: Tables, items: seq<Item>, todo: set<string>, lookup: string -> Addresses, now: int) {
    forall k :: View(next, k) ==
      if k in todo then Carried(View(t, k), now) else After(View(t, k), NameOf(items, k), lookup(NameOf(items, k)), now)
  }

  lemma {:induction false} TurnStages(t: Tables, next: Tables, next': Tables, items: seq<Item>, todo: set<string>, lookup: string -> Addresses, now: int, k: string)
    requires Staged(t, next, items, todo, lookup, now) && k in todo && NameOf(items, k) != ""
    requires SameElsewhere(next, next', k) && View(next', k) == Step(View(t, k), lookup(NameOf(items, k)), now)
    ensures Staged(t, next', items, todo - {k}, lookup, now)
  {
  }

  ghost predicate AnyWaiting(t: Tables) {
    exists k :: View(t, k).candidate.Some?
  }

  lemma TurnWaits(t: Tables, t': Tables, k: string)
    requires SameElsewhere(t, t', k) && View(t, k).candidate.None?
    ensures AnyWaiting(t') <==> AnyWaiting(t) || View(t', k).candidate.Some?
  {
    assert forall j :: View(t, j).candidate.Some? ==> View(t', j).candidate.Some?;
    assert forall j :: View(t', j).candidate.Some? ==> View(t, j).candidate.Some? || j == k;
  }

  /** All watched hosts, in any order. */
  method ScanAll(t: Tables, items: seq<Item>, lookup: string -> Addresses, now: int) returns (next: Tables, waiting: bool, reports: seq<DC.Report>)
    ensures forall k :: View(next, k) == After(View(t, k), NameOf(items, k), lookup(NameOf(items, k)), now)
    ensures forall r :: r in reports <==> Reported(items, t, next, r)
    ensures waiting == AnyWaiting(next)
  {
    var watched := Watch(items);
    next := Begin(t, watched, now);
    var todo := watched.Keys;
    waiting, reports := false, [];
    forall r ensures !Reported(items, t, next, r) {
      NothingReported(items, t, next, watched, now, r);
    }
    assert Staged(t, next, items, todo, lookup, now);
    while todo != {}
      invariant todo <= watched.Keys
      invariant Staged(t, next, items, todo, lookup, now)
      invariant forall r :: r in reports <==> Reported(items, t, next, r)
      invariant waiting == AnyWaiting(next)
      decreases |todo|
    {
      var k :| k in todo;
      var next', w := Turn(t, next, k, lookup(watched[k]), now);
      TurnStages(t, next, next', items, todo, lookup, now, k);
      TurnReports(items, t, next, next', k, now);
      TurnWaits(next, next', k);
      var before, after := View(t, k), View(next', k);
      if Changed(before, after) {
        var more := Refs(items, k, before.stable, after.stable);
        reports := reports + more;
      }
      waiting := waiting || w;
      todo, next := todo - {k}, next';
    }
  }

  class Watcher {
    var tables: Tables
    var pending: seq<DC.Report>

    constructor ()
      ensures forall k :: View(tables, k) == UNKNOWN
      ensures pending == []
    {
      tables, pending := Tables(map[], map[], map[]), [];
    }

    /** One scan at time `now` with the answers of `lookup`; an empty answer is a failed lookup. */
    method Update(items: seq<Item>, lookup: string -> Addresses, now: int) returns (again: bool, reports: seq<DC.Report>)
      modifies this
      ensures forall k :: View(tables, k) == After(View(old(tables), k), NameOf(items, k), lookup(NameOf(items, k)), now)
      ensures forall r :: r in reports <==> Reported(items, old(tables), tables, r)
      ensures pending == if reports == [] then old(pending) else DC.Compact(old(pending) + reports)
      ensures again <==> reports != [] || AnyWaiting(tables)
    {
      var waiting;
      tables, waiting, reports := ScanAll(tables, items, lookup, now);
      if reports != [] {
        pending := DC.CompactReports(pending + reports);
      }
      again := waiting || reports != [];
    }
  }

  // ------------------------------------------------------- a host over many scans

  /** One scan of a watched host. */
  datatype Scan = Scan(now: int, ips: Addresses)

  /** The host after the first n scans since it was first watched. */
  function At(scans: seq<Scan>, n: nat): Host
    requires n <= |scans|
  {
    if n == 0 then UNKNOWN else Step(At(scans, n - 1), scans[n - 1].ips, scans[n - 1].now)
  }

  function Stable(scans: seq<Scan>, n: nat): Addresses
    requires n <= |scans|
  {
    At(scans, n).stable
  }

  /** Time does not run backwards. */
  ghost predicate Clocked(scans: seq<Scan>) {
    forall i, j :: 0 <= i <= j < |scans| ==> scans[i].now <= scans[j].now
  }

  /** Scan n replaced one stable snapshot by another. */
  predicate Replaced(scans: seq<Scan>, n: nat) {
    n < |scans| && Stable(scans, n) != [] && Stable(scans, n + 1) != Stable(scans, n)
  }

  /** The scan that made the last replacement before scan n. */
  function LastReplacement(scans: seq<Scan>, n: nat): (c: Option<nat>)
    requires n <= |scans|
    ensures c.Some? ==> c.value < n
  {
    if n == 0 then None else if Replaced(scans, n - 1) then Some(n - 1) else LastReplacement(scans, n - 1)
  }

  lemma {:induction false} LastReplacementMeaning(scans: seq<Scan>, c: nat, n: nat)
    requires n <= |scans|
    ensures LastReplacement(scans, n) == Some(c) <==> c < n && Replaced(scans, c) && forall i: nat :: c < i < n ==> !Replaced(scans, i)
  {
    if n > 0 && !Replaced(scans, n - 1) {
      LastReplacementMeaning(scans, c, n - 1);
    }
  }

  /** The answer of scan n is the value that was replaced less than five minutes before. */
  predicate HeldDown(scans: seq<Scan>, n: nat)
    requires n < |scans|
  {
    var c := LastReplacement(scans, n);
    c.Some? && scans[n].now - scans[c.value].now < 300 && Stable(scans, c.value) == scans[n].ips
  }

  /** The answer of scan n speaks for a change. */
  predicate Pressing(scans: seq<Scan>, n: nat) {
    n < |scans| && scans[n].ips != [] && Stable(scans, n) != [] && scans[n].ips != Stable(scans, n) && !HeldDown(scans, n)
  }

  /** All scans from j to n speak for the same change. */
  predicate Streak(scans: seq<Scan>, j: nat, n: nat) {
    j <= n < |scans| && forall i: nat :: j <= i <= n ==> Pressing(scans, i) && scans[i].ips == scans[n].ips
  }

  // The retired value is the one the last replacement replaced, until it expires.

  predicate RetiredInv(scans: seq<Scan>, n: nat)
    requires n <= |scans|
  {
    var r, c := At(scans, n).retired, LastReplacement(scans, n);
    if c.None? then r.None?
    else if r.Some? then r.value.ips != [] && r.value == Retired(Stable(scans, c.value), scans[c.value].now)
    else scans[n - 1].now - scans[c.value].now >= HOLD_DOWN
  }

  lemma RetiredStep(h: Host, ips: Addresses, now: int)
    ensures Step(h, ips, now).retired ==
              if Changed(h, Step(h, ips, now)) then Some(Retired(h.stable, now)) else StillRetired(h.retired, now)
  {
  }

  lemma {:induction false} RetiredHolds(scans: seq<Scan>, n: nat)
    requires n <= |scans| && Clocked(scans)
    ensures RetiredInv(scans, n)
  {
    if n > 0 {
      RetiredHolds(scans, n - 1);
      RetiredStep(At(scans, n - 1), scans[n - 1].ips, scans[n - 1].now);
    }
  }

  /** What Step still holds down at scan n is what the history says. */
  lemma {:induction false} HeldMeaning(scans: seq<Scan>, n: nat)
    requires n < |scans| && Clocked(scans)
    ensures var kept := StillRetired(At(scans, n).retired, scans[n].now);
            HeldDown(scans, n) <==> kept.Some? && kept.value.ips == scans[n].ips
  {
    RetiredHolds(scans, n);
  }

  // The candidate counts the longest streak that ends with the previous scan. Streaks are
  // runs of equal marks, one mark for each scan.

  type Mark = Option<Addresses>

  function MarkOf(scans: seq<Scan>, n: nat): Mark {
    if Pressing(scans, n) then Some(scans[n].ips) else None
  }

  function Marks(scans: seq<Scan>): seq<Mark> {
    seq(|scans|, i requires 0 <= i < |scans| => MarkOf(scans, i))
  }

  predicate EqualMarks(m: seq<Mark>, j: nat, n: nat) {
    j <= n < |m| && m[n].Some? && forall i :: j <= i <= n ==> m[i] == m[n]
  }

  lemma StreakIsEqualMarks(scans: seq<Scan>, j: nat, n: nat)
    requires n < |scans|
    ensures Streak(scans, j, n) <==> EqualMarks(Marks(scans), j, n)
  {
    var m := Marks(scans);
    if EqualMarks(m, j, n) {
      forall i: nat | j <= i <= n ensures Pressing(scans, i) && scans[i].ips == scans[n].ips {
        assert m[i] == m[n] && m[i] == MarkOf(scans, i) && m[n] == MarkOf(scans, n);
      }
    }
    if Streak(scans, j, n) {
      forall i | j <= i <= n ensures m[i] == m[n] {
        assert Pressing(scans, i) && m[i] == MarkOf(scans, i) && m[n] == MarkOf(scans, n);
      }
      assert m[n] == MarkOf(scans, n);
    }
  }

  /** The longest run of equal marks up to n has `len` marks. */
  predicate Longest(m: seq<Mark>, len: nat, n: nat) {
    1 <= len <= n + 1 && EqualMarks(m, n + 1 - len, n) && (len <= n ==> m[n - len] != m[n])
  }

  lemma LongestStep(m: seq<Mark>, len: nat, n: nat)
    requires n + 1 < |m| && m[n + 1].Some?
    ensures m[n] != m[n + 1] ==> Longest(m, 1, n + 1)
    ensures m[n] == m[n + 1] && Longest(m, len, n) ==> Longest(m, len + 1, n + 1)
  {
  }

  lemma LongestBounds(m: seq<Mark>, len: nat, j: nat, n: nat)
    requires Longest(m, len, n)
    ensures EqualMarks(m, j, n) ==> n + 1 - len <= j
  {
  }

  predicate Counts(m: seq<Mark>, c: Candidate, first: Scan, n: nat) {
    Longest(m, c.confirmations, n) && m[n] == Some(c.ips) && c.firstSeen == first.now
  }

  predicate CandidateInv(m: seq<Mark>, scans: seq<Scan>, h: Host, n: nat)
    requires n < |scans| == |m|
  {
    if h.candidate.Some? then 1 <= h.candidate.value.confirmations <= n + 1 && Counts(m, h.candidate.value, scans[n + 1 - h.candidate.value.confirmations], n)
    else m[n].Some? ==> m[n].value == h.stable
  }

  /** One scan in terms of the history. */
  lemma ScanMeaning(scans: seq<Scan>, n: nat)
    requires n < |scans| && Clocked(scans)
    ensures !Pressing(scans, n) ==> At(scans, n + 1).candidate.None? && !Replaced(scans, n)
    ensures Pressing(scans, n) ==>
              n > 0 && scans[n].ips != Stable(scans, n) &&
              var c := Counted(At(scans, n).candidate, scans[n].ips, scans[n].now);
              if Confirmed(c, scans[n].now) then Replaced(scans, n) && At(scans, n + 1).candidate.None? && Stable(scans, n + 1) == scans[n].ips
              else !Replaced(scans, n) && At(scans, n + 1).candidate == Some(c)
  {
    HeldMeaning(scans, n);
  }

  lemma CountedCounts(m: seq<Mark>, scans: seq<Scan>, h: Host, n: nat)
    requires n + 1 < |scans| == |m| && CandidateInv(m, scans, h, n)
    requires m[n + 1] == Some(scans[n + 1].ips) && scans[n + 1].ips != h.stable
    ensures var c := Counted(h.candidate, scans[n + 1].ips, scans[n + 1].now);
            1 <= c.confirmations <= n + 2 && Counts(m, c, scans[n + 2 - c.confirmations], n + 1)
  {
    var c := h.candidate;
    if c.Some? && c.value.ips == scans[n + 1].ips {
      LongestStep(m, c.value.confirmations, n);
    } else {
      LongestStep(m, 1, n);
    }
  }

  lemma {:induction false} CandidateHolds(scans: seq<Scan>, n: nat)
    requires n < |scans| && Clocked(scans)
    ensures CandidateInv(Marks(scans), scans, At(scans, n + 1), n)
  {
    assert Marks(scans)[n] == MarkOf(scans, n);
    ScanMeaning(scans, n);
    if Pressing(scans, n) {
      CandidateHolds(scans, n - 1);
      CountedCounts(Marks(scans), scans, At(scans, n), n - 1);
    }
  }

  predicate ConfirmedFrom(scans: seq<Scan>, j: nat, n: nat) {
    Streak(scans, j, n) && n - j + 1 >= 3 && scans[n].now - scans[j].now >= 10
  }

  /**
   The stable snapshot of a host is replaced by scan n exactly when at least three
   consecutive scans up to n spanning at least ten seconds spoke for the same change:
   a successful answer other than the stable value, and not the value replaced less than
   five minutes before.
   */
  lemma ReplacedExactlyWhenConfirmed(scans: seq<Scan>, n: nat)
    requires Clocked(scans) && n < |scans|
    ensures Replaced(scans, n) <==> exists j: nat :: ConfirmedFrom(scans, j, n)
    ensures Replaced(scans, n) ==> Stable(scans, n + 1) == scans[n].ips
  {
    ScanMeaning(scans, n);
    if Pressing(scans, n) {
      PressingCounts(scans, n);
      ConfirmedMeaning(scans, Counted(At(scans, n).candidate, scans[n].ips, scans[n].now), n);
    } else {
      assert forall j: nat :: ConfirmedFrom(scans, j, n) ==> Pressing(scans, n);
    }
  }

  /** A scan that speaks for a change is not the first, and is marked by its answer. */
  lemma {:induction false} PressingMark(scans: seq<Scan>, n: nat)
    requires Pressing(scans, n)
    ensures n > 0 && scans[n].ips != At(scans, n).stable && Marks(scans)[n] == Some(scans[n].ips)
  {
    assert Marks(scans)[n] == MarkOf(scans, n);
  }

  lemma PressingCounts(scans: seq<Scan>, n: nat)
    requires Clocked(scans) && n < |scans| && Pressing(scans, n)
    ensures var c := Counted(At(scans, n).candidate, scans[n].ips, scans[n].now);
            1 <= c.confirmations <= n + 1 && Counts(Marks(scans), c, scans[n + 1 - c.confirmations], n)
  {
    PressingMark(scans, n);
    CandidateHolds(scans, n - 1);
    CountedCounts(Marks(scans), scans, At(scans, n), n - 1);
  }

  lemma ConfirmedMeaning(scans: seq<Scan>, c: Candidate, n: nat)
    requires Clocked(scans) && n < |scans| && 1 <= c.confirmations <= n + 1 && Counts(Marks(scans), c, scans[n + 1 - c.confirmations], n)
    ensures Confirmed(c, scans[n].now) <==> exists j: nat :: ConfirmedFrom(scans, j, n)
  {
    var first: nat := n + 1 - c.confirmations;
    StreakIsEqualMarks(scans, first, n);
    if Confirmed(c, scans[n].now) {
      assert ConfirmedFrom(scans, first, n);
    }
    if j: nat :| ConfirmedFrom(scans, j, n) {
      StreakIsEqualMarks(scans, j, n);
      LongestBounds(Marks(scans), c.confirmations, j, n);
    }
  }

  /** No change goes back to the value that the last change before it replaced, less than five minutes after that one. */
  lemma {:induction false} NeverStraightBack(scans: seq<Scan>, c: nat, n: nat)
    requires Clocked(scans) && n < |scans|
    requires c < n && Replaced(scans, c) && Replaced(scans, n) && forall i: nat :: c < i < n ==> !Replaced(scans, i)
    ensures Stable(scans, n + 1) == Stable(scans, c) ==> scans[n].now - scans[c].now >= 300
  {
    LastReplacementMeaning(scans, c, n);
    ReplacedExactlyWhenConfirmed(scans, n);
    var j: nat :| ConfirmedFrom(scans, j, n);
    assert Pressing(scans, n);
  }

  // ------------------------------------------------------------ what the snapshot is

  /** Until something answers there is no snapshot, and the first answer is taken at once. */
  lemma FirstAnswerIsTaken(scans: seq<Scan>, n: nat)
    requires n < |scans| && Stable(scans, n) == []
    ensures Stable(scans, n + 1) == scans[n].ips
  {
  }

  /** Which scans ended a confirmed streak. */
  ghost function ConfirmedScans(scans: seq<Scan>): seq<bool> {
    seq(|scans|, i requires 0 <= i < |scans| => ConfirmedUpTo(scans, i))
  }

  /** Scan i is the first that answered. */
  ghost predicate FirstAnswer(scans: seq<Scan>, i: int) {
    0 <= i < |scans| && scans[i].ips != [] && forall l :: 0 <= l < i ==> scans[l].ips == []
  }

  /** Scan i is the last before scan n that is confirmed. */
  ghost predicate LastConfirmed(confirmed: seq<bool>, i: int, n: int) {
    0 <= i < n <= |confirmed| && confirmed[i] && forall l :: i < l < n ==> !confirmed[l]
  }

  /** The answer of the last scan that ended a confirmed streak, or the first answer if none did. */
  ghost predicate SnapshotIs(scans: seq<Scan>, confirmed: seq<bool>, n: nat, stable: Addresses)
    requires n <= |scans| == |confirmed|
  {
    && (stable != [] <==> exists i :: 0 <= i < n && scans[i].ips != [])
    && (forall i :: LastConfirmed(confirmed, i, n) ==> stable == scans[i].ips)
    && ((forall i :: 0 <= i < n ==> !confirmed[i]) ==> forall i :: FirstAnswer(scans, i) && i < n ==> stable == scans[i].ips)
  }

  /** What one scan makes of the snapshot. */
  ghost predicate Takes(scan: Scan, confirmed: bool, before: Addresses, after: Addresses) {
    && (before == [] ==> after == scan.ips && !confirmed)
    && (before != [] ==> (after != before <==> confirmed) && after != [])
    && (confirmed ==> after == scan.ips && scan.ips != [])
  }

  lemma SnapshotNext(scans: seq<Scan>, confirmed: seq<bool>, n: nat, before: Addresses, after: Addresses)
    requires n < |scans| == |confirmed| && SnapshotIs(scans, confirmed, n, before) && Takes(scans[n], confirmed[n], before, after)
    requires forall i :: 0 <= i < |scans| && confirmed[i] ==> scans[i].ips != []
    ensures SnapshotIs(scans, confirmed, n + 1, after)
  {
    forall i | LastConfirmed(confirmed, i, n + 1) ensures after == scans[i].ips {
      if i < n {
        assert LastConfirmed(confirmed, i, n);
      }
    }
    if forall i :: 0 <= i < n + 1 ==> !confirmed[i] {
      forall i | FirstAnswer(scans, i) && i < n + 1 ensures after == scans[i].ips {
      }
    }
  }

  lemma {:induction false} SnapshotOfAll(scans: seq<Scan>, confirmed: seq<bool>, snapshots: seq<Addresses>, n: nat)
    requires n <= |scans| == |confirmed| && |snapshots| == |scans| + 1 && snapshots[0] == []
    requires forall i :: 0 <= i < |scans| ==> Takes(scans[i], confirmed[i], snapshots[i], snapshots[i + 1])
    requires forall i :: 0 <= i < |scans| && confirmed[i] ==> scans[i].ips != []
    ensures SnapshotIs(scans, confirmed, n, snapshots[n])
  {
    if n > 0 {
      SnapshotOfAll(scans, confirmed, snapshots, n - 1);
      assert Takes(scans[n - 1], confirmed[n - 1], snapshots[n - 1], snapshots[n - 1 + 1]);
      SnapshotNext(scans, confirmed, n - 1, snapshots[n - 1], snapshots[n]);
    }
  }

  lemma ConfirmedAnswered(scans: seq<Scan>, i: int)
    requires ConfirmedUpTo(scans, i)
    ensures 0 <= i < |scans| && scans[i].ips != [] && Stable(scans, i) != []
  {
    var j: nat :| ConfirmedFrom(scans, j, i);
    assert Pressing(scans, i);
  }

  lemma ScanTakes(scans: seq<Scan>, n: nat)
    requires Clocked(scans) && n < |scans|
    ensures Takes(scans[n], ConfirmedUpTo(scans, n), Stable(scans, n), Stable(scans, n + 1))
  {
    ReplacedExactlyWhenConfirmed(scans, n);
    if ConfirmedUpTo(scans, n) {
      ConfirmedAnswered(scans, n);
    }
  }

  /**
   The snapshot in terms of the scans: there is one exactly if some scan answered; it is the
   answer of the last scan that ended a confirmed streak, and the first answer if none did.
   */
  lemma {:induction false} SnapshotMeaning(scans: seq<Scan>, n: nat)
    requires n <= |scans| && Clocked(scans)
    ensures SnapshotIs(scans, ConfirmedScans(scans), n, Stable(scans, n))
  {
    var snapshots := seq(|scans| + 1, i requires 0 <= i <= |scans| => Stable(scans, i));
    var confirmed := ConfirmedScans(scans);
    forall i | 0 <= i < |scans| ensures Takes(scans[i], confirmed[i], snapshots[i], snapshots[i + 1]) {
      ScanTakes(scans, i);
    }
    forall i | 0 <= i < |scans| && confirmed[i] ensures scans[i].ips != [] {
      ConfirmedAnswered(scans, i);
    }
    SnapshotOfAll(scans, confirmed, snapshots, n);
  }

  // ------------------------------------------------------- the watcher over many scans

  /** One call of Update. */
  datatype Call = Call(items: seq<Item>, lookup: string -> Addresses, now: int)

  /** What the watcher knows of k after all calls, by the contract of Update. */
  function KnownAfter(calls: seq<Call>, k: string): Host {
    if calls == [] then UNKNOWN
    else
      var n := |calls| - 1;
      var name := NameOf(calls[n].items, k);
      After(KnownAfter(calls[..n], k), name, calls[n].lookup(name), calls[n].now)
  }

  /** The scans of k since the last call that did not watch it. */
  function ScansOf(calls: seq<Call>, k: string): seq<Scan> {
    if calls == [] then []
    else
      var n := |calls| - 1;
      var name := NameOf(calls[n].items, k);
      if name == "" then [] else ScansOf(calls[..n], k) + [Scan(calls[n].now, calls[n].lookup(name))]
  }

  lemma {:induction false} AtPrefix(scans: seq<Scan>, last: Scan, n: nat)
    requires n <= |scans|
    ensures At(scans + [last], n) == At(scans, n)
  {
    if n > 0 {
      AtPrefix(scans, last, n - 1);
    }
  }

  /** The watcher follows, for every host, the scans since it was last unwatched. */
  lemma {:induction false} WatcherFollowsScans(calls: seq<Call>, k: string)
    ensures KnownAfter(calls, k) == At(ScansOf(calls, k), |ScansOf(calls, k)|)
  {
    if calls != [] {
      var n := |calls| - 1;
      WatcherFollowsScans(calls[..n], k);
      var name := NameOf(calls[n].items, k);
      if name != "" {
        var before := ScansOf(calls[..n], k);
        AtPrefix(before, Scan(calls[n].now, calls[n].lookup(name)), |before|);
      }
    }
  }

  ghost predicate CallsClocked(calls: seq<Call>) {
    forall i, j :: 0 <= i <= j < |calls| ==> calls[i].now <= calls[j].now
  }

  lemma {:induction false} ScansClocked(calls: seq<Call>, k: string)
    requires CallsClocked(calls)
    ensures Clocked(ScansOf(calls, k))
    ensures forall i :: 0 <= i < |ScansOf(calls, k)| ==> calls != [] && ScansOf(calls, k)[i].now <= calls[|calls| - 1].now
  {
    if calls != [] {
      ScansClocked(calls[..|calls| - 1], k);
    }
  }

  /** One more call on a watched host is one more scan of it. */
  lemma {:induction false} OneMoreCall(calls: seq<Call>, next: Call, k: string)
    requires NameOf(next.items, k) != ""
    ensures var scans, n := ScansOf(calls + [next], k), |ScansOf(calls, k)|;
            && |scans| == n + 1 && scans[n].ips == next.lookup(NameOf(next.items, k))
            && KnownAfter(calls, k) == At(scans, n) && KnownAfter(calls + [next], k) == At(scans, n + 1)
  {
    var all, before := calls + [next], ScansOf(calls, k);
    var last := Scan(next.now, next.lookup(NameOf(next.items, k)));
    assert all[..|calls|] == calls && all[|calls|] == next;
    assert ScansOf(all, k) == before + [last];
    WatcherFollowsScans(calls, k);
    WatcherFollowsScans(all, k);
    AtPrefix(before, last, |before|);
  }

  /**
   Over any run of the watcher: the call after `calls` replaces the stable snapshot of a
   host it watches exactly when the scans of that host since it was last unwatched end
   in a confirmed streak, and then by the answer of that streak.
   */
  lemma {:induction false} WatcherReplacesExactlyWhenConfirmed(calls: seq<Call>, next: Call, k: string)
    requires CallsClocked(calls + [next]) && NameOf(next.items, k) != ""
    ensures Changed(KnownAfter(calls, k), KnownAfter(calls + [next], k)) <==> EndsConfirmed(ScansOf(calls + [next], k))
    ensures Changed(KnownAfter(calls, k), KnownAfter(calls + [next], k)) ==>
              KnownAfter(calls + [next], k).stable == next.lookup(NameOf(next.items, k))
  {
    ScansClocked(calls + [next], k);
    OneMoreCall(calls, next, k);
    LastScanReplaces(ScansOf(calls + [next], k), |ScansOf(calls, k)|);
  }

  /**
   Over any run of the watcher the snapshot of every host is what its scans say, since it
   was last unwatched: nothing before the first answer, then that answer, then the answer
   of the last confirmed scan.
   */
  lemma {:induction false} WatcherSnapshotMeaning(calls: seq<Call>, k: string)
    requires CallsClocked(calls)
    ensures SnapshotIs(ScansOf(calls, k), ConfirmedScans(ScansOf(calls, k)), |ScansOf(calls, k)|, KnownAfter(calls, k).stable)
  {
    ScansClocked(calls, k);
    WatcherFollowsScans(calls, k);
    SnapshotMeaning(ScansOf(calls, k), |ScansOf(calls, k)|);
  }

  ghost predicate EndsConfirmed(scans: seq<Scan>) {
    |scans| > 0 && ConfirmedUpTo(scans, |scans| - 1)
  }

  ghost predicate ConfirmedUpTo(scans: seq<Scan>, n: int) {
    n >= 0 && exists j: nat :: ConfirmedFrom(scans, j, n)
  }

  lemma LastScanReplaces(scans: seq<Scan>, n: nat)
    requires Clocked(scans) && |scans| == n + 1
    ensures Changed(At(scans, n), At(scans, n + 1)) <==> ConfirmedUpTo(scans, n)
    ensures Changed(At(scans, n), At(scans, n + 1)) ==> At(scans, n + 1).stable == scans[n].ips
  {
    ReplacedExactlyWhenConfirmed(scans, n);
  }
}
