/**
 Compaction of DNS change reports (agent/dnswatch.go, compactDNSChangeReports): the
 last report per key, in the order of last occurrence, at most 512 of them. Although
 the cap discards reports, compacting piecemeal gives the same result as at once.
 */
module DnsCompaction {

  /** Host in lower case, trimmed scope, reference id: what identifies a report. */
  datatype Key = Key(host: string, scope: string, refID: int)

  datatype Report = Report(key: Key, before: seq<string>, after: seq<string>)

  const CAP: nat := 512

  predicate HasKey(s: seq<Report>, k: Key) {
    exists i :: 0 <= i < |s| && s[i].key == k
  }

  /** The reports of `s` whose key does not occur in `later`. */
  function Unshadowed(s: seq<Report>, later: seq<Report>): seq<Report> {
    if s == [] then []
    else (if HasKey(later, s[0].key) then [] else [s[0]]) + Unshadowed(s[1..], later)
  }

  /** The last report of every key, in order of last occurrence, without the cap. */
  function LastPerKey(s: seq<Report>): seq<Report> {
    if s == [] then []
    else (if HasKey(s[1..], s[0].key) then [] else [s[0]]) + LastPerKey(s[1..])
  }

  /** The newest CAP elements. */
  function Newest(s: seq<Report>): seq<Report> {
    if |s| <= CAP then s else s[|s| - CAP..]
  }

  function Compact(s: seq<Report>): seq<Report> {
    Newest(LastPerKey(s))
  }

  ghost predicate DistinctKeys(s: seq<Report>) {
    forall i, j :: 0 <= i < j < |s| ==> s[i].key != s[j].key
  }

  /** The backward loop with a set of seen keys, and the reversal at the end. */
  method CompactReports(changes: seq<Report>) returns (r: seq<Report>)
    ensures r == Compact(changes)
  {
    var seen: set<Key> := {};
    var reversed: seq<Report> := [];
    var i := |changes|;
    while i > 0 && |reversed| < CAP
      invariant 0 <= i <= |changes|
      invariant forall k :: k in seen <==> HasKey(changes[i..], k)
      invariant reversed == Backwards(LastPerKey(changes[i..])) && |reversed| <= CAP
    {
      i := i - 1;
      assert changes[i..] == [changes[i]] + changes[i + 1..] && changes[i..][1..] == changes[i + 1..];
      HasKeyCons(changes[i], changes[i + 1..]);
      if changes[i].key in seen {
        assert LastPerKey(changes[i..]) == LastPerKey(changes[i + 1..]);
        continue;
      }
      seen := seen + {changes[i].key};
      BackwardsCons(changes[i], LastPerKey(changes[i + 1..]));
      reversed := reversed + [changes[i]];
    }
    BackwardsTwice(LastPerKey(changes[i..]));
    r := Reverse(reversed);
    assert changes == changes[..i] + changes[i..];
    LastPerKeyConcat(changes[..i], changes[i..]);
  }

  function Backwards(s: seq<Report>): seq<Report> {
    if s == [] then [] else Backwards(s[1..]) + [s[0]]
  }

  lemma {:induction false} BackwardsCons(x: Report, s: seq<Report>)
    ensures Backwards([x] + s) == Backwards(s) + [x]
  {
    assert ([x] + s)[1..] == s;
  }

  lemma {:induction false} BackwardsAt(s: seq<Report>)
    ensures |Backwards(s)| == |s| && forall i :: 0 <= i < |s| ==> Backwards(s)[i] == s[|s| - 1 - i]
  {
    if s != [] {
      BackwardsAt(s[1..]);
    }
  }

  lemma {:induction false} BackwardsTwice(s: seq<Report>)
    ensures Backwards(Backwards(s)) == s && |Backwards(s)| == |s|
  {
    BackwardsAt(s);
    BackwardsAt(Backwards(s));
  }

  method Reverse(s: seq<Report>) returns (r: seq<Report>)
    ensures r == Backwards(s)
  {
    r := s;
    var i, j := 0, |s| - 1;
    while i < j
      invariant 0 <= i <= j + 1 && i + j == |s| - 1 && |r| == |s|
      invariant forall k :: 0 <= k < i || j < k < |s| ==> r[k] == s[|s| - 1 - k]
      invariant forall k :: i <= k <= j ==> r[k] == s[k]
    {
      r := r[i := r[j]][j := r[i]];
      i, j := i + 1, j - 1;
    }
    BackwardsAt(s);
  }

  lemma HasKeyCons(x: Report, s: seq<Report>)
    ensures forall k :: HasKey([x] + s, k) <==> x.key == k || HasKey(s, k)
  {
    forall k ensures HasKey([x] + s, k) <==> x.key == k || HasKey(s, k) {
      if HasKey(s, k) {
        var i :| 0 <= i < |s| && s[i].key == k;
        assert ([x] + s)[i + 1].key == k;
      }
      if x.key == k {
        assert ([x] + s)[0].key == k;
      }
    }
  }

  lemma HasKeyConcat(a: seq<Report>, b: seq<Report>, k: Key)
    ensures HasKey(a + b, k) <==> HasKey(a, k) || HasKey(b, k)
  {
    if HasKey(a, k) {
      var i :| 0 <= i < |a| && a[i].key == k;
      assert (a + b)[i].key == k;
    }
    if HasKey(b, k) {
      var i :| 0 <= i < |b| && b[i].key == k;
      assert (a + b)[|a| + i].key == k;
    }
  }

  lemma Assoc(a: seq<Report>, b: seq<Report>, c: seq<Report>)
    ensures a + (b + c) == (a + b) + c
  {
  }

  /** Appending reports removes from the earlier ones exactly the keys that occur again. */
  lemma {:induction false} LastPerKeyConcat(a: seq<Report>, b: seq<Report>)
    ensures LastPerKey(a + b) == Unshadowed(LastPerKey(a), b) + LastPerKey(b)
  {
    if a == [] {
      assert a + b == b;
    } else {
      assert (a + b)[0] == a[0] && (a + b)[1..] == a[1..] + b;
      LastPerKeyConcat(a[1..], b);
      HasKeyConcat(a[1..], b, a[0].key);
      var head := if HasKey(a[1..], a[0].key) then [] else [a[0]];
      var head' := if HasKey((a + b)[1..], a[0].key) then [] else [a[0]];
      UnshadowedConcat(head, LastPerKey(a[1..]), b);
      assert Unshadowed(head, b) == head' by {
        if head != [] {
          assert head[1..] == [];
        }
      }
      Assoc(head', Unshadowed(LastPerKey(a[1..]), b), LastPerKey(b));
    }
  }

  lemma {:induction false} UnshadowedConcat(a: seq<Report>, b: seq<Report>, later: seq<Report>)
    ensures Unshadowed(a + b, later) == Unshadowed(a, later) + Unshadowed(b, later)
  {
    if a == [] {
      assert a + b == b;
    } else {
      assert (a + b)[0] == a[0] && (a + b)[1..] == a[1..] + b;
      UnshadowedConcat(a[1..], b, later);
      Assoc(if HasKey(later, a[0].key) then [] else [a[0]], Unshadowed(a[1..], later), Unshadowed(b, later));
    }
  }

  // -------------------------------------------------------- what compaction keeps

  lemma {:induction false} LastPerKeyKeys(s: seq<Report>, k: Key)
    ensures HasKey(LastPerKey(s), k) <==> HasKey(s, k)
  {
    if s != [] {
      LastPerKeyKeys(s[1..], k);
      LastPerKeyKeys(s[1..], s[0].key);
      assert s == [s[0]] + s[1..];
      HasKeyCons(s[0], s[1..]);
      HasKeyCons(s[0], LastPerKey(s[1..]));
      if HasKey(s[1..], s[0].key) {
        assert LastPerKey(s) == LastPerKey(s[1..]);
      }
    }
  }

  lemma {:induction false} LastPerKeyDistinct(s: seq<Report>)
    ensures DistinctKeys(LastPerKey(s))
  {
    if s != [] {
      LastPerKeyDistinct(s[1..]);
      LastPerKeyKeys(s[1..], s[0].key);
    }
  }

  lemma {:induction false} DistinctIsFixed(s: seq<Report>)
    requires DistinctKeys(s)
    ensures LastPerKey(s) == s
  {
    if s != [] {
      DistinctIsFixed(s[1..]);
      assert s == [s[0]] + s[1..];
    }
  }

  /** Nothing after position i has its key. */
  ghost predicate IsLast(s: seq<Report>, i: nat) {
    i < |s| && forall j :: i < j < |s| ==> s[j].key != s[i].key
  }

  /** Compaction keeps exactly last occurrences. */
  lemma {:induction false} KeepsLastOccurrences(s: seq<Report>, r: Report)
    ensures r in LastPerKey(s) <==> exists i: nat :: IsLast(s, i) && s[i] == r
  {
    if s != [] {
      KeepsLastOccurrences(s[1..], r);
      if i: nat :| IsLast(s, i) && s[i] == r {
        if i > 0 {
          assert s[1..][i - 1] == r && IsLast(s[1..], i - 1);
        }
      }
      if i: nat :| IsLast(s[1..], i) && s[1..][i] == r {
        assert IsLast(s, i + 1) && s[i + 1] == r;
      }
      if !HasKey(s[1..], s[0].key) {
        assert IsLast(s, 0);
      }
    }
  }

  // -------------------------------------------------- piecemeal equals all at once

  function KeySet(s: seq<Report>): set<Key> {
    set i | 0 <= i < |s| :: s[i].key
  }

  lemma KeySetHas(s: seq<Report>, k: Key)
    ensures k in KeySet(s) <==> HasKey(s, k)
  {
  }

  lemma KeySetTail(s: seq<Report>)
    requires s != []
    ensures KeySet(s) == {s[0].key} + KeySet(s[1..])
  {
    assert s == [s[0]] + s[1..];
    forall k ensures k in KeySet(s) <==> k == s[0].key || k in KeySet(s[1..]) {
      KeySetHas(s, k);
      KeySetHas(s[1..], k);
      HasKeyCons(s[0], s[1..]);
    }
  }

  lemma {:induction false} KeySetSize(s: seq<Report>)
    ensures |KeySet(s)| <= |s|
  {
    if s == [] {
      assert KeySet(s) == {};
    } else {
      KeySetTail(s);
      KeySetSize(s[1..]);
    }
  }

  /** Reports with distinct keys lose exactly as many as there are shared keys. */
  lemma {:induction false} ShadowedCount(s: seq<Report>, later: seq<Report>)
    requires DistinctKeys(s)
    ensures |s| == |Unshadowed(s, later)| + |KeySet(s) * KeySet(later)|
  {
    if s == [] {
      assert KeySet(s) * KeySet(later) == {};
    } else {
      ShadowedCount(s[1..], later);
      KeySetTail(s);
      KeySetHas(later, s[0].key);
      KeySetHas(s[1..], s[0].key);
      AddShared(KeySet(s[1..]), KeySet(later), s[0].key);
    }
  }

  lemma AddShared(a: set<Key>, b: set<Key>, k: Key)
    requires k !in a
    ensures |({k} + a) * b| == |a * b| + (if k in b then 1 else 0)
  {
    assert ({k} + a) * b == if k in b then {k} + a * b else a * b;
  }

  lemma {:induction false} SubsetSize(a: set<Key>, b: set<Key>)
    requires a <= b
    ensures |a| <= |b|
  {
    if a != {} {
      var x :| x in a;
      SubsetSize(a - {x}, b - {x});
    }
  }

  /** So at most as many are lost as later reports remain. */
  lemma {:induction false} LossIsBounded(s: seq<Report>, later: seq<Report>)
    requires DistinctKeys(s)
    ensures |s| <= |Unshadowed(s, later)| + |LastPerKey(later)|
  {
    ShadowedCount(s, later);
    SubsetSize(KeySet(s) * KeySet(later), KeySet(later));
    forall k ensures k in KeySet(later) <==> k in KeySet(LastPerKey(later)) {
      KeySetHas(later, k);
      KeySetHas(LastPerKey(later), k);
      LastPerKeyKeys(later, k);
    }
    assert KeySet(later) == KeySet(LastPerKey(later));
    KeySetSize(LastPerKey(later));
  }

  lemma NewestOfSuffix(front: seq<Report>, s: seq<Report>)
    requires |s| >= CAP
    ensures Newest(front + s) == Newest(s)
  {
  }

  lemma NewestDistinct(s: seq<Report>)
    requires DistinctKeys(s)
    ensures DistinctKeys(Newest(s))
  {
  }

  /**
   Compacting what was pending together with new reports gives what compacting
   everything at once gives: nothing the cap dropped earlier could have survived.
   */
  lemma CompactIsHomomorphic(a: seq<Report>, b: seq<Report>)
    ensures Compact(Compact(a) + b) == Compact(a + b)
  {
    var x, y := LastPerKey(a), LastPerKey(b);
    var n := Newest(x);
    LastPerKeyDistinct(a);
    NewestDistinct(x);
    DistinctIsFixed(n);
    LastPerKeyConcat(n, b);
    LastPerKeyConcat(a, b);
    if |x| > CAP {
      var dropped := x[..|x| - CAP];
      assert x == dropped + n;
      UnshadowedConcat(dropped, n, b);
      Assoc(Unshadowed(dropped, b), Unshadowed(n, b), y);
      LossIsBounded(n, b);
      NewestOfSuffix(Unshadowed(dropped, b), Unshadowed(n, b) + y);
    }
  }

  /** Compaction is idempotent, bounded, and keeps one report per key. */
  lemma {:induction false} CompactProps(a: seq<Report>)
    ensures Compact(Compact(a)) == Compact(a) && DistinctKeys(Compact(a))
    ensures |Compact(a)| == if |LastPerKey(a)| < 512 then |LastPerKey(a)| else 512
    ensures forall r :: r in Compact(a) ==> exists i: nat :: IsLast(a, i) && a[i] == r
  {
    CompactIsHomomorphic(a, []);
    assert Compact(a) + [] == Compact(a) && a + [] == a;
    LastPerKeyDistinct(a);
    NewestDistinct(LastPerKey(a));
    forall r | r in Compact(a) ensures exists i: nat :: IsLast(a, i) && a[i] == r {
      KeepsLastOccurrences(a, r);
    }
  }

  /** The queue of pending changes: appending batches one by one equals compacting all of them together. */
  function Pending(batches: seq<seq<Report>>): seq<Report> {
    if batches == [] then [] else Compact(Pending(batches[..|batches| - 1]) + batches[|batches| - 1])
  }

  function Flatten(batches: seq<seq<Report>>): seq<Report> {
    if batches == [] then [] else Flatten(batches[..|batches| - 1]) + batches[|batches| - 1]
  }

  lemma {:induction false} PendingIsCompactHistory(batches: seq<seq<Report>>)
    ensures Pending(batches) == Compact(Flatten(batches))
  {
    if batches != [] {
      var init, last := batches[..|batches| - 1], batches[|batches| - 1];
      PendingIsCompactHistory(init);
      CompactIsHomomorphic(Flatten(init), last);
    }
  }
}
