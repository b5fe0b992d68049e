/**
 The table of latest issue times (agent/actions.go, isOlderAction): accepting an
 action raises the issue time of every identity it competes for, and an action is
 stale as soon as one of its identities has seen a later issue time.
 */
module Epochs {
  import opened ActionKeys

  type EpochMap = map<StaleKey, int>

  function Latest(m: EpochMap, k: StaleKey): int {
    if k in m then m[k] else 0
  }

  ghost predicate Older(m: EpochMap, a: Action) {
    a.issuedAt > 0 && exists k :: k in StaleKeys(a) && a.issuedAt < Latest(m, k)
  }

  /** Every key in `keys` brought up to at least `t`. */
  function Raised(m: EpochMap, keys: seq<StaleKey>, t: int): EpochMap {
    if keys == [] then m
    else
      var r := Raised(m, keys[..|keys| - 1], t);
      var k := keys[|keys| - 1];
      if t > Latest(r, k) then r[k := t] else r
  }

  lemma {:induction false} RaisedValue(m: EpochMap, keys: seq<StaleKey>, t: int, k: StaleKey)
    ensures Latest(Raised(m, keys, t), k) == if k in keys && Latest(m, k) < t then t else Latest(m, k)
  {
    if keys != [] {
      RaisedValue(m, keys[..|keys| - 1], t, k);
      assert keys == keys[..|keys| - 1] + [keys[|keys| - 1]];
    }
  }

  function Remember(m: EpochMap, a: Action): EpochMap {
    if a.issuedAt <= 0 then m else Raised(m, StaleKeys(a), a.issuedAt)
  }

  /** Issue times only grow, and an accepted action is visible under all its identities. */
  lemma RememberRaises(m: EpochMap, a: Action, k: StaleKey)
    ensures Latest(m, k) <= Latest(Remember(m, a), k)
    ensures a.issuedAt > 0 && k in StaleKeys(a) ==> a.issuedAt <= Latest(Remember(m, a), k)
    ensures k !in StaleKeys(a) ==> Latest(m, k) == Latest(Remember(m, a), k)
  {
    RaisedValue(m, StaleKeys(a), a.issuedAt, k);
  }

  /** Accepting an action can only make other actions older, never current again. */
  lemma OlderIsForever(m: EpochMap, a: Action, b: Action)
    requires Older(m, b)
    ensures Older(Remember(m, a), b)
  {
    var k :| k in StaleKeys(b) && b.issuedAt < Latest(m, k);
    RememberRaises(m, a, k);
  }

  /** The table after these actions were accepted one after another. */
  function After(accepted: seq<Action>): EpochMap {
    if accepted == [] then map[] else Remember(After(accepted[..|accepted| - 1]), accepted[|accepted| - 1])
  }

  /** b was accepted, counts, and has the key k. */
  ghost predicate AcceptedUnder(accepted: seq<Action>, b: Action, k: StaleKey) {
    b in accepted && b.issuedAt > 0 && k in StaleKeys(b)
  }

  /** The table holds, for every key, the latest issue time accepted under it. */
  lemma {:induction false} LatestMeaning(accepted: seq<Action>, k: StaleKey)
    ensures Latest(After(accepted), k) >= 0
    ensures Latest(After(accepted), k) > 0 ==> exists b :: AcceptedUnder(accepted, b, k) && b.issuedAt == Latest(After(accepted), k)
    ensures forall b :: AcceptedUnder(accepted, b, k) ==> b.issuedAt <= Latest(After(accepted), k)
  {
    if accepted != [] {
      var init, a := accepted[..|accepted| - 1], accepted[|accepted| - 1];
      LatestMeaning(init, k);
      RaisedValue(After(init), StaleKeys(a), a.issuedAt, k);
      assert accepted == init + [a];
      if Latest(After(accepted), k) > 0 {
        if b :| AcceptedUnder(init, b, k) && b.issuedAt == Latest(After(accepted), k) {
          assert AcceptedUnder(accepted, b, k);
        } else {
          assert AcceptedUnder(accepted, a, k);
        }
      }
      forall b | AcceptedUnder(accepted, b, k) ensures b.issuedAt <= Latest(After(accepted), k) {
        assert b == a || AcceptedUnder(init, b, k);
      }
    }
  }

  /**
   Whatever has been accepted, an action is stale exactly if it has an issue time and a
   competing action with a later one was accepted.
   */
  lemma {:induction false} OlderMeaning(accepted: seq<Action>, a: Action)
    ensures Older(After(accepted), a) <==> a.issuedAt > 0 && exists b :: b in accepted && Competes(a, b) && a.issuedAt < b.issuedAt
  {
    if Older(After(accepted), a) {
      var k :| k in StaleKeys(a) && a.issuedAt < Latest(After(accepted), k);
      LatestMeaning(accepted, k);
      var b :| AcceptedUnder(accepted, b, k) && b.issuedAt == Latest(After(accepted), k);
      StaleShareMeaning(a, b);
    }
    if a.issuedAt > 0 {
      if b :| b in accepted && Competes(a, b) && a.issuedAt < b.issuedAt {
        StaleShareMeaning(a, b);
        var k :| k in StaleKeys(a) && k in StaleKeys(b);
        LatestMeaning(accepted, k);
        assert AcceptedUnder(accepted, b, k);
      }
    }
  }

  /** A newer apply of a rule, on whatever port, makes every earlier apply of the rule stale. */
  lemma {:induction false} NewerApplyWins(accepted: seq<Action>, a: Action, b: Action)
    requires b in accepted && a.op != Remove && b.op != Remove && a.ruleID == b.ruleID > 0
    requires a.status != RuntimeStatus && b.status != RuntimeStatus && 0 < a.issuedAt < b.issuedAt
    ensures Older(After(accepted), a)
  {
    OlderMeaning(accepted, a);
  }

  class EpochTable {
    var latest: EpochMap

    constructor ()
      ensures latest == map[]
    {
      latest := map[];
    }

    method Newest(keys: seq<StaleKey>) returns (newest: int)
      ensures newest >= 0 && forall k :: k in keys ==> Latest(latest, k) <= newest
      ensures newest > 0 ==> exists k :: k in keys && Latest(latest, k) == newest
    {
      newest := 0;
      for i := 0 to |keys|
        invariant newest >= 0 && forall j :: 0 <= j < i ==> Latest(latest, keys[j]) <= newest
        invariant newest > 0 ==> exists k :: k in keys && Latest(latest, k) == newest
      {
        if Latest(latest, keys[i]) > newest {
          newest := Latest(latest, keys[i]);
        }
      }
    }

    method Raise(keys: seq<StaleKey>, t: int)
      modifies this
      ensures latest == Raised(old(latest), keys, t)
    {
      for i := 0 to |keys|
        invariant latest == Raised(old(latest), keys[..i], t)
      {
        assert keys[..i + 1][..i] == keys[..i];
        if t > Latest(latest, keys[i]) {
          latest := latest[keys[i] := t];
        }
      }
      assert keys[..|keys|] == keys;
    }

    method IsOlder(a: Action, remember: bool) returns (older: bool)
      modifies this
      ensures older <==> Older(old(latest), a)
      ensures latest == if remember then Remember(old(latest), a) else old(latest)
    {
      if a.issuedAt <= 0 {
        return false;
      }
      var keys := StaleKeys(a);
      if |keys| == 0 {
        return false;
      }
      var newest := Newest(keys);
      if remember {
        Raise(keys, a.issuedAt);
        if a.issuedAt > newest {
          newest := a.issuedAt;
        }
      }
      older := a.issuedAt < newest;
    }
  }
}
