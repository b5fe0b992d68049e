/**
 Managed configuration transactions (agent/managed_configs.go): files are
 installed one by one under a fresh generation, and a rollback restores a path only
 while the path's current generation is still its own.
 */
module ManagedConfigs {
  import opened Options

  type Path = string
  datatype File = File(content: seq<int>, mode: nat)

  /** `checks` and `rename` are what decoding, staging and validation, and the final rename, turn out to do. */
  datatype Spec = Spec(path: Path, content: seq<int>, mode: nat, checks: bool, rename: bool)

  datatype Backup = Backup(path: Path, previous: Option<File>, generation: nat)

  /** Files on disk, the generation map and the generation counter. */
  datatype Store = Store(files: map<Path, File>, current: map<Path, nat>, generation: nat)

  const DEFAULT_MODE := 420  // 0644
  const MAX_MODE := 511      // 0777

  function FileMode(mode: nat): nat {
    if mode == 0 then DEFAULT_MODE else mode
  }

  predicate Acceptable(s: Spec) {
    |s.path| > 0 && s.path[0] == '/' && s.mode <= MAX_MODE && |s.content| > 0 && s.checks
  }

  function FileAt(s: Store, p: Path): Option<File> {
    if p in s.files then Some(s.files[p]) else None
  }

  function GenerationAt(s: Store, p: Path): nat {
    if p in s.current then s.current[p] else 0
  }

  function Put(files: map<Path, File>, p: Path, f: Option<File>): map<Path, File> {
    if f.Some? then files[p := f.value] else files - {p}
  }

  function FileOf(spec: Spec): File {
    File(spec.content, FileMode(spec.mode))
  }

  function Install(s: Store, spec: Spec, generation: nat): Store {
    s.(files := s.files[spec.path := FileOf(spec)], current := s.current[spec.path := generation])
  }

  function InstallAll(s: Store, specs: seq<Spec>, generation: nat): Store {
    if specs == [] then s else Install(InstallAll(s, specs[..|specs| - 1], generation), specs[|specs| - 1], generation)
  }

  /** The backups taken while installing: each holds what the path had just before. */
  function BackupsOf(s: Store, specs: seq<Spec>, generation: nat): seq<Backup> {
    if specs == [] then []
    else
      var init, last := specs[..|specs| - 1], specs[|specs| - 1];
      BackupsOf(s, init, generation) + [Backup(last.path, FileAt(InstallAll(s, init, generation), last.path), generation)]
  }

  /** `bad`: the paths whose restore fails on disk. */
  function RestoreOne(s: Store, b: Backup, bad: set<Path>): Store {
    if GenerationAt(s, b.path) != b.generation || b.path in bad then s
    else s.(files := Put(s.files, b.path, b.previous), current := s.current - {b.path})
  }

  function RestoreAll(s: Store, backups: seq<Backup>, bad: set<Path>): Store
    decreases |backups|
  {
    if backups == [] then s else RestoreAll(RestoreOne(s, backups[|backups| - 1], bad), backups[..|backups| - 1], bad)
  }

  /** Whether no restore of that rollback fails. */
  predicate Restored(s: Store, backups: seq<Backup>, bad: set<Path>)
    decreases |backups|
  {
    backups == [] ||
    var n := |backups| - 1;
    && (GenerationAt(s, backups[n].path) == backups[n].generation ==> backups[n].path !in bad)
    && Restored(RestoreOne(s, backups[n], bad), backups[..n], bad)
  }

  function ForgetAll(s: Store, backups: seq<Backup>): Store {
    if backups == [] then s
    else
      var r, b := ForgetAll(s, backups[..|backups| - 1]), backups[|backups| - 1];
      if GenerationAt(r, b.path) == b.generation then r.(current := r.current - {b.path}) else r
  }

  /** How far an apply gets: the first spec that cannot be installed. */
  function Installable(specs: seq<Spec>): nat
    ensures Installable(specs) <= |specs|
  {
    if specs == [] then 0
    else
      var n := Installable(specs[..|specs| - 1]);
      if n < |specs| - 1 || !Acceptable(specs[n]) || !specs[n].rename then n else |specs|
  }

  /** What can be installed: an absolute path, permission bits only, some content, valid, and a rename that works. */
  predicate CanInstall(s: Spec) {
    s.path != "" && s.path[0] == '/' && s.mode < 0x200 && s.content != [] && s.checks && s.rename
  }

  /** An apply gets to the first spec that cannot be installed. */
  lemma {:induction false} InstallableMeaning(specs: seq<Spec>)
    ensures var n := Installable(specs);
            && (forall i :: 0 <= i < n ==> CanInstall(specs[i])) && (n < |specs| ==> !CanInstall(specs[n]))
  {
    if specs != [] {
      InstallableMeaning(specs[..|specs| - 1]);
    }
  }

  /** The file that is written has the spec's content and its mode, or 0644 where it sets none. */
  lemma FileMeaning(spec: Spec)
    ensures FileOf(spec).content == spec.content && FileOf(spec).mode == if spec.mode > 0 then spec.mode else 0x1a4
  {
  }

  // ------------------------------------------------------------ the imperative form

  class Transaction {
    var backups: seq<Backup>
    var finished: bool
    var rollbackOK: bool

    constructor ()
      ensures backups == [] && !finished && !rollbackOK
    {
      backups, finished, rollbackOK := [], false, false;
    }
  }

  class ConfigStore {
    var store: Store

    constructor (files: map<Path, File>)
      ensures store == Store(files, map[], 0)
    {
      store := Store(files, map[], 0);
    }

    /** Restores newest first; a finished transaction is left alone. Reports whether every path it still owned could be restored. */
    method Rollback(tx: Transaction, bad: set<Path>) returns (ok: bool)
      modifies this, tx
      ensures tx.finished && tx.backups == old(tx.backups) && ok == tx.rollbackOK
      ensures old(tx.finished) ==> store == old(store) && tx.rollbackOK == old(tx.rollbackOK)
      ensures !old(tx.finished) ==> store == RestoreAll(old(store), tx.backups, bad)
      ensures forall g: nat :: !old(tx.finished) && g > 0 && AllOf(tx.backups, g) ==>
                (ok <==> forall i :: 0 <= i < |tx.backups| ==> GenerationAt(old(store), tx.backups[i].path) != g || tx.backups[i].path !in bad)
    {
      if tx.finished {
        return tx.rollbackOK;
      }
      ok := true;
      var index := |tx.backups|;
      assert tx.backups[..index] == tx.backups;
      while index > 0
        invariant 0 <= index <= |tx.backups| && tx.backups == old(tx.backups)
        invariant RestoreAll(store, tx.backups[..index], bad) == RestoreAll(old(store), tx.backups, bad)
        invariant Restored(store, tx.backups[..index], bad) && ok <==> Restored(old(store), tx.backups, bad)
      {
        index := index - 1;
        var b := tx.backups[index];
        assert tx.backups[..index + 1][..index] == tx.backups[..index];
        if GenerationAt(store, b.path) != b.generation {
          continue;
        }
        if b.path in bad {
          ok := false;
          continue;
        }
        store := store.(files := Put(store.files, b.path, b.previous), current := store.current - {b.path});
      }
      tx.finished, tx.rollbackOK := true, ok;
      forall g: nat | g > 0 && AllOf(tx.backups, g)
        ensures ok <==> forall i :: 0 <= i < |tx.backups| ==> GenerationAt(old(store), tx.backups[i].path) != g || tx.backups[i].path !in bad
      {
        RestoredMeaning(old(store), tx.backups, bad, g);
      }
    }

    method Commit(tx: Transaction)
      modifies this, tx
      ensures tx.finished && tx.backups == old(tx.backups)
      ensures old(tx.finished) ==> store == old(store) && tx.rollbackOK == old(tx.rollbackOK)
      ensures !old(tx.finished) ==> store == ForgetAll(old(store), tx.backups) && tx.rollbackOK
    {
      if tx.finished {
        return;
      }
      for i := 0 to |tx.backups|
        invariant tx.backups == old(tx.backups) && !tx.finished && store == ForgetAll(old(store), tx.backups[..i])
      {
        assert tx.backups[..i + 1][..i] == tx.backups[..i];
        var b := tx.backups[i];
        if GenerationAt(store, b.path) == b.generation {
          store := store.(current := store.current - {b.path});
        }
      }
      assert tx.backups[..|tx.backups|] == tx.backups;
      tx.finished, tx.rollbackOK := true, true;
    }

    /** Backs up and installs one file; a failed rename leaves its backup behind. */
    method InstallOne(tx: Transaction, spec: Spec, g: nat) returns (installed: bool)
      modifies this, tx
      ensures installed == (Acceptable(spec) && spec.rename)
      ensures store == if installed then Install(old(store), spec, g) else old(store)
      ensures tx.backups == if Acceptable(spec) then old(tx.backups) + [Backup(spec.path, FileAt(old(store), spec.path), g)]
                            else old(tx.backups)
      ensures tx.finished == old(tx.finished)
    {
      if !Acceptable(spec) {
        return false;
      }
      tx.backups := tx.backups + [Backup(spec.path, FileAt(store, spec.path), g)];
      if !spec.rename {
        return false;
      }
      store := Install(store, spec, g);
      installed := true;
    }

    /** Installs every spec, or rolls back what it installed and reports failure. */
    method Apply(specs: seq<Spec>, bad: set<Path>) returns (tx: Transaction, ok: bool)
      modifies this
      ensures fresh(tx) && (ok <==> Installable(specs) == |specs|)
      ensures tx.finished == !ok
      ensures ok ==> tx.backups == BackupsOf(Started(old(store)), specs, Started(old(store)).generation)
      ensures store == AfterApply(Started(old(store)), specs, bad)
    {
      tx := new Transaction();
      store := Started(store);
      var g := store.generation;
      ghost var start := store;
      for i := 0 to |specs|
        invariant fresh(tx) && !tx.finished && store == InstallAll(start, specs[..i], g)
        invariant tx.backups == BackupsOf(start, specs[..i], g) && Installable(specs[..i]) == i
      {
        ApplyStep(start, specs, i, g, bad);
        var installed := InstallOne(tx, specs[i], g);
        if !installed {
          var _ := Rollback(tx, bad);
          return tx, false;
        }
      }
      assert specs[..|specs|] == specs;
      ok := true;
    }
  }

  function Started(s: Store): Store {
    s.(generation := s.generation + 1)
  }

  /** All files installed, or those of a failing apply rolled back. */
  function AfterApply(start: Store, specs: seq<Spec>, bad: set<Path>): Store {
    if Installable(specs) == |specs| then InstallAll(start, specs, start.generation)
    else FailedApply(start, specs, start.generation, bad)
  }

  /** What a failing apply leaves: the installed prefix, and a backup of a failed rename, rolled back. */
  function FailedApply(s: Store, specs: seq<Spec>, generation: nat, bad: set<Path>): Store {
    var n := Installable(specs);
    var prefix := specs[..n];
    var backups := if n < |specs| && Acceptable(specs[n]) then BackupsOf(s, specs[..n + 1], generation) else BackupsOf(s, prefix, generation);
    RestoreAll(InstallAll(s, prefix, generation), backups, bad)
  }

  /** One round of the loop: either one more spec is installed, or this is where the apply fails. */
  lemma {:induction false} ApplyStep(s: Store, specs: seq<Spec>, i: nat, g: nat, bad: set<Path>)
    requires i < |specs| && Installable(specs[..i]) == i
    ensures var spec, done, backups := specs[i], InstallAll(s, specs[..i], g), BackupsOf(s, specs[..i], g);
            var backups' := backups + [Backup(spec.path, FileAt(done, spec.path), g)];
            if Acceptable(spec) && spec.rename
            then InstallAll(s, specs[..i + 1], g) == Install(done, spec, g) && BackupsOf(s, specs[..i + 1], g) == backups' &&
                 Installable(specs[..i + 1]) == i + 1
            else Installable(specs) == i &&
                 FailedApply(s, specs, g, bad) == RestoreAll(done, if Acceptable(spec) then backups' else backups, bad)
  {
    InstallableStep(specs, i);
    assert specs[..i + 1][..i] == specs[..i];
  }

  lemma {:induction false} InstallableStep(specs: seq<Spec>, i: nat)
    requires i < |specs| && Installable(specs[..i]) == i
    ensures Acceptable(specs[i]) && specs[i].rename ==> Installable(specs[..i + 1]) == i + 1
    ensures !(Acceptable(specs[i]) && specs[i].rename) ==> Installable(specs) == i
    decreases |specs|
  {
    assert specs[..i + 1][..i] == specs[..i];
    if i + 1 < |specs| {
      var init := specs[..|specs| - 1];
      assert init[..i] == specs[..i];
      InstallableStep(init, i);
    } else {
      assert specs[..i + 1] == specs;
    }
  }

  // ------------------------------------------------------------- path by path

  /** The newest backup of a path. */
  function LastFor(backups: seq<Backup>, p: Path): Option<Backup> {
    if backups == [] then None
    else if backups[|backups| - 1].path == p then Some(backups[|backups| - 1])
    else LastFor(backups[..|backups| - 1], p)
  }

  ghost predicate AllOf(backups: seq<Backup>, generation: nat) {
    forall i :: 0 <= i < |backups| ==> backups[i].generation == generation
  }

  /** No restore of a path still owned fails. */
  lemma {:induction false} RestoredMeaning(s: Store, backups: seq<Backup>, bad: set<Path>, generation: nat)
    requires AllOf(backups, generation) && generation > 0
    ensures Restored(s, backups, bad) <==>
            forall i :: 0 <= i < |backups| ==> GenerationAt(s, backups[i].path) != generation || backups[i].path !in bad
    decreases |backups|
  {
    if backups != [] {
      var n := |backups| - 1;
      var b, after := backups[n], RestoreOne(s, backups[n], bad);
      RestoredMeaning(after, backups[..n], bad, generation);
      assert forall p :: GenerationAt(after, p) == generation && p in bad <==> GenerationAt(s, p) == generation && p in bad;
      assert forall i :: 0 <= i < n ==> backups[..n][i] == backups[i];
    }
  }

  /** Rolling back one generation: each path it still owns gets its newest backup, nothing else moves. */
  lemma {:induction false} RestoreAt(s: Store, backups: seq<Backup>, bad: set<Path>, generation: nat, p: Path)
    requires AllOf(backups, generation) && generation > 0
    ensures var r, b := RestoreAll(s, backups, bad), LastFor(backups, p);
            && r.generation == s.generation
            && (if b.Some? && GenerationAt(s, p) == generation && p !in bad
                then FileAt(r, p) == b.value.previous && p !in r.current
                else FileAt(r, p) == FileAt(s, p) && GenerationAt(r, p) == GenerationAt(s, p) && (p in r.current <==> p in s.current))
    decreases |backups|
  {
    if backups != [] {
      var n := |backups| - 1;
      RestoreAt(RestoreOne(s, backups[n], bad), backups[..n], bad, generation, p);
    }
  }

  lemma {:induction false} ForgetAt(s: Store, backups: seq<Backup>, generation: nat, p: Path)
    requires AllOf(backups, generation) && generation > 0
    ensures var r := ForgetAll(s, backups);
            && r.files == s.files && r.generation == s.generation
            && (if LastFor(backups, p).Some? && GenerationAt(s, p) == generation then p !in r.current
                else GenerationAt(r, p) == GenerationAt(s, p) && (p in r.current <==> p in s.current))
  {
    if backups != [] {
      ForgetAt(s, backups[..|backups| - 1], generation, p);
    }
  }

  /** The position of the last spec for a path, if any. */
  function LastSpec(specs: seq<Spec>, p: Path): Option<nat> {
    if specs == [] then None
    else if specs[|specs| - 1].path == p then Some(|specs| - 1)
    else LastSpec(specs[..|specs| - 1], p)
  }

  lemma {:induction false} LastSpecMeaning(specs: seq<Spec>, p: Path)
    ensures LastSpec(specs, p).Some? ==> LastSpec(specs, p).value < |specs| && specs[LastSpec(specs, p).value].path == p
    ensures LastSpec(specs, p).Some? <==> exists i :: 0 <= i < |specs| && specs[i].path == p
  {
    if specs != [] {
      var n := |specs| - 1;
      LastSpecMeaning(specs[..n], p);
      if i :| 0 <= i < |specs| && specs[i].path == p {
        assert i < n ==> specs[..n][i].path == p;
      }
    }
  }

  lemma {:induction false} InstallAt(s: Store, specs: seq<Spec>, generation: nat, p: Path)
    ensures var r, k := InstallAll(s, specs, generation), LastSpec(specs, p);
            && r.generation == s.generation
            && (k.None? ==> FileAt(r, p) == FileAt(s, p) && GenerationAt(r, p) == GenerationAt(s, p) && (p in r.current <==> p in s.current))
            && (k.Some? ==> GenerationAt(r, p) == generation && p in r.current)
            && (k.Some? ==> k.value < |specs| && FileAt(r, p) == Some(FileOf(specs[k.value])))
  {
    if specs != [] {
      InstallAt(s, specs[..|specs| - 1], generation, p);
    }
  }

  lemma {:induction false} BackupsAt(s: Store, specs: seq<Spec>, generation: nat, p: Path)
    ensures var bs, k := BackupsOf(s, specs, generation), LastSpec(specs, p);
            && AllOf(bs, generation) && (LastFor(bs, p).Some? <==> k.Some?)
            && (k.Some? ==> k.value < |specs| && LastFor(bs, p).value.previous == FileAt(InstallAll(s, specs[..k.value], generation), p))
  {
    if specs != [] {
      var n := |specs| - 1;
      BackupsAt(s, specs[..n], generation, p);
      var bs := BackupsOf(s, specs, generation);
      assert bs[..|bs| - 1] == BackupsOf(s, specs[..n], generation);
      var k := LastSpec(specs[..n], p);
      if k.Some? {
        assert specs[..n][..k.value] == specs[..k.value];
      }
    }
  }

  ghost predicate DistinctPaths(specs: seq<Spec>) {
    forall i, j :: 0 <= i < j < |specs| ==> specs[i].path != specs[j].path
  }

  /** What a path holds just before the last of the specs for it is installed. */
  function Underneath(s: Store, specs: seq<Spec>, p: Path): Option<File> {
    LastSpecMeaning(specs, p);
    var k := LastSpec(specs, p);
    if k.None? then FileAt(s, p)
    else
      LastSpecMeaning(specs[..k.value], p);
      var j := LastSpec(specs[..k.value], p);
      if j.None? then FileAt(s, p) else Some(FileOf(specs[j.value]))
  }

  /**
   The newest backup of a path is the original file exactly if the path is named once, or
   the file named just before the last one is the one on disk already.
   */
  lemma {:induction false} NewestBackup(s: Store, specs: seq<Spec>, generation: nat, p: Path)
    requires LastSpec(specs, p).Some?
    ensures var b := LastFor(BackupsOf(s, specs, generation), p);
            b.Some? && b.value.previous == Underneath(s, specs, p)
  {
    BackupsAt(s, specs, generation, p);
    var k := LastSpec(specs, p).value;
    InstallAt(s, specs[..k], generation, p);
  }

  lemma DistinctUnderneath(s: Store, specs: seq<Spec>, p: Path)
    requires DistinctPaths(specs)
    ensures Underneath(s, specs, p) == FileAt(s, p)
  {
    LastSpecMeaning(specs, p);
    if LastSpec(specs, p).Some? {
      LastSpecMeaning(specs[..LastSpec(specs, p).value], p);
    }
  }

  // -------------------------------------------------------------- failing applies

  /** The specs a failing apply took a backup for: the installed ones, and one whose rename failed. */
  function BackedUp(specs: seq<Spec>): seq<Spec> {
    var n := Installable(specs);
    if n < |specs| && Acceptable(specs[n]) then specs[..n + 1] else specs[..n]
  }

  /** What a failing apply whose restores succeed leaves in a path. */
  lemma {:induction false} FailedApplyAt(s: Store, specs: seq<Spec>, generation: nat, p: Path)
    requires GenerationAt(s, p) < generation
    ensures FileAt(FailedApply(s, specs, generation, {}), p) ==
            if LastSpec(specs[..Installable(specs)], p).Some? then Underneath(s, BackedUp(specs), p) else FileAt(s, p)
  {
    var n := Installable(specs);
    var installed := InstallAll(s, specs[..n], generation);
    var backups := BackupsOf(s, BackedUp(specs), generation);
    InstallAt(s, specs[..n], generation, p);
    BackupsAt(s, BackedUp(specs), generation, p);
    RestoreAt(installed, backups, {}, generation, p);
    assert |BackedUp(specs)| == n + 1 ==> BackedUp(specs)[..n] == specs[..n];
    assert |BackedUp(specs)| == n || |BackedUp(specs)| == n + 1;
    if LastSpec(BackedUp(specs), p).Some? {
      NewestBackup(s, BackedUp(specs), generation, p);
    }
  }

  /**
   A failing apply whose restores succeed leaves every file as it was if and only if, for each
   path it installed, the file before that path's last backup was the original one.
   */
  lemma {:induction false} FailedApplyUndoesIff(s: Store, specs: seq<Spec>, generation: nat)
    requires forall p :: GenerationAt(s, p) < generation
    ensures FailedApply(s, specs, generation, {}).files == s.files <==>
            forall p :: LastSpec(specs[..Installable(specs)], p).Some? ==> Underneath(s, BackedUp(specs), p) == FileAt(s, p)
  {
    var r := FailedApply(s, specs, generation, {});
    forall p ensures FileAt(r, p) == if LastSpec(specs[..Installable(specs)], p).Some? then Underneath(s, BackedUp(specs), p) else FileAt(s, p) {
      FailedApplyAt(s, specs, generation, p);
    }
    if forall p :: FileAt(r, p) == FileAt(s, p) {
      SameFiles(r, s);
    }
  }

  /** With distinct paths it always does. */
  lemma FailedApplyUndoes(s: Store, specs: seq<Spec>, generation: nat)
    requires DistinctPaths(specs) && forall p :: GenerationAt(s, p) < generation
    ensures FailedApply(s, specs, generation, {}).files == s.files
  {
    forall p ensures Underneath(s, BackedUp(specs), p) == FileAt(s, p) {
      DistinctUnderneath(s, BackedUp(specs), p);
    }
    FailedApplyUndoesIff(s, specs, generation);
  }

  /** The same condition decides whether rolling back a successful apply at once undoes it. */
  lemma {:induction false} RollbackUndoesIff(s: Store, specs: seq<Spec>, generation: nat)
    requires generation > 0
    ensures RestoreAll(InstallAll(s, specs, generation), BackupsOf(s, specs, generation), {}).files == s.files <==>
            forall p :: LastSpec(specs, p).Some? ==> Underneath(s, specs, p) == FileAt(s, p)
  {
    var installed, backups := InstallAll(s, specs, generation), BackupsOf(s, specs, generation);
    var r := RestoreAll(installed, backups, {});
    forall p ensures FileAt(r, p) == if LastSpec(specs, p).Some? then Underneath(s, specs, p) else FileAt(s, p) {
      InstallAt(s, specs, generation, p);
      BackupsAt(s, specs, generation, p);
      RestoreAt(installed, backups, {}, generation, p);
      if LastSpec(specs, p).Some? {
        NewestBackup(s, specs, generation, p);
      }
    }
    if forall p :: FileAt(r, p) == FileAt(s, p) {
      SameFiles(r, s);
    }
  }

  lemma SameFiles(a: Store, b: Store)
    requires forall p :: FileAt(a, p) == FileAt(b, p)
    ensures a.files == b.files
  {
    forall p ensures p in a.files <==> p in b.files {
      assert FileAt(a, p) == FileAt(b, p);
    }
    forall p | p in a.files ensures a.files[p] == b.files[p] {
      assert FileAt(a, p) == FileAt(b, p);
    }
  }

  /** A path named twice is left with the first of the two new contents. */
  lemma RepeatedPathIsNotUndone()
    ensures var one, two := Spec("/etc/x", [1], 0, true, true), Spec("/etc/x", [2], 0, true, true);
            var bad := Spec("/etc/y", [], 0, true, true);
            FileAt(FailedApply(Store(map[], map[], 1), [one, two, bad], 1, {}), "/etc/x") == Some(File([1], DEFAULT_MODE))
  {
    var one, two := Spec("/etc/x", [1], 0, true, true), Spec("/etc/x", [2], 0, true, true);
    var bad := Spec("/etc/y", [], 0, true, true);
    var specs := [one, two, bad];
    assert specs[..2] == [one, two] && [one, two][..1] == [one] && [one][..0] == [];
    assert Installable([one]) == 1 && Installable([one, two]) == 2 && Installable(specs) == 2;
    assert BackedUp(specs) == [one, two];
    FailedApplyAt(Store(map[], map[], 1), specs, 1, "/etc/x");
  }

  // --------------------------------------------------- any number of transactions

  /** `before` is the disk when the transaction began. */
  datatype Tx = Tx(generation: nat, backups: seq<Backup>, specs: seq<Spec>, before: Store, finished: bool)

  /** `last` remembers, for every path ever installed, the generation that installed it last. */
  datatype Sys = Sys(store: Store, txs: map<nat, Tx>, last: map<Path, nat>)

  datatype Step =
    | Begin(id: nat, specs: seq<Spec>, bad: set<Path>)
    | Commit(id: nat)
    | Rollback(id: nat, bad: set<Path>)

  predicate Enabled(s: Sys, c: Step) {
    match c
    case Begin(id, _, _) => id !in s.txs
    case Commit(id) => id in s.txs
    case Rollback(id, _) => id in s.txs
  }

  function Marked(last: map<Path, nat>, specs: seq<Spec>, generation: nat): map<Path, nat> {
    if specs == [] then last else Marked(last, specs[..|specs| - 1], generation)[specs[|specs| - 1].path := generation]
  }

  function Do(s: Sys, c: Step): Sys
    requires Enabled(s, c)
  {
    match c
    case Begin(id, specs, bad) =>
      var start := Started(s.store);
      var g := start.generation;
      var n := Installable(specs);
      if n == |specs| then
        Sys(InstallAll(start, specs, g), s.txs[id := Tx(g, BackupsOf(start, specs, g), specs, start, false)], Marked(s.last, specs, g))
      else
        Sys(FailedApply(start, specs, g, bad), s.txs, Marked(s.last, specs[..n], g))
    case Commit(id) =>
      var tx := s.txs[id];
      if tx.finished then s else s.(store := ForgetAll(s.store, tx.backups), txs := s.txs[id := tx.(finished := true)])
    case Rollback(id, bad) =>
      var tx := s.txs[id];
      if tx.finished then s else s.(store := RestoreAll(s.store, tx.backups, bad), txs := s.txs[id := tx.(finished := true)])
  }

  function Exec(files: map<Path, File>, steps: seq<Step>): Option<Sys> {
    if steps == [] then Some(Sys(Store(files, map[], 0), map[], map[]))
    else
      var before := Exec(files, steps[..|steps| - 1]);
      if before.None? || !Enabled(before.value, steps[|steps| - 1]) then None
      else Some(Do(before.value, steps[|steps| - 1]))
  }

  function LastAt(s: Sys, p: Path): nat {
    if p in s.last then s.last[p] else 0
  }

  ghost predicate TxOk(s: Sys, tx: Tx) {
    && 0 < tx.generation <= s.store.generation && tx.backups == BackupsOf(tx.before, tx.specs, tx.generation)
  }

  /** An unfinished transaction still owns every path it installed last. */
  ghost predicate Owns(s: Sys, tx: Tx, p: Path) {
    !tx.finished && LastSpec(tx.specs, p).Some? && LastAt(s, p) == tx.generation ==> GenerationAt(s.store, p) == tx.generation
  }

  ghost predicate PathOk(s: Sys, p: Path) {
    LastAt(s, p) <= s.store.generation && (p in s.store.current ==> s.store.current[p] == LastAt(s, p))
  }

  ghost predicate Inv(s: Sys) {
    && (forall id :: id in s.txs ==> TxOk(s, s.txs[id]))
    && (forall p :: PathOk(s, p))
    && (forall id, p :: id in s.txs ==> Owns(s, s.txs[id], p))
    && (forall i, j :: i in s.txs && j in s.txs && s.txs[i].generation == s.txs[j].generation ==> i == j)
  }

  lemma {:induction false} MarkedAt(last: map<Path, nat>, specs: seq<Spec>, generation: nat, p: Path)
    ensures var r := Marked(last, specs, generation);
            if LastSpec(specs, p).Some? then p in r && r[p] == generation
            else (p in r <==> p in last) && (p in r ==> r[p] == last[p])
  {
    if specs != [] {
      MarkedAt(last, specs[..|specs| - 1], generation, p);
    }
  }

  /** One path, when a transaction begins or fails to: it is marked with the new generation or untouched. */
  ghost predicate Begun(s: Sys, s': Sys, p: Path) {
    var g := s.store.generation + 1;
    && s'.store.generation == g && PathOk(s', p)
    && (LastAt(s', p) == g || (LastAt(s', p) == LastAt(s, p) && GenerationAt(s'.store, p) == GenerationAt(s.store, p)))
  }

  lemma {:induction false} BeginOkAt(s: Sys, c: Step, p: Path)
    requires Enabled(s, c) && c.Begin? && PathOk(s, p) && Installable(c.specs) == |c.specs|
    ensures Begun(s, Do(s, c), p)
    ensures LastSpec(c.specs, p).Some? ==> GenerationAt(Do(s, c).store, p) == s.store.generation + 1 == LastAt(Do(s, c), p)
  {
    var g := s.store.generation + 1;
    MarkedAt(s.last, c.specs, g, p);
    InstallAt(s.store.(generation := g), c.specs, g, p);
  }

  lemma {:induction false} BeginFailAt(s: Sys, c: Step, p: Path)
    requires Enabled(s, c) && c.Begin? && PathOk(s, p) && Installable(c.specs) < |c.specs|
    ensures Begun(s, Do(s, c), p)
    ensures LastSpec(c.specs[..Installable(c.specs)], p).Some? ==> LastAt(Do(s, c), p) == s.store.generation + 1
  {
    var g, prefix := s.store.generation + 1, c.specs[..Installable(c.specs)];
    var start := s.store.(generation := g);
    MarkedAt(s.last, prefix, g, p);
    InstallAt(start, prefix, g, p);
    BackupsAt(start, BackedUp(c.specs), g, p);
    RestoreAt(InstallAll(start, prefix, g), BackupsOf(start, BackedUp(c.specs), g), c.bad, g, p);
  }

  lemma {:induction false} BeginAt(s: Sys, c: Step, p: Path)
    requires Enabled(s, c) && c.Begin? && PathOk(s, p)
    ensures Begun(s, Do(s, c), p)
    ensures Installable(c.specs) == |c.specs| && LastSpec(c.specs, p).Some? ==>
              GenerationAt(Do(s, c).store, p) == s.store.generation + 1
    ensures LastSpec(c.specs[..Installable(c.specs)], p).Some? ==> LastAt(Do(s, c), p) == s.store.generation + 1
  {
    if Installable(c.specs) == |c.specs| {
      BeginOkAt(s, c, p);
      assert c.specs[..|c.specs|] == c.specs;
    } else {
      BeginFailAt(s, c, p);
    }
  }

  lemma BeginTxs(s: Sys, c: Step, id: nat)
    requires Inv(s) && Enabled(s, c) && c.Begin? && id in Do(s, c).txs
    ensures TxOk(Do(s, c), Do(s, c).txs[id])
    ensures id in s.txs ==> Do(s, c).txs[id] == s.txs[id] && s.txs[id].generation <= s.store.generation
    ensures id !in s.txs ==> id == c.id && Do(s, c).txs[id].generation == s.store.generation + 1
  {
    BeginAt(s, c, "");
    if id in s.txs {
      assert TxOk(s, s.txs[id]);
    }
  }

  lemma BeginOwns(s: Sys, c: Step, id: nat, p: Path)
    requires Inv(s) && Enabled(s, c) && c.Begin? && id in Do(s, c).txs
    ensures Owns(Do(s, c), Do(s, c).txs[id], p)
  {
    BeginAt(s, c, p);
    BeginTxs(s, c, id);
    if id in s.txs {
      assert Owns(s, s.txs[id], p);
    }
  }

  lemma BeginInv(s: Sys, c: Step)
    requires Inv(s) && Enabled(s, c) && c.Begin?
    ensures Inv(Do(s, c))
  {
    var s' := Do(s, c);
    forall p ensures PathOk(s', p) {
      BeginAt(s, c, p);
    }
    forall id | id in s'.txs
      ensures TxOk(s', s'.txs[id])
      ensures id in s.txs ==> s'.txs[id] == s.txs[id] && s.txs[id].generation <= s.store.generation
      ensures id !in s.txs ==> id == c.id && s'.txs[id].generation == s.store.generation + 1
    {
      BeginTxs(s, c, id);
    }
    forall id, p | id in s'.txs ensures Owns(s', s'.txs[id], p) {
      BeginOwns(s, c, id, p);
    }
  }

  /** One path, when an unfinished transaction ends. */
  lemma EndAt(s: Sys, c: Step, p: Path)
    requires Inv(s) && Enabled(s, c) && !c.Begin?
    ensures var s', tx := Do(s, c), s.txs[c.id];
            && s'.store.generation == s.store.generation && s'.last == s.last && PathOk(s', p)
            && (GenerationAt(s'.store, p) == GenerationAt(s.store, p) || GenerationAt(s.store, p) == tx.generation)
  {
    var tx := s.txs[c.id];
    assert TxOk(s, tx) && PathOk(s, p);
    BackupsAt(tx.before, tx.specs, tx.generation, p);
    match c
    case Commit(_) => ForgetAt(s.store, tx.backups, tx.generation, p);
    case Rollback(_, bad) => RestoreAt(s.store, tx.backups, bad, tx.generation, p);
  }

  lemma EndInv(s: Sys, c: Step)
    requires Inv(s) && Enabled(s, c) && !c.Begin?
    ensures Inv(Do(s, c))
  {
    var s' := Do(s, c);
    EndAt(s, c, "");
    forall p ensures PathOk(s', p) {
      EndAt(s, c, p);
    }
    forall id | id in s'.txs ensures TxOk(s', s'.txs[id]) {
      assert TxOk(s, s.txs[id]);
    }
    forall id, p | id in s'.txs ensures Owns(s', s'.txs[id], p) {
      EndAt(s, c, p);
      assert Owns(s, s.txs[id], p) && PathOk(s, p) && Owns(s, s.txs[c.id], p);
    }
  }

  lemma {:induction false} InvRun(files: map<Path, File>, steps: seq<Step>)
    requires Exec(files, steps).Some?
    ensures Inv(Exec(files, steps).value)
  {
    if steps != [] {
      var before, c := Exec(files, steps[..|steps| - 1]).value, steps[|steps| - 1];
      InvRun(files, steps[..|steps| - 1]);
      if c.Begin? {
        BeginInv(before, c);
      } else {
        EndInv(before, c);
      }
    }
  }

  /**
   In every interleaving a rollback changes exactly the paths that its transaction
   was the last to install and whose restore succeeds, and gives each what it held
   just before the transaction's last installation of it.
   */
  lemma {:induction false} RollbackRestoresOwnPaths(files: map<Path, File>, steps: seq<Step>, s: Sys, id: nat, bad: set<Path>, p: Path)
    requires Exec(files, steps) == Some(s) && id in s.txs && !s.txs[id].finished
    ensures var tx, s' := s.txs[id], Do(s, Rollback(id, bad));
            FileAt(s'.store, p) == if LastSpec(tx.specs, p).Some? && LastAt(s, p) == tx.generation && p !in bad
                                   then Underneath(tx.before, tx.specs, p) else FileAt(s.store, p)
  {
    InvRun(files, steps);
    var tx := s.txs[id];
    assert TxOk(s, tx) && PathOk(s, p) && Owns(s, tx, p);
    BackupsAt(tx.before, tx.specs, tx.generation, p);
    RestoreAt(s.store, tx.backups, bad, tx.generation, p);
    if LastSpec(tx.specs, p).Some? {
      NewestBackup(tx.before, tx.specs, tx.generation, p);
    }
  }

  /** With distinct paths those are the exact contents and modes from before the transaction. */
  lemma {:induction false} DistinctPathsAreRestored(files: map<Path, File>, steps: seq<Step>, s: Sys, id: nat, bad: set<Path>, p: Path)
    requires Exec(files, steps) == Some(s) && id in s.txs && !s.txs[id].finished && DistinctPaths(s.txs[id].specs)
    ensures var tx, s' := s.txs[id], Do(s, Rollback(id, bad));
            FileAt(s'.store, p) == if LastSpec(tx.specs, p).Some? && LastAt(s, p) == tx.generation && p !in bad
                                   then FileAt(tx.before, p) else FileAt(s.store, p)
  {
    RollbackRestoresOwnPaths(files, steps, s, id, bad, p);
    DistinctUnderneath(s.txs[id].before, s.txs[id].specs, p);
  }

  /** Commits change no file, and a finished transaction can no longer change anything. */
  lemma {:induction false} FinishedIsInert(files: map<Path, File>, steps: seq<Step>, s: Sys, id: nat, bad: set<Path>)
    requires Exec(files, steps) == Some(s) && id in s.txs
    ensures Do(s, Commit(id)).store.files == s.store.files
    ensures s.txs[id].finished ==> Do(s, Commit(id)) == s && Do(s, Rollback(id, bad)) == s
    ensures forall c :: (c == Commit(id) || c == Rollback(id, bad)) ==> Do(s, c).txs[id].finished
  {
    InvRun(files, steps);
    assert TxOk(s, s.txs[id]);
    BackupsAt(s.txs[id].before, s.txs[id].specs, s.txs[id].generation, "");
    ForgetAt(s.store, s.txs[id].backups, s.txs[id].generation, "");
  }

  /**
   An unfinished transaction's rollback gives an installed path what it held before if and only if
   the transaction was the last to install it and the restore succeeds, or the path holds that already.
   */
  lemma {:induction false} RollbackRestoresPathIff(files: map<Path, File>, steps: seq<Step>, s: Sys, id: nat, bad: set<Path>, p: Path)
    requires Exec(files, steps) == Some(s) && id in s.txs && !s.txs[id].finished && LastSpec(s.txs[id].specs, p).Some?
    ensures var tx := s.txs[id];
            var original := Underneath(tx.before, tx.specs, p);
            FileAt(Do(s, Rollback(id, bad)).store, p) == original <==>
            (LastAt(s, p) == tx.generation && p !in bad) || FileAt(s.store, p) == original
  {
    RollbackRestoresOwnPaths(files, steps, s, id, bad, p);
  }

  /**
   The guard is by last installation, not by what is on disk: once a later transaction has
   installed a path, an earlier one's rollback leaves the path alone, even if the later one failed.
   */
  lemma {:induction false} LaterAttemptDisarmsRollback(files: map<Path, File>, steps: seq<Step>, s: Sys, first: nat, c: Step, bad: set<Path>, p: Path)
    requires Exec(files, steps) == Some(s) && first in s.txs && !s.txs[first].finished
    requires c.Begin? && Enabled(s, c) && LastSpec(c.specs[..Installable(c.specs)], p).Some?
    ensures var s' := Do(s, c); FileAt(Do(s', Rollback(first, bad)).store, p) == FileAt(s'.store, p)
  {
    InvRun(files, steps);
    BeginInv(s, c);
    assert PathOk(s, p) && TxOk(s, s.txs[first]);
    BeginAt(s, c, p);
    RollbackLeaves(Do(s, c), first, bad, p);
  }

  const A_ONE := Spec("/a", [1], 0, true, true)
  const A_TWO := Spec("/a", [2], 0, true, true)
  const EMPTY := Spec("/b", [], 0, true, true)

  /** Begins a transaction that installs one file. */
  function OneFile(spec: Spec): seq<Step> {
    [Begin(0, [spec], {})]
  }

  lemma {:induction false} AfterOneFile(files: map<Path, File>, spec: Spec)
    requires Acceptable(spec) && spec.rename
    ensures Exec(files, OneFile(spec)).Some?
    ensures var s := Exec(files, OneFile(spec)).value;
            && s.store == Store(files[spec.path := FileOf(spec)], map[spec.path := 1], 1)
            && s.txs.Keys == {0} && !s.txs[0].finished && s.txs[0].specs == [spec]
  {
    var begin, start := Begin(0, [spec], {}), Sys(Store(files, map[], 0), map[], map[]);
    assert OneFile(spec)[..0] == [] && Exec(files, []) == Some(start);
    assert [spec][..0] == [] && Installable([]) == 0 && Installable([spec]) == 1;
    assert Exec(files, OneFile(spec)) == Some(Do(start, begin));
    assert InstallAll(start.store.(generation := 1), [], 1) == start.store.(generation := 1);
  }

  lemma SecondFails()
    ensures Installable([A_TWO, EMPTY]) == 1 && [A_TWO, EMPTY][..1] == [A_TWO]
    ensures BackedUp([A_TWO, EMPTY]) == [A_TWO] && LastSpec([A_TWO], "/a") == Some(0)
  {
    assert [A_TWO][..0] == [] && [A_TWO, EMPTY][..1] == [A_TWO];
    assert Installable([]) == 0 && Installable([A_TWO]) == 1;
  }

  lemma {:induction false} TwoMore(files: map<Path, File>, steps: seq<Step>, s: Sys, c: Step, d: Step)
    requires Exec(files, steps) == Some(s) && Enabled(s, c) && Enabled(Do(s, c), d)
    ensures Exec(files, steps + [c, d]) == Some(Do(Do(s, c), d))
  {
    var two, three := steps + [c], steps + [c, d];
    assert two[..|two| - 1] == steps && three[..|three| - 1] == two && three[|three| - 1] == d;
  }

  /** One transaction installs [1] over [0]; another installs [2] and fails; the first one's rollback leaves [1]. */
  lemma {:induction false} FailedAttemptLosesOriginal()
    ensures var files := map["/a" := File([0], DEFAULT_MODE)];
            var r := Exec(files, OneFile(A_ONE) + [Begin(1, [A_TWO, EMPTY], {}), Rollback(0, {})]);
            r.Some? && FileAt(r.value.store, "/a") == Some(File([1], DEFAULT_MODE))
  {
    var files := map["/a" := File([0], DEFAULT_MODE)];
    var first, second, last := OneFile(A_ONE), Begin(1, [A_TWO, EMPTY], {}), Rollback(0, {});
    AfterOneFile(files, A_ONE);
    var s := Exec(files, first).value;
    SecondFails();
    LaterAttemptDisarmsRollback(files, first, s, 0, second, {}, "/a");
    var start := s.store.(generation := 2);
    FailedApplyAt(start, [A_TWO, EMPTY], 2, "/a");
    DistinctUnderneath(start, [A_TWO], "/a");
    TwoMore(files, first, s, second, last);
  }

  /** A commit forgets the generation of the paths its transaction still owns, and touches nothing else. */
  lemma {:induction false} CommitForgets(files: map<Path, File>, steps: seq<Step>, s: Sys, id: nat, p: Path)
    requires Exec(files, steps) == Some(s) && id in s.txs && !s.txs[id].finished
    ensures var s' := Do(s, Commit(id));
            && s'.store.files == s.store.files && s'.txs[id].finished
            && GenerationAt(s'.store, p) ==
                 if LastSpec(s.txs[id].specs, p).Some? && GenerationAt(s.store, p) == s.txs[id].generation then 0 else GenerationAt(s.store, p)
  {
    InvRun(files, steps);
    var tx := s.txs[id];
    assert TxOk(s, tx);
    BackupsAt(tx.before, tx.specs, tx.generation, p);
    ForgetAt(s.store, tx.backups, tx.generation, p);
  }

  lemma RollbackLeaves(s: Sys, id: nat, bad: set<Path>, p: Path)
    requires Inv(s) && id in s.txs && LastAt(s, p) != s.txs[id].generation
    ensures FileAt(Do(s, Rollback(id, bad)).store, p) == FileAt(s.store, p)
  {
    var tx := s.txs[id];
    assert TxOk(s, tx) && PathOk(s, p);
    BackupsAt(tx.before, tx.specs, tx.generation, p);
    RestoreAt(s.store, tx.backups, bad, tx.generation, p);
  }
}
