/** Activation of staged Flatpak artifacts: a transaction over renames, with rollback,
    in which any file operation may fail. */
module FlatpakActivation {
  import opened Text

  type Path = seq<string>
  type Content = seq<nat>
  type Files = map<Path, Content>

  /** What the file system does to one operation. A failed removal leaves `left`
      below the path it was asked to remove. */
  datatype Outcome = Works | Missing | Fails(left: Files)

  datatype Artifact = Artifact(target: Path, stage: Path)

  /** `Failed.reported` tells whether the returned error includes a rollback error. */
  datatype Result = Installed | Failed(reported: bool)

  predicate Under(p: Path, q: Path) { p <= q }

  predicate Apart(p: Path, q: Path) { !(p <= q) && !(q <= p) }

  function Get(files: Files, p: Path): Option<Content> { if p in files then Some(files[p]) else None }

  function Backup(backupRel: Path, target: Path): Path { backupRel + target }

  // ---------- the file system ----------

  class Root {
    var files: Files
    var operations: nat
    const oracle: nat -> Outcome

    constructor (files: Files, oracle: nat -> Outcome)
      ensures this.files == files && this.oracle == oracle
    {
      this.files, this.operations, this.oracle := files, 0, oracle;
    }

    method Next() returns (o: Outcome)
      modifies this`operations
      ensures operations == old(operations) + 1 && o == oracle(old(operations))
    {
      o := oracle(operations);
      operations := operations + 1;
    }

    /** A failed rename changes nothing. */
    method Rename(from: Path, to: Path) returns (ok: bool)
      requires from != to
      modifies this
      ensures operations == old(operations) + 1
      ensures ok == (oracle(old(operations)).Works? && from in old(files))
      ensures ok ==> files == (old(files) - {from})[to := old(files)[from]]
      ensures !ok ==> files == old(files)
    {
      var o := Next();
      ok := o.Works? && from in files;
      if ok {
        files := (files - {from})[to := files[from]];
      }
    }

    /** Removes everything at or below `p`; a failure leaves anything there. */
    method RemoveAll(p: Path) returns (o: Outcome)
      modifies this
      ensures operations == old(operations) + 1 && o == oracle(old(operations))
      ensures forall q | !Under(p, q) :: Get(files, q) == Get(old(files), q)
      ensures !o.Fails? ==> forall q | Under(p, q) :: q !in files
    {
      o := Next();
      files := map q | q in files && !Under(p, q) :: files[q];
      if o.Fails? {
        files := map q | q in files.Keys + o.left.Keys && (q in files || Under(p, q)) :: if q in files then files[q] else o.left[q];
      }
    }

    method Exists(p: Path) returns (r: Option<bool>)
      modifies this`operations
      ensures operations == old(operations) + 1
      ensures r == if oracle(old(operations)).Works? then Some(p in files) else None
    {
      var o := Next();
      r := if o.Works? then Some(p in files) else None;
    }

    /** Directories are not part of the map. */
    method EnsureDir() returns (ok: bool)
      modifies this`operations
      ensures operations == old(operations) + 1 && ok == oracle(old(operations)).Works?
    {
      var o := Next();
      ok := o.Works?;
    }
  }

  /** No operation from the given one on fails. */
  ghost predicate FaultFree(root: Root, from: nat) { forall k | from <= k :: root.oracle(k).Works? }

  /** At most one operation from the given one on fails. */
  ghost predicate OneFault(root: Root, from: nat) {
    forall j, k | from <= j < k :: root.oracle(j).Works? || root.oracle(k).Works?
  }

  /** One of the operations between two counts failed. */
  ghost predicate Faulty(root: Root, from: nat, to: nat) { exists k :: from <= k < to && !root.oracle(k).Works? }

  lemma {:induction false} FaultIsBehind(root: Root, from: nat, to: nat)
    requires OneFault(root, from) && Faulty(root, from, to)
    ensures FaultFree(root, to)
  {
    var j :| from <= j < to && !root.oracle(j).Works?;
    forall k | to <= k ensures root.oracle(k).Works? {
      assert j < k;
    }
  }

  // ---------- the layout ----------

  predicate Layout(artifacts: seq<Artifact>, backupRel: Path) {
    && (forall i, j | 0 <= i < j < |artifacts| :: Apart(artifacts[i].target, artifacts[j].target))
    && (forall i, j | 0 <= i < j < |artifacts| :: artifacts[i].stage != artifacts[j].stage)
    && (forall i, j | 0 <= i < |artifacts| && 0 <= j < |artifacts| :: Apart(artifacts[i].target, artifacts[j].stage))
    && (forall i | 0 <= i < |artifacts| :: Apart(backupRel, artifacts[i].target) && Apart(backupRel, artifacts[i].stage))
  }

  lemma {:induction false} BackupsDiffer(backupRel: Path, a: Path, b: Path)
    requires Backup(backupRel, a) == Backup(backupRel, b)
    ensures a == b
  {
    assert a == Backup(backupRel, a)[|backupRel|..];
    assert b == Backup(backupRel, b)[|backupRel|..];
  }

  lemma {:induction false} ApartFromBackup(backupRel: Path, p: Path, target: Path)
    requires Apart(backupRel, p)
    ensures !Under(p, Backup(backupRel, target)) && p != Backup(backupRel, target) && Under(backupRel, Backup(backupRel, target))
  {
  }

  // ---------- rollback ----------

  /** The rollback's pairs: `stage` is the backup of `target`. */
  predicate Pairs(moved: seq<Artifact>, backupRel: Path) {
    && (forall i, j | 0 <= i < j < |moved| :: Apart(moved[i].target, moved[j].target))
    && (forall i | 0 <= i < |moved| :: Apart(backupRel, moved[i].target) && moved[i].stage == Backup(backupRel, moved[i].target))
  }

  predicate Restored(was: Files, files: Files, m: Artifact) { Get(files, m.target) == Get(was, m.stage) }

  /** What was backed up is in the backup or back in its place. */
  predicate Kept(was: Files, files: Files, m: Artifact) {
    m.stage in was ==> Get(files, m.target) == Get(was, m.stage) || Get(files, m.stage) == Get(was, m.stage)
  }

  /** `p` is a target or a backup of the pairs from `from` on. */
  predicate Touched(moved: seq<Artifact>, from: nat, p: Path) {
    exists i :: from <= i < |moved| && (Under(moved[i].target, p) || p == moved[i].stage)
  }

  predicate KeptFrom(was: Files, files: Files, moved: seq<Artifact>, from: nat) {
    forall i | from <= i < |moved| :: Kept(was, files, moved[i])
  }

  predicate RestoredFrom(was: Files, files: Files, moved: seq<Artifact>, from: nat) {
    forall i | from <= i < |moved| :: Restored(was, files, moved[i])
  }

  ghost predicate SameElsewhere(was: Files, files: Files, moved: seq<Artifact>, from: nat) {
    forall q | !Touched(moved, from, q) :: Get(files, q) == Get(was, q)
  }

  ghost predicate OnePair(was: Files, files: Files, m: Artifact) {
    && Kept(was, files, m)
    && forall q | !Under(m.target, q) && q != m.stage :: Get(files, q) == Get(was, q)
  }

  lemma {:induction false} Untouched(moved: seq<Artifact>, backupRel: Path, i: nat)
    requires Pairs(moved, backupRel) && i < |moved|
    ensures !Touched(moved, i + 1, moved[i].target) && !Touched(moved, i + 1, moved[i].stage)
  {
    forall k | i < k < |moved|
      ensures !Under(moved[k].target, moved[i].target) && moved[i].target != moved[k].stage
      ensures !Under(moved[k].target, moved[i].stage) && moved[i].stage != moved[k].stage
    {
      ApartFromBackup(backupRel, moved[i].target, moved[k].target);
      ApartFromBackup(backupRel, moved[k].target, moved[i].target);
      if moved[i].stage == moved[k].stage {
        BackupsDiffer(backupRel, moved[i].target, moved[k].target);
      }
    }
  }

  lemma {:induction false} OtherPairs(moved: seq<Artifact>, backupRel: Path, i: nat, k: nat)
    requires Pairs(moved, backupRel) && i < k < |moved|
    ensures !Under(moved[i].target, moved[k].target) && moved[k].target != moved[i].stage
    ensures !Under(moved[i].target, moved[k].stage) && moved[k].stage != moved[i].stage
  {
    ApartFromBackup(backupRel, moved[i].target, moved[k].target);
    ApartFromBackup(backupRel, moved[k].target, moved[i].target);
    if moved[i].stage == moved[k].stage {
      BackupsDiffer(backupRel, moved[i].target, moved[k].target);
    }
  }

  lemma {:induction false} SameStill(was: Files, before: Files, after: Files, moved: seq<Artifact>, i: nat)
    requires i < |moved| && OnePair(before, after, moved[i]) && SameElsewhere(was, before, moved, i + 1)
    ensures SameElsewhere(was, after, moved, i)
  {
  }

  /** Undoing pair `i` keeps what undoing the later pairs achieved. */
  lemma {:induction false} OneMore(was: Files, before: Files, after: Files, moved: seq<Artifact>, backupRel: Path, i: nat, k: nat)
    requires Pairs(moved, backupRel) && i <= k < |moved| && OnePair(before, after, moved[i])
    requires KeptFrom(was, before, moved, i + 1) && SameElsewhere(was, before, moved, i + 1)
    ensures Kept(was, after, moved[k])
    ensures RestoredFrom(was, before, moved, i + 1) && Restored(before, after, moved[i]) ==> Restored(was, after, moved[k])
  {
    if i < k {
      OtherPairs(moved, backupRel, i, k);
      assert Kept(was, before, moved[k]);
    } else {
      Untouched(moved, backupRel, i);
    }
  }

  /** Undoes one pair: removes the target, then moves the backup back. */
  method RestoreOne(root: Root, m: Artifact, backupRel: Path) returns (ok: bool)
    requires Apart(backupRel, m.target) && m.stage == Backup(backupRel, m.target)
    modifies root
    ensures ok ==> Restored(old(root.files), root.files, m)
    ensures OnePair(old(root.files), root.files, m)
    ensures root.operations >= old(root.operations)
    ensures FaultFree(root, old(root.operations)) ==> ok
  {
    ApartFromBackup(backupRel, m.target, m.target);
    var removed := root.RemoveAll(m.target);
    assert Get(root.files, m.stage) == Get(old(root.files), m.stage);
    if removed.Fails? {
      return false;
    }
    var exists_ := root.Exists(m.stage);
    if exists_.None? {
      return false;
    }
    ok := true;
    if exists_.value {
      ok := root.Rename(m.stage, m.target);
    }
  }

  method Rollback(root: Root, moved: seq<Artifact>, backupRel: Path, initial: bool) returns (reported: bool)
    requires Pairs(moved, backupRel)
    modifies root
    ensures initial ==> reported && SameElsewhere(old(root.files), root.files, moved, 0)
    ensures !reported ==> RestoredFrom(old(root.files), root.files, moved, 0)
    ensures !reported ==> forall q | Under(backupRel, q) :: q !in root.files
    ensures KeptFrom(old(root.files), root.files, moved, 0)
    ensures forall q | !Touched(moved, 0, q) && !Under(backupRel, q) :: Get(root.files, q) == Get(old(root.files), q)
    ensures FaultFree(root, old(root.operations)) ==> reported == initial
  {
    reported := initial;
    var i := |moved|;
    while i > 0
      invariant 0 <= i <= |moved| && (initial ==> reported) && root.operations >= old(root.operations)
      invariant FaultFree(root, old(root.operations)) ==> reported == initial
      invariant !reported ==> RestoredFrom(old(root.files), root.files, moved, i)
      invariant KeptFrom(old(root.files), root.files, moved, i) && SameElsewhere(old(root.files), root.files, moved, i)
    {
      i := i - 1;
      ghost var before := root.files;
      var ok := RestoreOne(root, moved[i], backupRel);
      SameStill(old(root.files), before, root.files, moved, i);
      forall k | i <= k < |moved|
        ensures Kept(old(root.files), root.files, moved[k])
        ensures !reported && ok ==> Restored(old(root.files), root.files, moved[k])
      {
        OneMore(old(root.files), before, root.files, moved, backupRel, i, k);
      }
      if !ok {
        reported := true;
      }
    }
    if reported {
      return;
    }
    ghost var before := root.files;
    var o := root.RemoveAll(backupRel);
    reported := !o.Works?;
    forall k | 0 <= k < |moved| ensures Restored(old(root.files), root.files, moved[k]) {
      assert !Under(backupRel, moved[k].target);
      assert Restored(old(root.files), before, moved[k]);
    }
  }

  // ---------- activation ----------

  /** Activated: the staged content is in place and the original in the backup. */
  predicate Active(was: Files, files: Files, a: Artifact, backup: Path) {
    a.stage in was && Get(files, a.target) == Get(was, a.stage) && Get(files, backup) == Get(was, a.target)
  }

  predicate Waiting(was: Files, files: Files, a: Artifact, backup: Path) {
    Get(files, a.target) == Get(was, a.target) && Get(files, a.stage) == Get(was, a.stage) && Get(files, backup).None?
  }

  /** The original content is at its target or at its backup path. */
  predicate OriginalSafe(was: Files, files: Files, a: Artifact, backup: Path) {
    a.target in was ==> Get(files, a.target) == Get(was, a.target) || Get(files, backup) == Get(was, a.target)
  }

  /** How installing one artifact ends. `Stuck`: its original stays in the backup. */
  datatype Install = Moved | Unmoved | Stuck

  ghost predicate InstallEnds(was: Files, files: Files, a: Artifact, backup: Path, r: Install) {
    && (forall q | q != a.target && q != a.stage && q != backup :: Get(files, q) == Get(was, q))
    && (r.Moved? ==> Active(was, files, a, backup))
    && (r.Unmoved? ==> Get(files, a.target) == Get(was, a.target))
    && (r.Stuck? ==> a.target in was && Get(files, backup) == Get(was, a.target))
  }

  method InstallOne(root: Root, a: Artifact, backup: Path) returns (r: Install)
    requires a.target != a.stage && a.target != backup && a.stage != backup && backup !in root.files
    modifies root
    ensures InstallEnds(old(root.files), root.files, a, backup, r)
    ensures root.operations >= old(root.operations)
    ensures r != Moved && a.stage in old(root.files) ==> Faulty(root, old(root.operations), root.operations)
    ensures r.Stuck? && OneFault(root, old(root.operations)) ==> a.stage !in old(root.files)
    ensures r.Stuck? ==> Faulty(root, old(root.operations), root.operations)
  {
    var made := root.EnsureDir();
    if !made {
      return Unmoved;
    }
    var found := root.Exists(a.target);
    if found.None? {
      return Unmoved;
    }
    if found.value {
      var saved := root.Rename(a.target, backup);
      if !saved {
        return Unmoved;
      }
    }
    var placed := root.Rename(a.stage, a.target);
    if placed {
      return Moved;
    }
    if found.value {
      var restored := root.Rename(backup, a.target);
      if !restored {
        return Stuck;
      }
    }
    return Unmoved;
  }

  function BackupPairs(artifacts: seq<Artifact>, backupRel: Path, n: nat): (r: seq<Artifact>)
    requires n <= |artifacts|
    ensures |r| == n && forall i | 0 <= i < n :: r[i] == Artifact(artifacts[i].target, Backup(backupRel, artifacts[i].target))
  {
    if n == 0 then [] else BackupPairs(artifacts, backupRel, n - 1) + [Artifact(artifacts[n - 1].target, Backup(backupRel, artifacts[n - 1].target))]
  }

  /** The first `n` artifacts are active, the others wait. */
  predicate Progress(was: Files, files: Files, artifacts: seq<Artifact>, backupRel: Path, n: nat) {
    && (forall i | 0 <= i < n && i < |artifacts| :: Active(was, files, artifacts[i], Backup(backupRel, artifacts[i].target)))
    && (forall i | n <= i < |artifacts| :: Waiting(was, files, artifacts[i], Backup(backupRel, artifacts[i].target)))
  }

  lemma {:induction false} Separate(artifacts: seq<Artifact>, backupRel: Path, i: nat, k: nat)
    requires Layout(artifacts, backupRel) && i < |artifacts| && k < |artifacts| && i != k
    ensures var a, b := artifacts[i], artifacts[k]; var saved, kept := Backup(backupRel, a.target), Backup(backupRel, b.target);
            && a.target != b.target && a.target != b.stage && a.stage != b.target && a.stage != b.stage
            && a.target != kept && a.stage != kept && saved != b.target && saved != b.stage && saved != kept
  {
    var a, b := artifacts[i], artifacts[k];
    assert Apart(a.target, b.target) || Apart(b.target, a.target);
    assert Apart(a.target, b.stage) && Apart(b.target, a.stage);
    ApartFromBackup(backupRel, a.target, b.target);
    ApartFromBackup(backupRel, a.stage, b.target);
    ApartFromBackup(backupRel, b.target, a.target);
    ApartFromBackup(backupRel, b.stage, a.target);
    if Backup(backupRel, a.target) == Backup(backupRel, b.target) {
      BackupsDiffer(backupRel, a.target, b.target);
    }
  }

  lemma {:induction false} SeparateOwn(artifacts: seq<Artifact>, backupRel: Path, i: nat)
    requires Layout(artifacts, backupRel) && i < |artifacts|
    ensures var a := artifacts[i]; var saved := Backup(backupRel, a.target);
            a.target != a.stage && a.target != saved && a.stage != saved
  {
  }

  /** Installing artifact `n` leaves the others alone. */
  lemma {:induction false} OthersStay(was: Files, before: Files, after: Files, artifacts: seq<Artifact>, backupRel: Path, n: nat, r: Install)
    requires Layout(artifacts, backupRel) && n < |artifacts| && Progress(was, before, artifacts, backupRel, n)
    requires InstallEnds(before, after, artifacts[n], Backup(backupRel, artifacts[n].target), r)
    ensures forall i | 0 <= i < |artifacts| && i != n ::
              if i < n then Active(was, after, artifacts[i], Backup(backupRel, artifacts[i].target))
              else Waiting(was, after, artifacts[i], Backup(backupRel, artifacts[i].target))
  {
    forall i | 0 <= i < |artifacts| && i != n
      ensures if i < n then Active(was, after, artifacts[i], Backup(backupRel, artifacts[i].target))
              else Waiting(was, after, artifacts[i], Backup(backupRel, artifacts[i].target))
    {
      Separate(artifacts, backupRel, i, n);
    }
  }

  /** A path apart from the pairs' targets, outside the backups or an own backup. */
  lemma {:induction false} LaterUntouched(artifacts: seq<Artifact>, backupRel: Path, n: nat, i: nat)
    requires Layout(artifacts, backupRel) && n <= i < |artifacts|
    ensures var moved := BackupPairs(artifacts, backupRel, n);
            && !Touched(moved, 0, artifacts[i].target) && !Under(backupRel, artifacts[i].target)
            && !Touched(moved, 0, Backup(backupRel, artifacts[i].target))
  {
    var moved := BackupPairs(artifacts, backupRel, n);
    forall k | 0 <= k < |moved|
      ensures !Under(moved[k].target, artifacts[i].target) && artifacts[i].target != moved[k].stage
      ensures !Under(moved[k].target, Backup(backupRel, artifacts[i].target)) && Backup(backupRel, artifacts[i].target) != moved[k].stage
    {
      Separate(artifacts, backupRel, i, k);
      assert Apart(artifacts[k].target, artifacts[i].target);
      ApartFromBackup(backupRel, artifacts[k].target, artifacts[i].target);
    }
  }

  /** What rolling back the first `n` artifacts means for all of them. */
  lemma {:induction false} RolledBack(was: Files, before: Files, after: Files, artifacts: seq<Artifact>, backupRel: Path, n: nat, initial: bool, reported: bool)
    requires Layout(artifacts, backupRel) && n < |artifacts|
    requires forall i | 0 <= i < n :: Active(was, before, artifacts[i], Backup(backupRel, artifacts[i].target))
    requires forall i | n < i < |artifacts| :: Get(before, artifacts[i].target) == Get(was, artifacts[i].target)
    requires if initial then Get(before, Backup(backupRel, artifacts[n].target)) == Get(was, artifacts[n].target)
             else Get(before, artifacts[n].target) == Get(was, artifacts[n].target)
    requires var moved := BackupPairs(artifacts, backupRel, n);
             && (initial ==> reported && SameElsewhere(before, after, moved, 0))
             && (!reported ==> RestoredFrom(before, after, moved, 0))
             && KeptFrom(before, after, moved, 0)
             && forall q | !Touched(moved, 0, q) && !Under(backupRel, q) :: Get(after, q) == Get(before, q)
    ensures forall i | 0 <= i < |artifacts| :: OriginalSafe(was, after, artifacts[i], Backup(backupRel, artifacts[i].target))
    ensures !reported ==> forall i | 0 <= i < |artifacts| :: Get(after, artifacts[i].target) == Get(was, artifacts[i].target)
  {
    var moved := BackupPairs(artifacts, backupRel, n);
    forall i | 0 <= i < |artifacts|
      ensures OriginalSafe(was, after, artifacts[i], Backup(backupRel, artifacts[i].target))
      ensures !reported ==> Get(after, artifacts[i].target) == Get(was, artifacts[i].target)
    {
      if i < n {
        assert Kept(before, after, moved[i]);
        assert !reported ==> Restored(before, after, moved[i]);
      } else {
        LaterUntouched(artifacts, backupRel, n, i);
      }
    }
  }

  /** A path the transaction has no business with. */
  predicate Foreign(artifacts: seq<Artifact>, backupRel: Path, q: Path) {
    !Under(backupRel, q) && forall i | 0 <= i < |artifacts| :: !Under(artifacts[i].target, q) && q != artifacts[i].stage
  }

  lemma {:induction false} ForeignApart(artifacts: seq<Artifact>, backupRel: Path, n: nat)
    requires n < |artifacts|
    ensures forall q | Foreign(artifacts, backupRel, q) ::
              q != artifacts[n].target && q != artifacts[n].stage && q != Backup(backupRel, artifacts[n].target)
  {
    assert Under(backupRel, Backup(backupRel, artifacts[n].target)) && Under(artifacts[n].target, artifacts[n].target);
  }

  lemma {:induction false} ForeignUntouched(artifacts: seq<Artifact>, backupRel: Path, n: nat)
    requires n <= |artifacts|
    ensures forall q | Foreign(artifacts, backupRel, q) :: !Touched(BackupPairs(artifacts, backupRel, n), 0, q)
  {
  }

  predicate AllStaged(files: Files, artifacts: seq<Artifact>) { forall i | 0 <= i < |artifacts| :: artifacts[i].stage in files }

  /** Either every staged artifact is installed, with each original in its backup; or
      an error is returned and each original is at its target or its backup, and when
      the rollback reports no error every target is exactly as before. A single failing
      operation, wherever it strikes, is always undone without a rollback error. */
  method Activate(root: Root, artifacts: seq<Artifact>, backupRel: Path) returns (r: Result)
    requires Layout(artifacts, backupRel) && forall q | q in root.files :: !Under(backupRel, q)
    modifies root
    ensures r.Installed? ==> forall i | 0 <= i < |artifacts| ::
              && artifacts[i].stage in old(root.files)
              && Get(root.files, artifacts[i].target) == Get(old(root.files), artifacts[i].stage)
              && Get(root.files, Backup(backupRel, artifacts[i].target)) == Get(old(root.files), artifacts[i].target)
    ensures r.Failed? ==> forall i | 0 <= i < |artifacts| ::
              OriginalSafe(old(root.files), root.files, artifacts[i], Backup(backupRel, artifacts[i].target))
    ensures r == Failed(false) ==> forall i | 0 <= i < |artifacts| ::
              Get(root.files, artifacts[i].target) == Get(old(root.files), artifacts[i].target)
    ensures r == Failed(false) ==> forall q | q in root.files :: !Under(backupRel, q)
    ensures forall q | Foreign(artifacts, backupRel, q) :: Get(root.files, q) == Get(old(root.files), q)
    ensures FaultFree(root, old(root.operations)) && AllStaged(old(root.files), artifacts) ==> r.Installed?
    ensures FaultFree(root, old(root.operations)) && !AllStaged(old(root.files), artifacts) ==> r == Failed(false)
    ensures OneFault(root, old(root.operations)) && AllStaged(old(root.files), artifacts) ==> r != Failed(true)
  {
    ghost var was := root.files;
    var moved: seq<Artifact> := [];
    var n := 0;
    BackupsAbsent(was, artifacts, backupRel);
    while n < |artifacts|
      invariant 0 <= n <= |artifacts| && moved == BackupPairs(artifacts, backupRel, n)
      invariant Progress(was, root.files, artifacts, backupRel, n) && root.operations >= old(root.operations)
      invariant forall q | Foreign(artifacts, backupRel, q) :: Get(root.files, q) == Get(was, q)
    {
      var a := artifacts[n];
      var backup := Backup(backupRel, a.target);
      ghost var before := root.files;
      SeparateOwn(artifacts, backupRel, n);
      assert Waiting(was, before, a, backup);
      var step := InstallOne(root, a, backup);
      ForeignApart(artifacts, backupRel, n);
      OthersStay(was, before, root.files, artifacts, backupRel, n, step);
      if step != Moved {
        ghost var failed := root.files;
        var reported := Rollback(root, moved, backupRel, step == Stuck);
        ForeignUntouched(artifacts, backupRel, n);
        RolledBack(was, failed, root.files, artifacts, backupRel, n, step == Stuck, reported);
        return Failed(reported);
      }
      moved := moved + [Artifact(a.target, backup)];
      n := n + 1;
    }
    r := Installed;
  }

  lemma {:induction false} BackupsAbsent(files: Files, artifacts: seq<Artifact>, backupRel: Path)
    requires forall q | q in files :: !Under(backupRel, q)
    ensures Progress(files, files, artifacts, backupRel, 0)
  {
  }
}
