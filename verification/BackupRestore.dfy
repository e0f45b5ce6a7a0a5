/** Restoring a backup set over a live workspace: stage everything, move the live databases
    aside, install the staged ones, and roll back when any file operation fails. */
module BackupRestore {

  datatype Db = Far | Scheduler | SourceCache

  const WORKSPACE_DBS: seq<Db> := [Far, Scheduler, SourceCache]

  /** The position of a database in that list. */
  function Position(db: Db): nat {
    match db
    case Far => 0
    case Scheduler => 1
    case SourceCache => 2
  }

  /** File contents; a SHA-256 digest is taken to identify its content. */
  type Content = string

  datatype Path = Live(db: Db) | Aside(db: Db) | Staged(db: Db) | Backup(db: Db) | Journal(db: Db)

  datatype Member = Member(db: Db, sha256: Content)

  datatype Outcome =
    | Restored(restored: seq<Db>, movedAside: seq<Db>)
    | Refused                    // nothing was touched
    | RolledBack                 // failed, and every change was undone
    | RollbackIncomplete         // failed, and the originals require recovery

  /** A disk on which any operation may fail: the n-th one does when `faulty(n)`.  A failed copy
      may leave anything at its destination; a failed rename or unlink changes nothing. */
  class Disk {
    var files: map<Path, Content>
    var ops: nat
    const faulty: nat -> bool
    const leftover: nat -> map<Path, Content>

    constructor (files: map<Path, Content>, faulty: nat -> bool, leftover: nat -> map<Path, Content>)
      ensures this.files == files && ops == 0
    {
      this.files, this.ops, this.faulty, this.leftover := files, 0, faulty, leftover;
    }

    /** One of the operations numbered `from` up to `to` was faulty. */
    ghost predicate Faulted(from: nat, to: nat) { exists n: nat :: from <= n < to && faulty(n) }

    /** Exclusive copy. */
    method Copy(source: Path, target: Path) returns (ok: bool)
      modifies this
      ensures ops == old(ops) + 1 && (ok <==> source in old(files) && target !in old(files) && !faulty(old(ops)))
      ensures ok ==> source in old(files) && files == old(files)[target := old(files)[source]]
      ensures forall p :: p != target ==> (p in files <==> p in old(files)) && (p in files ==> files[p] == old(files)[p])
    {
      var n := ops;
      ops := ops + 1;
      if source !in files || target in files {
        return false;
      }
      if faulty(n) {
        if target in leftover(n) { files := files[target := leftover(n)[target]]; }
        return false;
      }
      files := files[target := files[source]];
      return true;
    }

    method Rename(source: Path, target: Path) returns (ok: bool)
      requires source != target
      modifies this
      ensures ops == old(ops) + 1 && (ok <==> source in old(files) && !faulty(old(ops)))
      ensures ok ==> source in old(files) && files == (old(files) - {source})[target := old(files)[source]]
      ensures !ok ==> files == old(files)
    {
      var n := ops;
      ops := ops + 1;
      if source !in files || faulty(n) {
        return false;
      }
      files := (files - {source})[target := files[source]];
      return true;
    }

    method Unlink(p: Path) returns (ok: bool)
      modifies this
      ensures ops == old(ops) + 1 && (ok <==> p in old(files) && !faulty(old(ops)))
      ensures files == if ok then old(files) - {p} else old(files)
    {
      var n := ops;
      ops := ops + 1;
      if p !in files || faulty(n) {
        return false;
      }
      files := files - {p};
      return true;
    }

    /** Removing the staging directory does not fail. */
    method RemoveStaging()
      modifies this
      ensures files == (map p | p in old(files) && !p.Staged? :: old(files)[p]) && ops == old(ops)
    {
      files := map p | p in files && !p.Staged? :: files[p];
    }
  }

  // ----- the states a restore can pass through -----

  predicate SameAt(files: map<Path, Content>, was: map<Path, Content>, p: Path) {
    (p in files <==> p in was) && (p in files ==> files[p] == was[p])
  }

  predicate HasAt(files: map<Path, Content>, p: Path, c: Content) { p in files && files[p] == c }

  /** One database, once the originals in `moved` are aside and the set members in `installed`
      are live. */
  predicate DbState(files: map<Path, Content>, was: map<Path, Content>, moved: set<Db>, installed: map<Db, Content>, db: Db) {
    && (if db in installed then HasAt(files, Live(db), installed[db])
        else if db in moved then Live(db) !in files
        else SameAt(files, was, Live(db)))
    && (if db in moved then Live(db) in was && HasAt(files, Aside(db), was[Live(db)]) else SameAt(files, was, Aside(db)))
    && SameAt(files, was, Backup(db)) && SameAt(files, was, Journal(db))
  }

  /** Every database; and nothing is installed over an original that is still in place. */
  predicate InState(files: map<Path, Content>, was: map<Path, Content>, moved: set<Db>, installed: map<Db, Content>) {
    forall db: Db ::
      && DbState(files, was, moved, installed, db)
      && (db in installed && Live(db) in was ==> db in moved)
  }

  predicate ValidManifest(files: seq<Member>) {
    && (exists i :: 0 <= i < |files| && files[i].db == Far)
    && forall i, j :: 0 <= i < j < |files| ==> files[i].db != files[j].db
  }

  predicate Verified(manifest: seq<Member>, files: map<Path, Content>) {
    forall i :: 0 <= i < |manifest| ==> HasAt(files, Backup(manifest[i].db), manifest[i].sha256)
  }

  /** The workspace is cold, and the live databases may be moved aside. */
  predicate MayReplace(files: map<Path, Content>, replace: bool) {
    forall db: Db :: Journal(db) !in files && (Live(db) in files ==> replace && Aside(db) !in files)
  }

  /** What a restore must refuse: a set without the main database or with one twice, a member that is missing or changed,
      a journal that is still there, a live database without leave to replace it or whose place aside is taken. */
  predicate MustRefuse(manifest: seq<Member>, files: map<Path, Content>, replace: bool) {
    || (forall i :: 0 <= i < |manifest| ==> manifest[i].db != Far)
    || (exists i, j :: 0 <= i < |manifest| && 0 <= j < |manifest| && i != j && manifest[i].db == manifest[j].db)
    || (exists i :: 0 <= i < |manifest| && (Backup(manifest[i].db) !in files || files[Backup(manifest[i].db)] != manifest[i].sha256))
    || (exists db: Db :: Journal(db) in files)
    || (exists db: Db :: Live(db) in files && (!replace || Aside(db) in files))
  }

  lemma RefusedExactly(manifest: seq<Member>, files: map<Path, Content>, replace: bool)
    ensures MustRefuse(manifest, files, replace) <==>
      !(ValidManifest(manifest) && Verified(manifest, files) && MayReplace(files, replace))
  {
  }

  function Names(manifest: seq<Member>): seq<Db> {
    seq(|manifest|, i requires 0 <= i < |manifest| => manifest[i].db)
  }

  function SetOf(dbs: seq<Db>): set<Db> { set i | 0 <= i < |dbs| :: dbs[i] }

  function Installed(manifest: seq<Member>, k: nat): map<Db, Content>
    requires k <= |manifest|
  {
    if k == 0 then map[] else Installed(manifest, k - 1)[manifest[k - 1].db := manifest[k - 1].sha256]
  }

  // ----- what the endings mean -----

  /** The live trio is the backup set, and every original is at its aside path. */
  predicate Replaced(files: map<Path, Content>, was: map<Path, Content>, manifest: seq<Member>) {
    && (forall i :: 0 <= i < |manifest| ==> HasAt(files, Live(manifest[i].db), manifest[i].sha256))
    && (forall db: Db :: db !in Names(manifest) ==> Live(db) !in files)
    && (forall db: Db :: Live(db) in was ==> HasAt(files, Aside(db), was[Live(db)]))
  }

  predicate BackupsIntact(files: map<Path, Content>, was: map<Path, Content>) {
    forall db: Db :: SameAt(files, was, Backup(db))
  }

  predicate Untouched(files: map<Path, Content>, was: map<Path, Content>) {
    forall db: Db :: SameAt(files, was, Live(db)) && SameAt(files, was, Aside(db))
  }

  /** No original is lost: each is at its live or its aside path. */
  predicate OriginalsSurvive(files: map<Path, Content>, was: map<Path, Content>) {
    forall db: Db :: Live(db) in was ==>
      HasAt(files, Live(db), was[Live(db)]) || HasAt(files, Aside(db), was[Live(db)])
  }

  lemma StateKeepsOriginals(files: map<Path, Content>, was: map<Path, Content>, moved: set<Db>, installed: map<Db, Content>)
    requires InState(files, was, moved, installed)
    ensures OriginalsSurvive(files, was) && BackupsIntact(files, was)
    ensures moved == {} && installed == map[] ==> Untouched(files, was)
  {
    forall db: Db
      ensures SameAt(files, was, Backup(db))
      ensures Live(db) in was ==> HasAt(files, Live(db), was[Live(db)]) || HasAt(files, Aside(db), was[Live(db)])
    {
      assert DbState(files, was, moved, installed, db);
    }
  }

  lemma {:induction false} InstalledMembers(manifest: seq<Member>, k: nat)
    requires ValidManifest(manifest) && k <= |manifest|
    ensures forall i :: 0 <= i < k ==> manifest[i].db in Installed(manifest, k) && Installed(manifest, k)[manifest[i].db] == manifest[i].sha256
    ensures forall db :: db in Installed(manifest, k) ==> exists i :: 0 <= i < k && manifest[i].db == db
  {
    if k > 0 {
      InstalledMembers(manifest, k - 1);
    }
  }

  // ----- the phases -----

  lemma BackupHolds(files: map<Path, Content>, was: map<Path, Content>, moved: set<Db>, installed: map<Db, Content>, db: Db)
    requires InState(files, was, moved, installed)
    ensures SameAt(files, was, Backup(db))
  {
    assert DbState(files, was, moved, installed, db);
  }

  /** Whatever a copy leaves in the staging directory, the state stays. */
  lemma StagedOne(before: map<Path, Content>, files: map<Path, Content>, was: map<Path, Content>, db: Db)
    requires InState(before, was, {}, map[])
    requires forall p :: p != Staged(db) ==> (p in files <==> p in before) && (p in files ==> files[p] == before[p])
    ensures InState(files, was, {}, map[])
  {
    assert forall d: Db :: DbState(before, was, {}, map[], d) ==> DbState(files, was, {}, map[], d);
  }

  /** Copy and re-verify every member; live state is not touched. */
  method Stage(disk: Disk, manifest: seq<Member>, ghost was: map<Path, Content>) returns (ok: bool)
    requires InState(disk.files, was, {}, map[]) && ValidManifest(manifest) && Verified(manifest, was)
    requires forall db: Db :: Staged(db) !in disk.files
    modifies disk
    ensures InState(disk.files, was, {}, map[])
    ensures disk.ops >= old(disk.ops) && (ok || disk.Faulted(old(disk.ops), disk.ops))
    ensures ok ==> forall i :: 0 <= i < |manifest| ==> HasAt(disk.files, Staged(manifest[i].db), manifest[i].sha256)
  {
    hide InState;
    var i := 0;
    while i < |manifest|
      invariant i <= |manifest| && InState(disk.files, was, {}, map[])
      invariant forall j :: 0 <= j < i ==> HasAt(disk.files, Staged(manifest[j].db), manifest[j].sha256)
      invariant forall j :: i <= j < |manifest| ==> Staged(manifest[j].db) !in disk.files
      invariant disk.ops >= old(disk.ops)
    {
      var m := manifest[i];
      BackupHolds(disk.files, was, {}, map[], m.db);
      ghost var before := disk.files;
      var copied := disk.Copy(Backup(m.db), Staged(m.db));
      StagedOne(before, disk.files, was, m.db);
      if !copied || disk.files[Staged(m.db)] != m.sha256 {
        return false;
      }
      i := i + 1;
    }
    return true;
  }

  predicate StagedFrom(files: map<Path, Content>, manifest: seq<Member>, k: nat) {
    forall i :: k <= i < |manifest| ==> HasAt(files, Staged(manifest[i].db), manifest[i].sha256)
  }

  /** Renaming one live database to its aside path. */
  lemma MovedOne(before: map<Path, Content>, files: map<Path, Content>, was: map<Path, Content>, moved: set<Db>, db: Db)
    requires InState(before, was, moved, map[]) && db !in moved && Live(db) in before
    requires files == (before - {Live(db)})[Aside(db) := before[Live(db)]]
    ensures InState(files, was, moved + {db}, map[])
  {
  }

  method MoveAside(disk: Disk, manifest: seq<Member>, ghost was: map<Path, Content>) returns (ok: bool, moved: seq<Db>)
    requires InState(disk.files, was, {}, map[]) && StagedFrom(disk.files, manifest, 0)
    modifies disk
    ensures InState(disk.files, was, SetOf(moved), map[]) && StagedFrom(disk.files, manifest, 0)
    ensures forall i, j :: 0 <= i < j < |moved| ==> moved[i] != moved[j]
    ensures ok ==> forall db: Db :: db in SetOf(moved) <==> Live(db) in was
    ensures disk.ops >= old(disk.ops) && (ok || disk.Faulted(old(disk.ops), disk.ops))
  {
    moved := [];
    assert SetOf(moved) == {};
    var i := 0;
    while i < |WORKSPACE_DBS|
      invariant i <= |WORKSPACE_DBS|
      invariant InState(disk.files, was, SetOf(moved), map[]) && StagedFrom(disk.files, manifest, 0)
      invariant forall j, k :: 0 <= j < k < |moved| ==> moved[j] != moved[k]
      invariant forall db: Db :: db in SetOf(moved) <==> Live(db) in was && Position(db) < i
      invariant disk.ops >= old(disk.ops)
    {
      var db := WORKSPACE_DBS[i];
      assert DbState(disk.files, was, SetOf(moved), map[], db);
      assert Position(db) == i && forall d: Db :: Position(d) == i ==> d == db;
      if Live(db) in disk.files {
        ghost var before := disk.files;
        var renamed := disk.Rename(Live(db), Aside(db));
        if !renamed {
          return false, moved;
        }
        MovedOne(before, disk.files, was, SetOf(moved), db);
        SetOfAppend(moved, db);
        moved := moved + [db];
      }
      i := i + 1;
    }
    return true, moved;
  }

  lemma SetOfAppend(dbs: seq<Db>, db: Db)
    ensures SetOf(dbs + [db]) == SetOf(dbs) + {db}
  {
    var all := dbs + [db];
    assert all[|dbs|] == db && forall i :: 0 <= i < |dbs| ==> all[i] == dbs[i];
    assert forall d :: d in SetOf(dbs) ==> d in SetOf(all);
  }

  lemma SetOfPrefix(dbs: seq<Db>, k: nat)
    requires 0 < k <= |dbs| && forall i, j :: 0 <= i < j < |dbs| ==> dbs[i] != dbs[j]
    ensures SetOf(dbs[..k]) == SetOf(dbs[..k - 1]) + {dbs[k - 1]}
    ensures dbs[k - 1] !in SetOf(dbs[..k - 1])
  {
  }

  /** Renaming one staged member into place. */
  lemma InstalledOne(before: map<Path, Content>, files: map<Path, Content>, was: map<Path, Content>, moved: set<Db>, installed: map<Db, Content>, m: Member)
    requires InState(before, was, moved, installed) && m.db !in installed && HasAt(before, Staged(m.db), m.sha256)
    requires Live(m.db) in was ==> m.db in moved
    requires files == (before - {Staged(m.db)})[Live(m.db) := before[Staged(m.db)]]
    ensures InState(files, was, moved, installed[m.db := m.sha256])
  {
  }

  method Install(disk: Disk, manifest: seq<Member>, moved: seq<Db>, ghost was: map<Path, Content>) returns (ok: bool, count: nat)
    requires InState(disk.files, was, SetOf(moved), map[]) && StagedFrom(disk.files, manifest, 0) && ValidManifest(manifest)
    requires forall db: Db :: Live(db) in was ==> db in SetOf(moved)
    modifies disk
    ensures count <= |manifest| && InState(disk.files, was, SetOf(moved), Installed(manifest, count))
    ensures ok ==> count == |manifest|
    ensures disk.ops >= old(disk.ops) && (ok || disk.Faulted(old(disk.ops), disk.ops))
  {
    hide InState, SetOf;
    count := 0;
    while count < |manifest|
      invariant count <= |manifest| && InState(disk.files, was, SetOf(moved), Installed(manifest, count))
      invariant StagedFrom(disk.files, manifest, count) && disk.ops >= old(disk.ops)
    {
      var m := manifest[count];
      InstalledMembers(manifest, count);
      ghost var before := disk.files;
      var renamed := disk.Rename(Staged(m.db), Live(m.db));
      if !renamed {
        return false, count;
      }
      InstalledOne(before, disk.files, was, SetOf(moved), Installed(manifest, count), m);
      count := count + 1;
    }
    return true, count;
  }

  lemma UninstalledOne(before: map<Path, Content>, files: map<Path, Content>, was: map<Path, Content>, moved: set<Db>, installed: map<Db, Content>, db: Db)
    requires InState(before, was, moved, installed) && db in installed && files == before - {Live(db)}
    ensures InState(files, was, moved, installed - {db})
  {
  }

  lemma MovedBackOne(before: map<Path, Content>, files: map<Path, Content>, was: map<Path, Content>, moved: set<Db>, installed: map<Db, Content>, db: Db)
    requires InState(before, was, moved, installed) && db in moved && Live(db) !in before && Aside(db) in before
    requires files == (before - {Aside(db)})[Live(db) := before[Aside(db)]]
    requires Aside(db) !in was
    ensures InState(files, was, moved - {db}, installed)
  {
  }

  /** Remove the installed members, newest first. */
  method Uninstall(disk: Disk, manifest: seq<Member>, count: nat, moved: seq<Db>, ghost was: map<Path, Content>)
    returns (complete: bool, ghost installed: map<Db, Content>)
    requires count <= |manifest| && ValidManifest(manifest)
    requires InState(disk.files, was, SetOf(moved), Installed(manifest, count))
    modifies disk
    ensures InState(disk.files, was, SetOf(moved), installed)
    ensures complete ==> installed == map[]
    ensures disk.ops >= old(disk.ops) && (complete || disk.Faulted(old(disk.ops), disk.ops))
  {
    hide InState, Installed, SetOf;
    complete := true;
    installed := Installed(manifest, count);
    var k: nat := count;
    InstalledMembers(manifest, count);
    NoneInstalled(manifest);
    while k > 0
      invariant k <= count && InState(disk.files, was, SetOf(moved), installed)
      invariant complete ==> installed == Installed(manifest, k)
      invariant forall i :: 0 <= i < k ==> manifest[i].db in installed
      invariant disk.ops >= old(disk.ops) && (complete || disk.Faulted(old(disk.ops), disk.ops))
    {
      InstalledPop(manifest, k);
      LiveHolds(disk.files, was, SetOf(moved), installed, manifest[k - 1].db);
      k := k - 1;
      ghost var before := disk.files;
      var removed := disk.Unlink(Live(manifest[k].db));
      if removed {
        UninstalledOne(before, disk.files, was, SetOf(moved), installed, manifest[k].db);
        installed := installed - {manifest[k].db};
      } else {
        complete := false;
      }
    }
  }

  lemma NoneInstalled(manifest: seq<Member>)
    ensures Installed(manifest, 0) == map[]
  {
  }

  lemma InstalledPop(manifest: seq<Member>, k: nat)
    requires ValidManifest(manifest) && 0 < k <= |manifest|
    ensures Installed(manifest, k) - {manifest[k - 1].db} == Installed(manifest, k - 1)
  {
    InstalledMembers(manifest, k - 1);
  }

  /** Move the originals back, newest first; one whose live path is taken stays aside. */
  method MoveBack(disk: Disk, moved: seq<Db>, ghost was: map<Path, Content>, ghost installed: map<Db, Content>)
    returns (complete: bool, ghost rest: set<Db>)
    requires InState(disk.files, was, SetOf(moved), installed)
    requires forall i, j :: 0 <= i < j < |moved| ==> moved[i] != moved[j]
    requires forall db: Db :: Live(db) in was ==> Aside(db) !in was
    modifies disk
    ensures InState(disk.files, was, rest, installed)
    ensures complete ==> rest == {}
    ensures disk.ops >= old(disk.ops) && (complete || installed != map[] || disk.Faulted(old(disk.ops), disk.ops))
  {
    hide DbState, SetOf;
    complete := true;
    rest := SetOf(moved);
    var i := |moved|;
    assert moved[..i] == moved;
    while i > 0
      invariant i <= |moved| && InState(disk.files, was, rest, installed)
      invariant SetOf(moved[..i]) <= rest && (complete ==> rest == SetOf(moved[..i]))
      invariant disk.ops >= old(disk.ops) && (complete || installed != map[] || disk.Faulted(old(disk.ops), disk.ops))
    {
      i := i - 1;
      SetOfPrefix(moved, i + 1);
      var db := moved[i];
      AsideHolds(disk.files, was, rest, installed, db);
      if Live(db) in disk.files {
        complete := false;
      } else {
        ghost var before := disk.files;
        var renamed := disk.Rename(Aside(db), Live(db));
        if renamed {
          MovedBackOne(before, disk.files, was, rest, installed, db);
          rest := rest - {db};
        } else {
          complete := false;
        }
      }
    }
    EmptySet(moved);
  }

  lemma EmptySet(moved: seq<Db>)
    ensures SetOf(moved[..0]) == {}
  {
  }

  lemma AsideHolds(files: map<Path, Content>, was: map<Path, Content>, moved: set<Db>, installed: map<Db, Content>, db: Db)
    requires InState(files, was, moved, installed) && db in moved
    ensures Live(db) in was && Aside(db) in files && (Live(db) in files ==> installed != map[])
  {
    assert DbState(files, was, moved, installed, db);
  }

  lemma LiveHolds(files: map<Path, Content>, was: map<Path, Content>, moved: set<Db>, installed: map<Db, Content>, db: Db)
    requires InState(files, was, moved, installed) && db in installed
    ensures Live(db) in files
  {
    assert DbState(files, was, moved, installed, db);
  }

  /** Undo in reverse order; what cannot be undone is reported, never overwritten. */
  method Rollback(disk: Disk, manifest: seq<Member>, count: nat, moved: seq<Db>, ghost was: map<Path, Content>) returns (complete: bool)
    requires count <= |manifest| && ValidManifest(manifest)
    requires InState(disk.files, was, SetOf(moved), Installed(manifest, count))
    requires forall i, j :: 0 <= i < j < |moved| ==> moved[i] != moved[j]
    requires forall db: Db :: Live(db) in was ==> Aside(db) !in was
    modifies disk
    ensures OriginalsSurvive(disk.files, was) && BackupsIntact(disk.files, was)
    ensures complete ==> Untouched(disk.files, was)
    ensures disk.ops >= old(disk.ops) && (complete || disk.Faulted(old(disk.ops), disk.ops))
  {
    hide InState;
    var removed, installed := Uninstall(disk, manifest, count, moved, was);
    var returned, rest := MoveBack(disk, moved, was, installed);
    StateKeepsOriginals(disk.files, was, rest, installed);
    complete := removed && returned;
  }

  lemma StagingIsElsewhere(before: map<Path, Content>, files: map<Path, Content>, was: map<Path, Content>, manifest: seq<Member>)
    requires files == map p | p in before && !p.Staged? :: before[p]
    ensures OriginalsSurvive(before, was) ==> OriginalsSurvive(files, was)
    ensures Untouched(before, was) ==> Untouched(files, was)
    ensures BackupsIntact(before, was) ==> BackupsIntact(files, was)
    ensures Replaced(before, was, manifest) ==> Replaced(files, was, manifest)
  {
  }

  lemma FullyInstalled(files: map<Path, Content>, was: map<Path, Content>, moved: set<Db>, manifest: seq<Member>)
    requires ValidManifest(manifest) && InState(files, was, moved, Installed(manifest, |manifest|))
    requires forall db: Db :: db in moved <==> Live(db) in was
    ensures Replaced(files, was, manifest)
  {
    var installed := Installed(manifest, |manifest|);
    InstalledMembers(manifest, |manifest|);
    forall i | 0 <= i < |manifest|
      ensures HasAt(files, Live(manifest[i].db), manifest[i].sha256)
    {
      assert DbState(files, was, moved, installed, manifest[i].db);
    }
    forall db: Db
      ensures db !in Names(manifest) ==> Live(db) !in files
      ensures Live(db) in was ==> HasAt(files, Aside(db), was[Live(db)])
    {
      assert DbState(files, was, moved, installed, db);
      if db in installed {
        var i :| 0 <= i < |manifest| && manifest[i].db == db;
        assert Names(manifest)[i] == db;
      }
    }
  }

  /** `restoreWorkspace`, with every copy, rename and unlink free to fail.  The staging directory
      is fresh, so nothing is staged at the start. */
  method RestoreWorkspace(disk: Disk, manifest: seq<Member>, replace: bool) returns (outcome: Outcome)
    requires forall db: Db :: Staged(db) !in disk.files
    modifies disk
    ensures OriginalsSurvive(disk.files, old(disk.files)) && BackupsIntact(disk.files, old(disk.files))
    ensures outcome.Refused? <==> MustRefuse(manifest, old(disk.files), replace)
    ensures outcome.Refused? ==> disk.files == old(disk.files)
    ensures outcome.RolledBack? ==> Untouched(disk.files, old(disk.files))
    ensures outcome.Restored? ==> Replaced(disk.files, old(disk.files), manifest) && outcome.restored == Names(manifest)
    ensures outcome.Restored? ==> forall db: Db :: db in SetOf(outcome.movedAside) <==> Live(db) in old(disk.files)
    ensures outcome.RolledBack? ==> disk.Faulted(old(disk.ops), disk.ops)
    ensures outcome.RollbackIncomplete? ==> exists k: nat :: disk.Faulted(old(disk.ops), k) && disk.Faulted(k, disk.ops)
  {
    ghost var was := disk.files;
    RefusedExactly(manifest, disk.files, replace);
    if !ValidManifest(manifest) || !Verified(manifest, disk.files) || !MayReplace(disk.files, replace) {
      return Refused;
    }
    var ok := Stage(disk, manifest, was);
    var moved, count := [], 0;
    assert SetOf(moved) == {};
    if ok {
      ok, moved := MoveAside(disk, manifest, was);
    }
    if ok {
      ok, count := Install(disk, manifest, moved, was);
    }
    if ok {
      FullyInstalled(disk.files, was, SetOf(moved), manifest);
      StateKeepsOriginals(disk.files, was, SetOf(moved), Installed(manifest, count));
      outcome := Restored(Names(manifest), moved);
    } else {
      var complete := Rollback(disk, manifest, count, moved, was);
      outcome := if complete then RolledBack else RollbackIncomplete;
    }
    ghost var before := disk.files;
    disk.RemoveStaging();
    StagingIsElsewhere(before, disk.files, was, manifest);
  }
}
