// The synchronisation tools: local sync, remote pull, and the mirror check.
module SyncSession {
  import opened Paths
  import opened ObjectModel
  import opened Store
  import opened Repository
  import opened Replication
  import opened Mirrors

  // ----------------------------------------------------- one revision's data

  method CollectObjects(repo: Repository, changes: seq<TreeChange>) returns (objects: ObjectList)
    ensures objects == BlobsOf(repo.objects, changes)
  {
    objects := [];
    var i := 0;
    while i < |changes|
      invariant 0 <= i <= |changes| && objects == BlobsOf(repo.objects, changes[..i])
    {
      assert changes[..i + 1][..i] == changes[..i];
      match changes[i] {
        case Upsert(_, entry) =>
          if entry.kind.BlobKind? && entry.id in repo.objects {
            objects := objects + [(entry.id, repo.objects[entry.id].data)];
          }
        case Delete(_) =>
      }
      i := i + 1;
    }
    assert changes[..i] == changes;
  }

  /** extract_revision_data, and build_revision_data on the server side */
  method ExtractRevisionData(repo: Repository, rev: nat) returns (r: Result<RevisionData>)
    ensures rev in repo.commits ==> r == Ok(Extract(repo.State(), rev))
    ensures rev !in repo.commits ==> r == Err(RevisionNotFound(rev))
  {
    if rev !in repo.commits { return Err(RevisionNotFound(rev)); }
    var delta := if rev in repo.deltas then repo.deltas[rev] else DeltaTree(if rev > 0 then rev - 1 else 0, [], 0);
    var objects := CollectObjects(repo, delta.changes);
    r := Ok(RevisionData(rev, repo.commits[rev].meta, delta, objects, DigestOf(objects), delta.changes == []));
  }

  method StoreObjects(repo: Repository, list: ObjectList)
    requires repo.Valid()
    modifies repo`objects
    ensures repo.Valid() && repo.State() == old(repo.State()).(objects := ObjectsStored(old(repo.objects), list))
  {
    ghost var s := repo.State();
    var i := 0;
    while i < |list|
      invariant 0 <= i <= |list| && repo.objects == ObjectsStored(s.objects, list[..i])
    {
      assert list[..i + 1][..i] == list[..i];
      var (id, data) := list[i];
      if id !in repo.objects { repo.objects := repo.objects[id := Blob(data, false)]; }
      i := i + 1;
    }
    assert list[..i] == list;
    ObjectsStoredKeep(s.objects, list);
    WithObjectsSound(s, repo.objects);
  }

  /** The local tool adds an empty file for an object that was not sent. */
  method StageChanges(repo: Repository, changes: seq<TreeChange>, list: ObjectList)
    requires repo.Valid()
    modifies repo
    ensures repo.Valid() && repo.State() == StageAll(old(repo.State()), changes, list)
  {
    ghost var s := repo.State();
    var i := 0;
    while i < |changes|
      invariant 0 <= i <= |changes| && repo.Valid() && repo.State() == StageAll(s, changes[..i], list)
    {
      assert changes[..i + 1][..i] == changes[..i];
      match changes[i] {
        case Upsert(path, entry) =>
          if entry.kind.BlobKind? {
            var found := FindObject(list, entry.id);
            if found.Some? {
              var _ := repo.AddFile(path, found.value, entry.mode == EXEC_MODE);
            } else {
              var _ := repo.AddFile(path, [], entry.mode == EXEC_MODE);
            }
          } else {
            repo.Mkdir(path);
          }
        case Delete(path) => repo.DeleteFile(path);
      }
      i := i + 1;
    }
    assert changes[..i] == changes;
  }

  /**
   * apply_revision_data. The hash protects the list against changes on the way, not
   * against ids that do not match their data: those reach the object directory.
   */
  method ApplyRevisionData(repo: Repository, d: RevisionData, allowEmpty: bool) returns (r: Result<Option<nat>>)
    requires repo.Valid()
    modifies repo
    ensures repo.Valid()
    ensures Skipped(d, allowEmpty) ==> r == Ok(None)
    ensures !Skipped(d, allowEmpty) && d.contentHash != DigestOf(d.objects) ==>
              r == Err(HashMismatch(d.revision)) && repo.State() == old(repo.State())
    ensures !Skipped(d, allowEmpty) && d.contentHash == DigestOf(d.objects) ==> r == Ok(Some(old(repo.currentRev) + 1))
    ensures r.Ok? ==> repo.State() == Applied(old(repo.State()), d, allowEmpty)
  {
    if d.emptyCommit && !allowEmpty { return Ok(None); }
    if DigestOf(d.objects) != d.contentHash { return Err(HashMismatch(d.revision)); }
    StoreObjects(repo, d.objects);
    ghost var s := repo.State();
    StageChanges(repo, d.delta.changes, d.objects);
    StageAllSound(s, d.delta.changes, d.objects);
    var rev := repo.CommitSync(d.meta, true);
    r := Ok(Some(rev.value));
  }

  // ------------------------------------------------------------- sync state

  /** SyncState together with the file it is saved to after every change. */
  class SyncState {
    const sourceUuid: string
    var lastSyncedRev: nat
    var sourceHeadRev: nat
    var totalSyncedRevisions: nat
    var syncInProgress: bool
    var checkpointRev: Option<nat>

    constructor (uuid: string, sourceHead: nat)
      ensures sourceUuid == uuid && lastSyncedRev == 0 && sourceHeadRev == sourceHead
      ensures totalSyncedRevisions == 0 && !syncInProgress && checkpointRev == None
    {
      sourceUuid, lastSyncedRev, sourceHeadRev := uuid, 0, sourceHead;
      totalSyncedRevisions, syncInProgress, checkpointRev := 0, false, None;
    }

    method BeginSync(sourceHead: nat)
      modifies `syncInProgress, `sourceHeadRev
      ensures syncInProgress && sourceHeadRev == sourceHead
    {
      sourceHeadRev := sourceHead;
      syncInProgress := true;
    }

    /** Despite its name the counter counts completed syncs, one per call. */
    method CompleteSync(rev: nat)
      modifies `lastSyncedRev, `totalSyncedRevisions, `syncInProgress, `checkpointRev
      ensures Completed(rev)
      ensures totalSyncedRevisions == old(totalSyncedRevisions) + 1
    {
      lastSyncedRev := rev;
      totalSyncedRevisions := totalSyncedRevisions + 1;
      syncInProgress := false;
      checkpointRev := None;
    }

    method SetCheckpoint(rev: nat)
      modifies `checkpointRev
      ensures checkpointRev == Some(rev)
    {
      checkpointRev := Some(rev);
    }

    /** A sync up to `rev` ended well. */
    predicate Completed(rev: nat)
      reads this
    {
      lastSyncedRev == rev && checkpointRev == None && !syncInProgress
    }

    function EffectiveStartRev(): nat
      reads this
    {
      checkpointRev.GetOr(lastSyncedRev)
    }
  }

  /** `now` is the store `start` after revisions from..=last of the source were replayed into it. */
  ghost predicate SyncedTo(source: Store, start: Store, from: nat, last: nat, allowEmpty: bool, now: Store)
    requires FilesOk(source.files) && 0 < from <= last + 1 && last <= source.files.head
  {
    now == Synced(source, start, from, last, allowEmpty)
  }

  lemma NothingSyncedYet(source: Store, start: Store, from: nat, allowEmpty: bool)
    requires FilesOk(source.files) && 0 < from <= source.files.head
    ensures SyncedTo(source, start, from, from - 1, allowEmpty, start)
  {
  }

  /** One revision of a sync. */
  method CopyOne(source: Repository, dest: Repository, ghost start: Store, ghost from: nat, rev: nat, allowEmpty: bool)
    requires source.Valid() && dest.Valid() && source != dest && 0 < from <= rev <= source.currentRev
    requires SyncedTo(source.State(), start, from, rev - 1, allowEmpty, dest.State())
    modifies dest
    ensures dest.Valid() && SyncedTo(source.State(), start, from, rev, allowEmpty, dest.State())
  {
    var data := ExtractRevisionData(source, rev);
    SyncedStep(source.State(), start, from, rev, allowEmpty);
    var applied := ApplyRevisionData(dest, data.value, allowEmpty);
  }

  /** The loop of a sync; a checkpoint is saved after every 100 revisions. */
  method CopyRange(source: Repository, dest: Repository, state: SyncState, from: nat, head: nat, allowEmpty: bool)
    returns (revisions: nat)
    requires source.Valid() && dest.Valid() && source != dest && 0 < from <= head <= source.currentRev
    modifies dest, state`checkpointRev
    ensures dest.Valid() && revisions == head + 1 - from
    ensures SyncedTo(source.State(), old(dest.State()), from, head, allowEmpty, dest.State())
  {
    ghost var s, d := source.State(), dest.State();
    NothingSyncedYet(s, d, from, allowEmpty);
    revisions := 0;
    var rev := from;
    while rev <= head
      invariant from <= rev <= head + 1 && revisions == rev - from
      invariant dest.Valid() && SyncedTo(s, d, from, rev - 1, allowEmpty, dest.State())
    {
      CopyOne(source, dest, d, from, rev, allowEmpty);
      revisions := revisions + 1;
      if revisions % 100 == 0 { state.SetCheckpoint(rev); }
      rev := rev + 1;
    }
  }

  datatype SyncResult = SyncResult(fromRev: nat, toRev: nat, revisionsSynced: nat, alreadyUpToDate: bool)

  /** One destination kept up from one source. */
  class LocalSync {
    const source: Repository
    const dest: Repository
    const sourceUuid: string
    var state: SyncState?
    var allowEmpty: bool

    constructor (source: Repository, dest: Repository, uuid: string, allowEmpty: bool)
      ensures this.source == source && this.dest == dest && sourceUuid == uuid
      ensures state == null && this.allowEmpty == allowEmpty
    {
      this.source, this.dest, this.sourceUuid := source, dest, uuid;
      this.state, this.allowEmpty := null, allowEmpty;
    }

    /** What a sync answers and leaves, starting after revision `start`. */
    ghost predicate Ended(r: Result<SyncResult>, from: Store, before: Store, after: Store, start: nat)
      reads this
    {
      FilesOk(from.files) &&
      var head := from.files.head;
      if start >= head then r == Ok(SyncResult(0, 0, 0, true)) && after == before
      else
        && r == Ok(SyncResult(start + 1, head, head - start, false))
        && after == Synced(from, before, start + 1, head, allowEmpty)
    }

    /** The saved state afterwards: unchanged if nothing was new. */
    ghost predicate SteppedOn(r: Result<SyncResult>, start: nat, total: nat)
      reads this, state
    {
      && state != null && r.Ok?
      && (r.value.alreadyUpToDate ==> state.EffectiveStartRev() == start && state.totalSyncedRevisions == total)
      && (!r.value.alreadyUpToDate ==> state.Completed(r.value.toRev) && state.totalSyncedRevisions == total + 1)
    }

    /** LocalSync::sync, uninterrupted and with no rejecting hook at the destination. */
    method Sync() returns (r: Result<SyncResult>)
      requires source.Valid() && dest.Valid() && source != dest
      modifies dest, state
      ensures source.Valid() && dest.Valid() && source.State() == old(source.State())
      ensures state == null ==> r == Err(NotInitialized) && dest.State() == old(dest.State())
      ensures state != null && state.sourceUuid != sourceUuid ==>
                r == Err(SourceMismatch) && dest.State() == old(dest.State())
      ensures state != null && state.sourceUuid == sourceUuid ==>
                && Ended(r, source.State(), old(dest.State()), dest.State(), old(state.EffectiveStartRev()))
                && SteppedOn(r, old(state.EffectiveStartRev()), old(state.totalSyncedRevisions))
    {
      if state == null { return Err(NotInitialized); }
      if state.sourceUuid != sourceUuid { return Err(SourceMismatch); }
      var head := source.headFile;
      var from := state.EffectiveStartRev() + 1;
      if from > head { return Ok(SyncResult(0, 0, 0, true)); }
      state.BeginSync(head);
      var revisions := CopyRange(source, dest, state, from, head, allowEmpty);
      state.CompleteSync(head);
      r := Ok(SyncResult(from, head, revisions, false));
    }

    /** cmd_sync: both repositories are opened and initialised before the sync. */
    method OpenAndSync() returns (r: Result<SyncResult>)
      requires source.Valid() && dest.Valid() && source != dest
      modifies source, dest, state
      ensures source.Valid() && dest.Valid() && source.State() == Reopened(old(source.State()))
      ensures state == null ==> r == Err(NotInitialized) && dest.State() == Reopened(old(dest.State()))
      ensures state != null && state.sourceUuid != sourceUuid ==>
                r == Err(SourceMismatch) && dest.State() == Reopened(old(dest.State()))
      ensures state != null && state.sourceUuid == sourceUuid ==>
                && Ended(r, source.State(), Reopened(old(dest.State())), dest.State(), old(state.EffectiveStartRev()))
                && SteppedOn(r, old(state.EffectiveStartRev()), old(state.totalSyncedRevisions))
    {
      source.Reopen();
      dest.Reopen();
      r := Sync();
    }
  }

  // ----------------------------------------------------------- mirror check

  datatype VerifyResult = VerifyResult(mismatches: set<Path>, missing: set<Path>, extra: set<Path>, ok: bool)

  predicate Differs(a: Tree, b: Tree, p: Path) {
    p in a && p in b && a[p].id != b[p].id
  }

  /** Source entries that the destination lacks or holds with another object. */
  method Differences(a: Tree, b: Tree) returns (mismatches: set<Path>, missing: set<Path>)
    ensures forall p :: p in missing <==> p in a && p !in b
    ensures forall p :: p in mismatches <==> Differs(a, b, p)
  {
    mismatches, missing := {}, {};
    var rest := a.Keys;
    while rest != {}
      invariant rest <= a.Keys
      invariant forall p :: p in missing <==> p in a && p !in b && p !in rest
      invariant forall p :: p in mismatches <==> Differs(a, b, p) && p !in rest
      decreases |rest|
    {
      var path :| path in rest;
      if path in b {
        if a[path].id != b[path].id { mismatches := mismatches + {path}; }
      } else {
        missing := missing + {path};
      }
      rest := rest - {path};
    }
  }

  method Extras(a: Tree, b: Tree) returns (extra: set<Path>)
    ensures forall p :: p in extra <==> p in b && p !in a
  {
    extra := {};
    var rest := b.Keys;
    while rest != {}
      invariant rest <= b.Keys
      invariant forall p :: p in extra <==> p in b && p !in a && p !in rest
      decreases |rest|
    {
      var path :| path in rest;
      if path !in a { extra := extra + {path}; }
      rest := rest - {path};
    }
  }

  /** The comparison in verify_sync; the map order does not matter, so the lists are sets. */
  method CompareTrees(a: Tree, b: Tree) returns (r: VerifyResult)
    ensures r.ok <==> SameContent(a, b)
    ensures forall p :: p in r.missing <==> p in a && p !in b
    ensures forall p :: p in r.extra <==> p in b && p !in a
    ensures forall p :: p in r.mismatches <==> Differs(a, b, p)
  {
    var mismatches, missing := Differences(a, b);
    var extra := Extras(a, b);
    if missing == {} && extra == {} {
      forall p ensures p in a.Keys <==> p in b.Keys { assert p !in missing && p !in extra; }
      if mismatches == {} {
        forall p | p in a ensures a[p].id == b[p].id { assert p !in mismatches; }
      }
    }
    r := VerifyResult(mismatches, missing, extra, mismatches == {} && missing == {} && extra == {});
  }

  /** verify_sync */
  method VerifySync(source: Repository, dest: Repository, rev: nat) returns (r: Result<VerifyResult>)
    requires source.Valid() && dest.Valid() && source != dest
    modifies source`treeCache, dest`treeCache
    ensures source.Valid() && dest.Valid()
    ensures rev <= source.currentRev && rev <= dest.currentRev ==>
              && r.Ok?
              && (r.value.ok <==> SameContent(Recorded(source.State().files, rev), Recorded(dest.State().files, rev)))
    ensures rev > source.currentRev || rev > dest.currentRev ==> r.Err?
  {
    var sourceTree := source.GetTreeAtRev(rev);
    if sourceTree.Err? { return Err(sourceTree.error); }
    var destTree := dest.GetTreeAtRev(rev);
    if destTree.Err? { return Err(destTree.error); }
    var v := CompareTrees(sourceTree.value, destTree.value);
    r := Ok(v);
  }
}
