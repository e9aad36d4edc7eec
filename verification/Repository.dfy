// SqliteRepository: the object whose methods edit the tables, commit and reconstruct.
module Repository {
  import opened Paths
  import opened ObjectModel
  import opened Replay
  import opened Staging
  import opened Store
  import opened TreeCache

  /** SELECT path ... ORDER BY path */
  method SelectOrdered(keys: set<Path>) returns (rows: seq<Path>)
    ensures rows == InOrder(keys)
  {
    rows := [];
    var rest := keys;
    while rest != {}
      invariant rest <= keys && Orders(rows, keys - rest)
      decreases |rest|
    {
      var k :| k in rest;
      PlaceOrders(rows, keys - rest, k);
      assert keys - (rest - {k}) == keys - rest + {k};
      rows := Place(rows, k);
      rest := rest - {k};
    }
    assert keys - rest == keys;
    OrderUnique(rows, InOrder(keys), keys);
  }

  /** The loop of conn_collect_pending. */
  method ChangesInOrder(table: Rows, rows: seq<Path>) returns (changes: seq<TreeChange>)
    requires rows == InOrder(table.Keys)
    ensures changes == Collected(table)
  {
    ghost var all := Collected(table);
    changes := [];
    var i := 0;
    while i < |rows|
      invariant 0 <= i <= |rows| == |all| && changes == all[..i]
    {
      CollectedAt(table, i);
      var path := rows[i];
      if table[path].Deleted? {
        changes := changes + [Delete(path)];
      } else {
        changes := changes + [Upsert(path, table[path].entry)];
      }
      i := i + 1;
    }
    assert all[..i] == all;
  }

  /** Applies one stored change list to a tree. */
  method ApplyDelta(base: Tree, delta: DeltaTree) returns (tree: Tree)
    ensures tree == ReplayAll(base, delta.changes)
  {
    tree := base;
    var k := 0;
    while k < |delta.changes|
      invariant 0 <= k <= |delta.changes| && tree == ReplayAll(base, delta.changes[..k])
    {
      ReplayStep(base, delta.changes, k);
      match delta.changes[k] {
        case Upsert(path, entry) => tree := tree[path := entry];
        case Delete(path) =>
          tree := tree - {path};
          tree := map q | q in tree && !Under(path, q) :: tree[q];
      }
      k := k + 1;
    }
    assert delta.changes[..k] == delta.changes;
  }

  /** Where the walk back may stop. */
  predicate HasBase(c: Cache, f: Files, cur: nat) {
    cur == 0 || Lookup(c, cur).Some? || cur in f.snapshots
  }

  /** A revision without a snapshot has a delta, which extends the chain downwards. */
  lemma DeltaBelow(f: Files, chain: seq<(nat, DeltaTree)>, top: nat, cur: nat)
    requires FilesOk(f) && 0 < cur <= f.head && cur !in f.snapshots && cur + |chain| == top && DeltasDown(f, chain, top)
    ensures cur in f.deltas && f.deltas[cur].parentRev == cur - 1 && !SnapshotDue(cur)
    ensures DeltasDown(f, chain + [(cur, f.deltas[cur])], top)
  {
    assert Linked(f, cur);
  }

  /** Element `i` of a chain down to `cur` turns one recorded tree into the next. */
  lemma ChainStep(f: Files, chain: seq<(nat, DeltaTree)>, cur: nat, i: nat)
    requires DeltasDown(f, chain, cur + |chain|) && i < |chain|
    ensures chain[i].0 == cur + |chain| - i
    ensures ReplayAll(Recorded(f, cur + |chain| - i - 1), chain[i].1.changes) == Recorded(f, chain[i].0)
  {
  }

  class Repository {
    var treeEntries: Tree
    var pendingChanges: Rows
    var objects: Objects
    var commits: map<nat, Commit>
    var deltas: map<nat, DeltaTree>
    var snapshots: map<nat, Tree>
    var headFile: nat
    var currentRev: nat
    var treeCache: Cache

    ghost function State(): Store
      reads this
    {
      Store(Tables(treeEntries, pendingChanges), objects, Files(commits, deltas, snapshots, currentRev))
    }

    ghost predicate Valid()
      reads this
    {
      Sound(State()) && headFile == currentRev && Bounded(treeCache) && Correct(treeCache, State().files)
    }

    /** open and initialize in an empty directory. */
    constructor (timestamp: int)
      ensures Valid() && State() == Fresh(timestamp)
    {
      treeEntries, pendingChanges, objects := map[], map[], map[];
      commits := map[0 := ObjectModel.Commit(TreeId(map[]), [], Meta("system", "Initial commit", timestamp))];
      deltas, snapshots := map[0 := DeltaTree(0, [], 0)], map[0 := map[]];
      headFile, currentRev, treeCache := 0, 0, [];
      new;
      FreshSound(timestamp);
    }

    // ------------------------------------------------------------- staging

    method TreeInsert(path: Path, e: TreeEntry)
      modifies `treeEntries, `pendingChanges
      ensures State() == old(State()).(work := Inserted(old(State()).work, path, e))
    {
      treeEntries := treeEntries[path := e];
      pendingChanges := pendingChanges[path := Upserted(e)];
    }

    method TreeRemove(path: Path)
      modifies `treeEntries, `pendingChanges
      ensures State() == old(State()).(work := Removed(old(State()).work, path))
    {
      treeEntries := treeEntries - {path};
      treeEntries := map q | q in treeEntries && !LikeBelow(path, q) :: treeEntries[q];
      pendingChanges := pendingChanges[path := Deleted];
    }

    method AddFile(path: Path, content: Bytes, executable: bool) returns (id: ObjectId)
      requires Valid()
      modifies `treeEntries, `pendingChanges, `objects
      ensures Valid() && id == BlobId(content)
      ensures State() == FileAdded(old(State()), path, content, executable)
    {
      ghost var s := State();
      var blob := Blob(content, executable);
      id := blob.Id();
      if id !in objects { objects := objects[id := blob]; }
      TreeInsert(Trim(path), TreeEntry(id, BlobKind, if executable then EXEC_MODE else FILE_MODE));
      FileAddedSound(s, path, content, executable);
    }

    method Mkdir(path: Path)
      requires Valid()
      modifies `treeEntries, `pendingChanges
      ensures Valid() && State() == DirAdded(old(State()), path)
    {
      ghost var s := State();
      TreeInsert(Trim(path), DirEntry());
      DirAddedSound(s, path);
    }

    method DeleteFile(path: Path)
      requires Valid()
      modifies `treeEntries, `pendingChanges
      ensures Valid() && State() == PathDeleted(old(State()), path)
    {
      ghost var s := State();
      TreeRemove(Trim(path));
      PathDeletedSound(s, path);
    }

    // ----------------------------------------------------------- committing

    method CollectPending() returns (changes: seq<TreeChange>, total: nat)
      modifies `pendingChanges
      ensures changes == Collected(old(pendingChanges)) && total == |treeEntries|
      ensures pendingChanges == map[]
    {
      var rows := SelectOrdered(pendingChanges.Keys);
      changes := ChangesInOrder(pendingChanges, rows);
      total := |treeEntries|;
      pendingChanges := map[];
    }

    /** Writes the files of revision `nr`; the commit lock is held. */
    method WriteRevision(nr: nat, treeId: ObjectId, delta: DeltaTree, tree: Tree, meta: Meta)
      requires Valid() && Fits(State().objects, State().files, Pending(nr, delta, tree, treeId, meta))
      modifies `commits, `deltas, `snapshots, `headFile, `currentRev
      ensures Valid()
      ensures State() == old(State()).(files := Published(old(State()).files, Pending(nr, delta, tree, treeId, meta)))
    {
      ghost var f := State().files;
      ghost var c := Pending(nr, delta, tree, treeId, meta);
      var parents := if currentRev in commits then [CommitId(commits[currentRev])] else [];
      commits := commits[nr := ObjectModel.Commit(treeId, parents, meta)];
      deltas := deltas[nr := delta];
      if SnapshotDue(nr) { snapshots := snapshots[nr := tree]; }
      headFile := nr;
      currentRev := nr;
      assert State().files == Published(f, c);
      PublishedOk(objects, f, c);
      CorrectAfterPublish(treeCache, f, c);
    }

    /** commit; the pre-commit hook's verdict is an argument. */
    method Commit(meta: Meta, hookAccepts: bool) returns (r: Result<nat>)
      requires Valid()
      modifies `pendingChanges, `commits, `deltas, `snapshots, `headFile, `currentRev
      ensures Valid()
      ensures hookAccepts ==> r == Ok(old(currentRev) + 1) && State() == Committed(old(State()), meta, true)
      ensures !hookAccepts ==> r == Err(HookRejected(old(currentRev) + 1)) && State() == RowsTaken(old(State()))
    {
      GatheredFits(State(), meta, true);
      var nr := currentRev + 1;
      var parentRev := if nr > 1 then nr - 1 else 0;
      var changes, total := CollectPending();
      if !hookAccepts { return Err(HookRejected(nr)); }
      var delta := DeltaTree(parentRev, changes, total);
      WriteRevision(nr, TreeId(treeEntries), delta, treeEntries, meta);
      r := Ok(nr);
    }

    /** commit_sync: the full tree is built only for a snapshot. */
    method CommitSync(meta: Meta, hookAccepts: bool) returns (r: Result<nat>)
      requires Valid()
      modifies `pendingChanges, `commits, `deltas, `snapshots, `headFile, `currentRev
      ensures Valid()
      ensures hookAccepts ==> r == Ok(old(currentRev) + 1) && State() == Committed(old(State()), meta, false)
      ensures !hookAccepts ==> r == Err(HookRejected(old(currentRev) + 1)) && State() == RowsTaken(old(State()))
    {
      GatheredFits(State(), meta, false);
      var nr := currentRev + 1;
      var parentRev := if nr > 1 then nr - 1 else 0;
      var changes, total := CollectPending();
      if !hookAccepts { return Err(HookRejected(nr)); }
      var delta := DeltaTree(parentRev, changes, total);
      var treeId := if SnapshotDue(nr) then TreeId(treeEntries) else DeltaId(delta);
      WriteRevision(nr, treeId, delta, treeEntries, meta);
      r := Ok(nr);
    }

    // -------------------------------------------------------------- reading

    method CacheGet(rev: nat) returns (t: Option<Tree>)
      requires Valid()
      modifies `treeCache
      ensures Valid() && t == Lookup(old(treeCache), rev)
      ensures forall j :: Lookup(treeCache, j) == Lookup(old(treeCache), j)
      ensures t.Some? ==> 0 < rev <= currentRev && t.value == Recorded(State().files, rev)
    {
      t := Lookup(treeCache, rev);
      LookupFinds(treeCache, rev);
      TouchedKeeps(treeCache, rev, State().files);
      forall j ensures Lookup(Touched(treeCache, rev), j) == Lookup(treeCache, j) { LookupTouched(treeCache, rev, j); }
      treeCache := Touched(treeCache, rev);
    }

    method CachePut(rev: nat, t: Tree)
      requires Valid() && 0 < rev <= currentRev && t == Recorded(State().files, rev)
      modifies `treeCache
      ensures Valid() && Lookup(treeCache, rev) == Some(t)
    {
      PutKeeps(treeCache, rev, State().files);
      LookupPut(treeCache, rev, t, rev);
      treeCache := Put(treeCache, rev, t);
    }

    /**
     * Walks back from `rev` to a usable base. No walk crosses a snapshot, so it
     * loads at most rev mod 1000 deltas whatever the cache holds.
     */
    method CollectChain(rev: nat) returns (chain: seq<(nat, DeltaTree)>, cur: nat)
      requires Valid() && 0 < rev <= currentRev
      modifies `treeCache
      ensures Valid() && cur + |chain| == rev && |chain| <= rev % 1000
      ensures DeltasDown(State().files, chain, rev)
      ensures HasBase(treeCache, State().files, cur)
    {
      ghost var floor: nat := rev - rev % 1000;
      assert SnapshotDue(floor);
      chain, cur := [], rev;
      while true
        invariant Valid() && cur + |chain| == rev && floor <= cur
        invariant DeltasDown(State().files, chain, rev)
        decreases cur
      {
        if cur == 0 { break; }
        var cached := CacheGet(cur);
        if cached.Some? { break; }
        if cur in snapshots { break; }
        DeltaBelow(State().files, chain, rev, cur);
        assert cur != floor;
        var d := deltas[cur];
        chain := chain + [(cur, d)];
        cur := d.parentRev;
      }
    }

    method BaseTree(cur: nat) returns (tree: Tree)
      requires Valid() && cur <= currentRev && HasBase(treeCache, State().files, cur)
      modifies `treeCache
      ensures Valid() && tree == Recorded(State().files, cur)
    {
      if cur == 0 { return map[]; }
      var cached := CacheGet(cur);
      if cached.Some? { return cached.value; }
      tree := snapshots[cur];
      CachePut(cur, tree);
    }

    method ApplyAndCache(base: Tree, rev: nat, delta: DeltaTree) returns (tree: Tree)
      requires Valid() && 0 < rev <= currentRev && ReplayAll(base, delta.changes) == Recorded(State().files, rev)
      modifies `treeCache
      ensures Valid() && tree == Recorded(State().files, rev)
    {
      tree := ApplyDelta(base, delta);
      CachePut(rev, tree);
    }

    /** Replays the chain oldest first, caching every tree on the way. */
    method ApplyChain(base: Tree, chain: seq<(nat, DeltaTree)>, cur: nat) returns (tree: Tree)
      requires Valid() && base == Recorded(State().files, cur) && cur + |chain| <= currentRev
      requires DeltasDown(State().files, chain, cur + |chain|)
      modifies `treeCache
      ensures Valid() && tree == Recorded(State().files, cur + |chain|)
    {
      tree := base;
      ghost var s, done := State(), cur;
      var i := |chain|;
      while i > 0
        invariant Valid() && State() == s && 0 <= i <= |chain| && done == cur + |chain| - i
        invariant tree == Recorded(s.files, done)
      {
        i := i - 1;
        ChainStep(s.files, chain, cur, i);
        tree := ApplyAndCache(tree, chain[i].0, chain[i].1);
        done := done + 1;
      }
    }

    /** get_tree_at_rev */
    method GetTreeAtRev(rev: nat) returns (r: Result<Tree>)
      requires Valid()
      modifies `treeCache
      ensures Valid()
      ensures rev <= currentRev ==> r == Ok(Recorded(State().files, rev))
      ensures rev > currentRev ==> r == Err(RevisionNotFound(rev))
    {
      if rev == 0 { return Ok(map[]); }
      var cached := CacheGet(rev);
      if cached.Some? { return Ok(cached.value); }
      if rev in snapshots {
        CachePut(rev, snapshots[rev]);
        return Ok(snapshots[rev]);
      }
      if rev !in deltas { return Err(RevisionNotFound(rev)); }
      var chain, cur := CollectChain(rev);
      var base := BaseTree(cur);
      var tree := ApplyChain(base, chain, cur);
      r := Ok(tree);
    }

    /** get_file: the stored bytes, which an honest store got under the path's id; or an error. */
    method GetFile(path: Path, rev: nat) returns (r: Result<Bytes>)
      requires Valid()
      modifies `treeCache
      ensures Valid()
      ensures rev <= currentRev ==>
                var e := Look(Recorded(State().files, rev), Trim(path));
                if e.Some? && e.value.kind.BlobKind?
                then
                  && e.value.id.BlobId? && e.value.id in objects && r == Ok(objects[e.value.id].data)
                  && (ObjectsOk(objects) ==> r == Ok(e.value.id.data))
                else r == Err(PathNotFound(path))
      ensures rev > currentRev ==> r == Err(RevisionNotFound(rev))
    {
      var fp := Trim(path);
      var tm := GetTreeAtRev(rev);
      if tm.Err? { return Err(tm.error); }
      RecordedOk(objects, State().files, rev);
      if fp in tm.value {
        var e := tm.value[fp];
        if e.kind.BlobKind? { return Ok(objects[e.id].data); }
      }
      r := Err(PathNotFound(path));
    }

    // ------------------------------------------------------------ reopening

    method Populate(tree: Tree)
      modifies `treeEntries
      ensures treeEntries == tree
    {
      treeEntries := map[];
      var rest := tree.Keys;
      while rest != {}
        invariant rest <= tree.Keys && treeEntries == (map q | q in tree && q !in rest :: tree[q])
        decreases |rest|
      {
        var path :| path in rest;
        treeEntries := treeEntries[path := tree[path]];
        rest := rest - {path};
      }
    }

    /** open and initialize in a directory that already holds a repository. */
    method Reopen()
      requires Valid()
      modifies this
      ensures Valid() && State() == Reopened(old(State()))
    {
      ghost var s := State();
      treeCache := [];
      currentRev := headFile;
      if |treeEntries| == 0 {
        var tm := GetTreeAtRev(headFile);
        Populate(tm.value);
      }
      ReopenedSound(s);
    }
  }
}
