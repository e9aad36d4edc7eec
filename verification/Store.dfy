// One repository on disk: SQL tables, object files, commit, delta and snapshot files.
module Store {
  import opened Paths
  import opened ObjectModel
  import opened Replay
  import opened Staging

  /** Every 1000th revision also gets a full tree. */
  predicate SnapshotDue(rev: nat) {
    rev % 1000 == 0
  }

  type Objects = map<ObjectId, Blob>

  /** The per-revision files and refs/head. */
  datatype Files = Files(
    commits: map<nat, Commit>,
    deltas: map<nat, DeltaTree>,
    snapshots: map<nat, Tree>,
    head: nat)

  datatype Store = Store(work: Tables, objects: Objects, files: Files)

  /** A repository right after its first initialize. */
  function Fresh(timestamp: int): Store {
    Store(Tables(map[], map[]), map[], Files(
      map[0 := Commit(TreeId(map[]), [], Meta("system", "Initial commit", timestamp))],
      map[0 := DeltaTree(0, [], 0)], map[0 := map[]], 0))
  }

  // -------------------------------------------------------------- staging

  /** store_object keeps a file that is already there. */
  function WithObject(objects: Objects, b: Blob): Objects {
    if b.Id() in objects then objects else objects[b.Id() := b]
  }

  function FileAdded(s: Store, path: Path, data: Bytes, executable: bool): Store {
    s.(objects := WithObject(s.objects, Blob(data, executable)),
       work := Inserted(s.work, Trim(path), FileEntry(data, executable)))
  }

  function DirAdded(s: Store, path: Path): Store {
    s.(work := Inserted(s.work, Trim(path), DirEntry()))
  }

  function PathDeleted(s: Store, path: Path): Store {
    s.(work := Removed(s.work, Trim(path)))
  }

  // ----------------------------------------------------------- committing

  /** What a commit carries from the SQL tables to the files. */
  datatype Pending = Pending(rev: nat, delta: DeltaTree, tree: Tree, treeId: ObjectId, meta: Meta)

  /**
   * The part of a commit that holds the connection: take the rows, read the table.
   * commit builds the whole tree (full); commit_sync only at a snapshot.
   */
  ghost function Gathered(s: Store, meta: Meta, full: bool): Pending {
    var nr := s.files.head + 1;
    var delta := DeltaTree(if nr > 1 then nr - 1 else 0, Collected(s.work.rows), |s.work.tree|);
    Pending(nr, delta, s.work.tree,
      if full || SnapshotDue(nr) then TreeId(s.work.tree) else DeltaId(delta), meta)
  }

  function RowsTaken(s: Store): Store {
    s.(work := s.work.(rows := map[]))
  }

  function ParentsOf(f: Files, rev: nat): seq<ObjectId> {
    if rev in f.commits then [CommitId(f.commits[rev])] else []
  }

  /** The part that writes the files and advances the head. */
  function Published(f: Files, c: Pending): Files {
    Files(f.commits[c.rev := Commit(c.treeId, ParentsOf(f, f.head), c.meta)],
      f.deltas[c.rev := c.delta],
      if SnapshotDue(c.rev) then f.snapshots[c.rev := c.tree] else f.snapshots,
      c.rev)
  }

  /** A whole commit when nobody else runs. */
  ghost function Committed(s: Store, meta: Meta, full: bool): Store {
    RowsTaken(s).(files := Published(s.files, Gathered(s, meta, full)))
  }

  // -------------------------------------------------------------- reading

  /** The tree that the files record for a revision. */
  function Recorded(f: Files, r: nat): Tree {
    if r == 0 then map[]
    else if r in f.snapshots then f.snapshots[r]
    else if r in f.deltas then ReplayAll(Recorded(f, r - 1), f.deltas[r].changes)
    else map[]
  }

  /** The stored deltas of `top`, `top - 1`, ..., none of them a snapshot revision. */
  predicate DeltasDown(f: Files, chain: seq<(nat, DeltaTree)>, top: nat) {
    forall i :: 0 <= i < |chain| ==>
      && chain[i].0 == top - i && chain[i].0 in f.deltas
      && chain[i].1 == f.deltas[chain[i].0] && chain[i].0 !in f.snapshots
  }

  /** Reopening refills an empty working table from the head; the pending rows survive as they are. */
  function Reopened(s: Store): Store {
    if s.work.tree == map[] then s.(work := s.work.(tree := Recorded(s.files, s.files.head))) else s
  }

  // ---------------------------------------------------- structural invariant

  predicate EntryOk(e: TreeEntry) {
    match e.kind
    case BlobKind => e.id.BlobId? && e.mode in {FILE_MODE, EXEC_MODE}
    case TreeKind => e == DirEntry()
  }

  predicate Backed(objects: Objects, e: TreeEntry) {
    EntryOk(e) && (e.kind.BlobKind? ==> e.id in objects)
  }

  predicate RowsOk(objects: Objects, rows: Rows) {
    forall p :: p in rows ==> Trimmed(p) && (rows[p].Upserted? ==> Backed(objects, rows[p].entry))
  }

  predicate TreeOk(objects: Objects, t: Tree) {
    forall p :: p in t ==> Trimmed(p) && Backed(objects, t[p])
  }

  predicate ChangesOk(objects: Objects, cs: seq<TreeChange>) {
    forall i :: 0 <= i < |cs| ==> Trimmed(cs[i].path) && (cs[i].Upsert? ==> Backed(objects, cs[i].entry))
  }

  /** Every object is stored under the id of its content. */
  predicate ObjectsOk(objects: Objects) {
    forall id :: id in objects ==> id == objects[id].Id()
  }

  /** Commit `r` names commit `r - 1` as its only parent, and its delta does too. */
  ghost predicate Linked(f: Files, r: nat) {
    && 0 < r && r - 1 in f.commits && r in f.commits && r in f.deltas
    && f.commits[r].parents == [CommitId(f.commits[r - 1])]
    && f.deltas[r].parentRev == r - 1
    && PathSorted(f.deltas[r].changes)
  }

  /** Revisions 0..head without gaps, linked; a snapshot exactly at every 1000th. */
  ghost predicate FilesOk(f: Files) {
    && (forall r: nat :: r in f.deltas <==> r <= f.head)
    && (forall r: nat :: r in f.commits <==> r <= f.head)
    && (forall r: nat :: r in f.snapshots <==> r <= f.head && SnapshotDue(r))
    && (forall r: nat :: 0 < r <= f.head ==> Linked(f, r))
    && f.snapshots[0] == map[] && f.deltas[0] == DeltaTree(0, [], 0) && f.commits[0].parents == []
  }

  /** Everything the files mention is backed by an object. */
  ghost predicate FilesBacked(objects: Objects, f: Files) {
    && (forall r: nat :: r in f.deltas ==> ChangesOk(objects, f.deltas[r].changes))
    && (forall r: nat :: r in f.snapshots ==> TreeOk(objects, f.snapshots[r]))
  }

  ghost predicate Sound(s: Store) {
    && FilesOk(s.files)
    && FilesBacked(s.objects, s.files)
    && RowsOk(s.objects, s.work.rows)
    && TreeOk(s.objects, s.work.tree)
  }

  /** ... and every object is what its id says. */
  ghost predicate Honest(s: Store) {
    Sound(s) && ObjectsOk(s.objects)
  }

  /** Revision `r` is revision `r - 1` with the stored changes replayed. */
  predicate ReplayLinked(f: Files, r: nat) {
    0 < r && r in f.deltas && Recorded(f, r) == ReplayAll(Recorded(f, r - 1), f.deltas[r].changes)
  }

  ghost predicate Chained(f: Files) {
    forall r: nat :: 0 < r <= f.head ==> ReplayLinked(f, r)
  }

  lemma {:induction false} ReplayKeepsOk(objects: Objects, t: Tree, cs: seq<TreeChange>)
    requires TreeOk(objects, t) && ChangesOk(objects, cs)
    ensures TreeOk(objects, ReplayAll(t, cs))
  {
    if cs != [] { ReplayKeepsOk(objects, t, cs[..|cs| - 1]); }
  }

  lemma {:induction false} RecordedOk(objects: Objects, f: Files, r: nat)
    requires FilesBacked(objects, f)
    ensures TreeOk(objects, Recorded(f, r))
  {
    if r > 0 && r !in f.snapshots && r in f.deltas {
      RecordedOk(objects, f, r - 1);
      ReplayKeepsOk(objects, Recorded(f, r - 1), f.deltas[r].changes);
    }
  }

  lemma CollectedOk(objects: Objects, rows: Rows)
    requires RowsOk(objects, rows)
    ensures ChangesOk(objects, Collected(rows))
  {
    var ks := InOrder(rows.Keys);
    forall i | 0 <= i < |ks| ensures ks[i] in rows { assert ks[i] in ks; }
  }

  // -------------------------------------------------- preservation of Sound

  lemma FreshSound(timestamp: int)
    ensures Sound(Fresh(timestamp)) && Chained(Fresh(timestamp).files)
  {
  }

  lemma MoreObjects(a: Objects, b: Objects, f: Files)
    requires a.Keys <= b.Keys && FilesBacked(a, f)
    ensures FilesBacked(b, f)
  {
    forall r: nat | r in f.deltas ensures ChangesOk(b, f.deltas[r].changes) {
      assert ChangesOk(a, f.deltas[r].changes);
    }
    forall r: nat | r in f.snapshots ensures TreeOk(b, f.snapshots[r]) { assert TreeOk(a, f.snapshots[r]); }
  }

  lemma FileAddedSound(s: Store, path: Path, data: Bytes, executable: bool)
    requires Sound(s)
    ensures Sound(FileAdded(s, path, data, executable))
    ensures s.objects.Keys <= FileAdded(s, path, data, executable).objects.Keys
    ensures ObjectsOk(s.objects) ==> ObjectsOk(FileAdded(s, path, data, executable).objects)
  {
    MoreObjects(s.objects, WithObject(s.objects, Blob(data, executable)), s.files);
  }

  lemma DirAddedSound(s: Store, path: Path)
    requires Sound(s)
    ensures Sound(DirAdded(s, path))
  {
  }

  lemma PathDeletedSound(s: Store, path: Path)
    requires Sound(s)
    ensures Sound(PathDeleted(s, path))
  {
  }

  /** A pending commit that fits on top of the files. */
  ghost predicate Fits(objects: Objects, f: Files, c: Pending) {
    && c.rev == f.head + 1 && c.delta.parentRev == f.head && PathSorted(c.delta.changes)
    && ChangesOk(objects, c.delta.changes) && TreeOk(objects, c.tree)
  }

  lemma GatheredFits(s: Store, meta: Meta, full: bool)
    requires Sound(s)
    ensures Fits(s.objects, s.files, Gathered(s, meta, full)) && Sound(RowsTaken(s))
  {
    CollectedRoundTrip(s.work.rows);
    CollectedOk(s.objects, s.work.rows);
  }

  lemma PublishedOk(objects: Objects, f: Files, c: Pending)
    requires FilesOk(f) && FilesBacked(objects, f) && Fits(objects, f, c)
    ensures FilesOk(Published(f, c)) && FilesBacked(objects, Published(f, c))
  {
    var f' := Published(f, c);
    forall r: nat | 0 < r <= f'.head ensures Linked(f', r) { assert r <= f.head ==> Linked(f, r); }
  }

  /** Publishing never changes a revision that was already there. */
  lemma {:induction false} PublishedKeepsRevisions(f: Files, c: Pending, r: nat)
    requires c.rev > f.head && r <= f.head
    ensures Recorded(Published(f, c), r) == Recorded(f, r)
  {
    if r > 0 { PublishedKeepsRevisions(f, c, r - 1); }
  }

  lemma PublishedChained(f: Files, c: Pending)
    requires FilesOk(f) && Chained(f) && c.rev == f.head + 1
    requires ReplayAll(Recorded(f, f.head), c.delta.changes) == c.tree
    ensures Recorded(Published(f, c), c.rev) == c.tree
    ensures Chained(Published(f, c))
  {
    var f' := Published(f, c);
    forall r: nat | r <= f.head ensures Recorded(f', r) == Recorded(f, r) { PublishedKeepsRevisions(f, c, r); }
    assert Recorded(f', c.rev) == c.tree;
    forall r: nat | 0 < r <= f'.head ensures ReplayLinked(f', r) {
      assert r <= f.head ==> ReplayLinked(f, r);
      assert Recorded(f', r - 1) == Recorded(f, r - 1);
    }
  }

  lemma CommittedSound(s: Store, meta: Meta, full: bool)
    requires Sound(s)
    ensures Sound(Committed(s, meta, full))
    ensures forall r: nat :: r <= s.files.head ==> Recorded(Committed(s, meta, full).files, r) == Recorded(s.files, r)
  {
    GatheredFits(s, meta, full);
    var c := Gathered(s, meta, full);
    PublishedOk(s.objects, s.files, c);
    forall r: nat | r <= s.files.head ensures Recorded(Published(s.files, c), r) == Recorded(s.files, r) {
      PublishedKeepsRevisions(s.files, c, r);
    }
  }

  lemma ReopenedSound(s: Store)
    requires Sound(s)
    ensures Sound(Reopened(s))
  {
    RecordedOk(s.objects, s.files, s.files.head);
  }
}
