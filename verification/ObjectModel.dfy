// The stored objects: blobs, trees, deltas and commits.
module ObjectModel {
  import opened Paths

  datatype Option<+T> = None | Some(value: T) {
    function GetOr(default: T): T {
      match this
      case Some(v) => v
      case None => default
    }
  }
  datatype Result<+T> = Ok(value: T) | Err(error: Error)

  datatype Error =
    | RevisionNotFound(rev: nat)   // neither delta nor commit file
    | NoBaseTree(rev: nat)         // the base vanished between two cache lookups
    | PathNotFound(path: Path)
    | HookRejected(rev: nat)
    | HashMismatch(rev: nat)
    | SourceMismatch
    | NotInitialized
    | Truncated                    // a frame's data ends early
    | UnknownVersion(version: nat)
    | OutOfBounds                  // a slice index past the end of the buffer
    | DecodeFailed

  type Byte = b: int | 0 <= b < 256
  type Bytes = seq<Byte>

  /** An ideal hash: two ids are equal exactly when kind and content are. */
  datatype ObjectId =
    | BlobId(data: Bytes)
    | TreeId(tree: Tree)
    | DeltaId(delta: DeltaTree)
    | CommitId(commit: Commit)

  datatype Blob = Blob(data: Bytes, executable: bool) {
    /** Hashes the data only; the executable flag is not part of the identity. */
    function Id(): ObjectId { BlobId(data) }
  }

  datatype ObjectKind = BlobKind | TreeKind

  /** The entry's name always repeats the path it is stored under and is not kept twice. */
  datatype TreeEntry = TreeEntry(id: ObjectId, kind: ObjectKind, mode: nat)

  type Tree = map<Path, TreeEntry>

  datatype TreeChange =
    | Upsert(path: Path, entry: TreeEntry)
    | Delete(path: Path)

  datatype DeltaTree = DeltaTree(parentRev: nat, changes: seq<TreeChange>, totalEntries: nat)

  datatype Meta = Meta(author: string, message: string, timestamp: int)

  datatype Commit = Commit(treeId: ObjectId, parents: seq<ObjectId>, meta: Meta)

  const FILE_MODE: nat := 0x1a4    // 0o644
  const EXEC_MODE: nat := 0x1ed    // 0o755

  function FileEntry(data: Bytes, executable: bool): TreeEntry {
    TreeEntry(BlobId(data), BlobKind, if executable then EXEC_MODE else FILE_MODE)
  }

  function DirEntry(): TreeEntry {
    TreeEntry(TreeId(map[]), TreeKind, EXEC_MODE)
  }

  function Look(t: Tree, q: Path): Option<TreeEntry> {
    if q in t then Some(t[q]) else None
  }

  /** Every entry of `a` is in `b` too. */
  predicate Within(a: Tree, b: Tree) {
    forall q :: q in a ==> q in b && a[q] == b[q]
  }

  ghost predicate SameTree(a: Tree, b: Tree) {
    forall q :: Look(a, q) == Look(b, q)
  }

  lemma SameTreeIsEqual(a: Tree, b: Tree)
    requires SameTree(a, b)
    ensures a == b
  {
    forall q ensures q in a <==> q in b { assert Look(a, q) == Look(b, q); }
    forall q | q in a ensures a[q] == b[q] { assert Look(a, q) == Look(b, q); }
  }
}
