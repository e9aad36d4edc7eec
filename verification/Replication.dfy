// Replaying one repository's revisions into another: what the destination ends up with.
module Replication {
  import opened Paths
  import opened ObjectModel
  import opened Replay
  import opened Staging
  import opened Store

  type ObjectList = seq<(ObjectId, Bytes)>

  /** An ideal hash of an object list; module ContentHash shows that the hashed bytes fix the list. */
  datatype Digest = DigestOf(objects: ObjectList)

  datatype RevisionData = RevisionData(
    revision: nat, meta: Meta, delta: DeltaTree, objects: ObjectList, contentHash: Digest, emptyCommit: bool)

  // -------------------------------------------------------------- extract

  /** The blob a change refers to, when the store has it. */
  function BlobOf(objects: Objects, c: TreeChange): ObjectList {
    if c.Upsert? && c.entry.kind.BlobKind? && c.entry.id in objects
    then [(c.entry.id, objects[c.entry.id].data)] else []
  }

  function BlobsOf(objects: Objects, cs: seq<TreeChange>): ObjectList {
    if cs == [] then [] else BlobsOf(objects, cs[..|cs| - 1]) + BlobOf(objects, cs[|cs| - 1])
  }

  function DeltaOrEmpty(f: Files, rev: nat): DeltaTree {
    if rev in f.deltas then f.deltas[rev] else DeltaTree(if rev > 0 then rev - 1 else 0, [], 0)
  }

  function Extract(s: Store, rev: nat): RevisionData
    requires rev in s.files.commits
  {
    var delta := DeltaOrEmpty(s.files, rev);
    var objects := BlobsOf(s.objects, delta.changes);
    RevisionData(rev, s.files.commits[rev].meta, delta, objects, DigestOf(objects), delta.changes == [])
  }

  // ---------------------------------------------------------------- apply

  function FindObject(list: ObjectList, id: ObjectId): Option<Bytes> {
    if list == [] then None else if list[0].0 == id then Some(list[0].1) else FindObject(list[1..], id)
  }

  /** Objects go in first, under the id they were sent with, unless already there. */
  function ObjectsStored(objects: Objects, list: ObjectList): Objects {
    if list == [] then objects
    else
      var rest := ObjectsStored(objects, list[..|list| - 1]);
      var (id, data) := list[|list| - 1];
      if id in rest then rest else rest[id := Blob(data, false)]
  }

  /** A missing object becomes an empty file. */
  function StageChange(s: Store, c: TreeChange, list: ObjectList): Store {
    match c
    case Upsert(path, entry) =>
      if entry.kind.BlobKind? then
        FileAdded(s, path, FindObject(list, entry.id).GetOr([]), entry.mode == EXEC_MODE)
      else DirAdded(s, path)
    case Delete(path) => PathDeleted(s, path)
  }

  function StageAll(s: Store, cs: seq<TreeChange>, list: ObjectList): Store {
    if cs == [] then s else StageChange(StageAll(s, cs[..|cs| - 1], list), cs[|cs| - 1], list)
  }

  function Skipped(d: RevisionData, allowEmpty: bool): bool {
    d.emptyCommit && !allowEmpty
  }

  /** The store a revision's data is committed from. */
  function StagedFor(dst: Store, d: RevisionData): Store {
    StageAll(dst.(objects := ObjectsStored(dst.objects, d.objects)), d.delta.changes, d.objects)
  }

  ghost function Applied(dst: Store, d: RevisionData, allowEmpty: bool): Store {
    if Skipped(d, allowEmpty) then dst
    else Committed(StagedFor(dst, d), d.meta, false)
  }

  /** A list of revisions replayed in order. */
  ghost function AppliedAll(dst: Store, ds: seq<RevisionData>, allowEmpty: bool): Store {
    if ds == [] then dst else Applied(AppliedAll(dst, ds[..|ds| - 1], allowEmpty), ds[|ds| - 1], allowEmpty)
  }

  /** The data of revisions from..=last. */
  ghost function Extracts(src: Store, from: nat, last: nat): (ds: seq<RevisionData>)
    requires FilesOk(src.files) && from <= last + 1 && last <= src.files.head
    ensures |ds| == last + 1 - from
  {
    seq(last + 1 - from, i requires 0 <= i < last + 1 - from => Extract(src, from + i))
  }

  ghost function Synced(src: Store, dst: Store, from: nat, last: nat, allowEmpty: bool): Store
    requires FilesOk(src.files) && from <= last + 1 && last <= src.files.head
  {
    AppliedAll(dst, Extracts(src, from, last), allowEmpty)
  }

  lemma SyncedStep(src: Store, dst: Store, from: nat, last: nat, allowEmpty: bool)
    requires FilesOk(src.files) && 0 < from <= last <= src.files.head
    ensures Synced(src, dst, from, last, allowEmpty)
            == Applied(Synced(src, dst, from, last - 1, allowEmpty), Extract(src, last), allowEmpty)
  {
    ExtractsSplit(src, from, last);
    AppliedAllAppend(dst, Extracts(src, from, last - 1), Extract(src, last), allowEmpty);
  }

  lemma ExtractsSplit(src: Store, from: nat, last: nat)
    requires FilesOk(src.files) && 0 < from <= last <= src.files.head
    ensures Extracts(src, from, last) == Extracts(src, from, last - 1) + [Extract(src, last)]
  {
  }

  lemma AppliedAllAppend(dst: Store, ds: seq<RevisionData>, d: RevisionData, allowEmpty: bool)
    ensures AppliedAll(dst, ds + [d], allowEmpty) == Applied(AppliedAll(dst, ds, allowEmpty), d, allowEmpty)
  {
    assert (ds + [d])[..|ds|] == ds;
  }

  /** How many revisions up to `r` a sync actually applies. */
  function AppliedUpTo(f: Files, r: nat, allowEmpty: bool): nat {
    if r == 0 then 0
    else AppliedUpTo(f, r - 1, allowEmpty) + (if DeltaOrEmpty(f, r).changes == [] && !allowEmpty then 0 else 1)
  }

  predicate IdsMatch(list: ObjectList) {
    forall i :: 0 <= i < |list| ==> list[i].0 == BlobId(list[i].1)
  }

  // ------------------------------------------------------------ one revision

  lemma {:induction false} BlobsComplete(objects: Objects, cs: seq<TreeChange>)
    requires ObjectsOk(objects)
    ensures IdsMatch(BlobsOf(objects, cs))
    ensures forall i :: 0 <= i < |cs| && cs[i].Upsert? && cs[i].entry.kind.BlobKind? && cs[i].entry.id in objects ==>
              exists k :: 0 <= k < |BlobsOf(objects, cs)| && BlobsOf(objects, cs)[k].0 == cs[i].entry.id
  {
    if cs != [] {
      var n := |cs| - 1;
      BlobsComplete(objects, cs[..n]);
      var before, all := BlobsOf(objects, cs[..n]), BlobsOf(objects, cs);
      forall i | 0 <= i < |cs| && cs[i].Upsert? && cs[i].entry.kind.BlobKind? && cs[i].entry.id in objects
        ensures exists k :: 0 <= k < |all| && all[k].0 == cs[i].entry.id
      {
        if i < n {
          assert cs[..n][i] == cs[i];
          var k :| 0 <= k < |before| && before[k].0 == cs[i].entry.id;
          assert all[k].0 == cs[i].entry.id;
        } else {
          assert all[|before|].0 == cs[i].entry.id;
        }
      }
    }
  }

  lemma {:induction false} FindObjectData(list: ObjectList, id: ObjectId, k: nat)
    requires IdsMatch(list) && k < |list| && list[k].0 == id
    ensures id.BlobId? && FindObject(list, id) == Some(id.data)
  {
    assert list[k].0 == BlobId(list[k].1);
    if list[0].0 != id {
      assert list[1..][k - 1] == list[k];
      forall i | 0 <= i < |list[1..]| ensures list[1..][i].0 == BlobId(list[1..][i].1) {
        assert list[1..][i] == list[i + 1];
      }
      FindObjectData(list[1..], id, k - 1);
    } else {
      assert list[0].0 == BlobId(list[0].1);
    }
  }

  /** Each object that is new gets stored under the id of its content. */
  predicate NewIdsMatch(objects: Objects, list: ObjectList) {
    list == [] ||
    (var n := |list| - 1;
     NewIdsMatch(objects, list[..n]) &&
     (list[n].0 in ObjectsStored(objects, list[..n]) || list[n].0 == BlobId(list[n].1)))
  }

  lemma {:induction false} ObjectsStoredKeep(objects: Objects, list: ObjectList)
    ensures forall id :: id in objects ==>
              id in ObjectsStored(objects, list) && ObjectsStored(objects, list)[id] == objects[id]
  {
    if list != [] { ObjectsStoredKeep(objects, list[..|list| - 1]); }
  }

  /**
   * The hash over a list fixes its ids, but nothing checks that an id is the hash of its own
   * data: exactly a list whose new ids match keeps the store honest.
   */
  lemma {:induction false} StoringIsHonestIff(objects: Objects, list: ObjectList)
    requires ObjectsOk(objects)
    ensures ObjectsOk(ObjectsStored(objects, list)) <==> NewIdsMatch(objects, list)
  {
    if list != [] {
      var n := |list| - 1;
      StoringIsHonestIff(objects, list[..n]);
      var before, after := ObjectsStored(objects, list[..n]), ObjectsStored(objects, list);
      if ObjectsOk(after) {
        forall id | id in before ensures id == before[id].Id() { assert after[id] == before[id]; }
        assert list[n].0 in after && list[n].0 == after[list[n].0].Id();
      }
    }
  }

  lemma WithObjectsSound(s: Store, objects: Objects)
    requires Sound(s) && s.objects.Keys <= objects.Keys
    ensures Sound(s.(objects := objects))
  {
    MoreObjects(s.objects, objects, s.files);
  }

  lemma StageChangeSound(s: Store, c: TreeChange, list: ObjectList)
    requires Sound(s)
    ensures Sound(StageChange(s, c, list)) && StageChange(s, c, list).files == s.files
  {
    match c {
      case Upsert(path, entry) =>
        if entry.kind.BlobKind? {
          FileAddedSound(s, path, FindObject(list, entry.id).GetOr([]), entry.mode == EXEC_MODE);
        } else {
          DirAddedSound(s, path);
        }
      case Delete(path) => PathDeletedSound(s, path);
    }
  }

  lemma {:induction false} StageAllSound(s: Store, cs: seq<TreeChange>, list: ObjectList)
    requires Sound(s)
    ensures Sound(StageAll(s, cs, list)) && StageAll(s, cs, list).files == s.files
  {
    if cs != [] {
      StageAllSound(s, cs[..|cs| - 1], list);
      StageChangeSound(StageAll(s, cs[..|cs| - 1], list), cs[|cs| - 1], list);
    }
  }

  lemma WithObjectHonestIff(objects: Objects, b: Blob)
    ensures ObjectsOk(WithObject(objects, b)) <==> ObjectsOk(objects)
    ensures forall id :: id in objects ==> id in WithObject(objects, b) && WithObject(objects, b)[id] == objects[id]
  {
    var after := WithObject(objects, b);
    if ObjectsOk(after) {
      forall id | id in objects ensures id == objects[id].Id() { assert id in after && after[id] == objects[id]; }
    }
  }

  lemma StageChangeHonestIff(s: Store, c: TreeChange, list: ObjectList)
    ensures ObjectsOk(StageChange(s, c, list).objects) <==> ObjectsOk(s.objects)
    ensures forall id :: id in s.objects ==>
              id in StageChange(s, c, list).objects && StageChange(s, c, list).objects[id] == s.objects[id]
  {
    if c.Upsert? && c.entry.kind.BlobKind? {
      WithObjectHonestIff(s.objects, Blob(FindObject(list, c.entry.id).GetOr([]), c.entry.mode == EXEC_MODE));
    }
  }

  /** Staging adds only objects under their own ids. */
  lemma {:induction false} StageAllHonestIff(s: Store, cs: seq<TreeChange>, list: ObjectList)
    ensures ObjectsOk(StageAll(s, cs, list).objects) <==> ObjectsOk(s.objects)
    ensures forall id :: id in s.objects ==>
              id in StageAll(s, cs, list).objects && StageAll(s, cs, list).objects[id] == s.objects[id]
  {
    if cs != [] {
      StageAllHonestIff(s, cs[..|cs| - 1], list);
      StageChangeHonestIff(StageAll(s, cs[..|cs| - 1], list), cs[|cs| - 1], list);
    }
  }

  /** Applying a revision keeps an honest store honest exactly when the ids of the new objects match. */
  lemma ApplyIsHonestIff(dst: Store, d: RevisionData, allowEmpty: bool)
    requires ObjectsOk(dst.objects) && !Skipped(d, allowEmpty)
    ensures ObjectsOk(Applied(dst, d, allowEmpty).objects) <==> NewIdsMatch(dst.objects, d.objects)
  {
    StoringIsHonestIff(dst.objects, d.objects);
    StageAllHonestIff(dst.(objects := ObjectsStored(dst.objects, d.objects)), d.delta.changes, d.objects);
  }

  /** So a list that arrives as it was sent can leave an object under another one's id. */
  lemma WrongIdIsStored(timestamp: int, d: RevisionData)
    requires d.objects == [(BlobId([1]), [2])] && d.contentHash == DigestOf(d.objects)
    ensures !ObjectsOk(Applied(Fresh(timestamp), d, true).objects)
  {
    assert d.objects[..0] == [];
    ApplyIsHonestIff(Fresh(timestamp), d, true);
  }

  /** The list carries everything the changes need, so a staged change is the sent one. */
  ghost predicate Carries(list: ObjectList, cs: seq<TreeChange>) {
    forall i :: 0 <= i < |cs| ==> Trimmed(cs[i].path) && (cs[i].Upsert? ==>
      && EntryOk(cs[i].entry)
      && (cs[i].entry.kind.BlobKind? ==> FindObject(list, cs[i].entry.id) == Some(cs[i].entry.id.data)))
  }

  lemma ExtractCarries(s: Store, rev: nat)
    requires Honest(s) && rev in s.files.commits && 0 < rev <= s.files.head
    ensures Extract(s, rev).delta == s.files.deltas[rev]
    ensures PathSorted(s.files.deltas[rev].changes)
    ensures IdsMatch(Extract(s, rev).objects) && Carries(Extract(s, rev).objects, s.files.deltas[rev].changes)
  {
    assert Linked(s.files, rev);
    var cs := s.files.deltas[rev].changes;
    var list := Extract(s, rev).objects;
    BlobsComplete(s.objects, cs);
    assert ChangesOk(s.objects, cs);
    forall i | 0 <= i < |cs| && cs[i].Upsert? && cs[i].entry.kind.BlobKind?
      ensures FindObject(list, cs[i].entry.id) == Some(cs[i].entry.id.data)
    {
      var k :| 0 <= k < |list| && list[k].0 == cs[i].entry.id;
      FindObjectData(list, cs[i].entry.id, k);
    }
  }

  /** One change as it reaches a working table: a removal takes what LIKE matches. */
  function LikeApplied(t: Tree, c: TreeChange): Tree {
    match c
    case Upsert(p, e) => t[p := e]
    case Delete(p) => Removed(Tables(t, map[]), p).tree
  }

  function LikeReplayed(t: Tree, cs: seq<TreeChange>): Tree {
    if cs == [] then t else LikeApplied(LikeReplayed(t, cs[..|cs| - 1]), cs[|cs| - 1])
  }

  lemma {:induction false} StagedTree(s: Store, cs: seq<TreeChange>, list: ObjectList)
    requires Carries(list, cs)
    ensures StageAll(s, cs, list).work.tree == LikeReplayed(s.work.tree, cs)
  {
    if cs != [] { StagedTree(s, cs[..|cs| - 1], list); }
  }

  /** LIKE reaches only real descendants of `p` in this table. */
  predicate LikeExact(t: Tree, p: Path) {
    forall q :: q in t && LikeBelow(p, q) ==> q == p || Under(p, q)
  }

  /** ... at every deletion of a change list replayed on `base`. */
  predicate CleanReplay(base: Tree, cs: seq<TreeChange>) {
    cs == [] ||
    (var n := |cs| - 1;
     CleanReplay(base, cs[..n]) && (cs[n].Delete? ==> LikeExact(ReplayAll(base, cs[..n]), cs[n].path)))
  }

  /** The pending rows come out as the sent list, whatever the working table holds. */
  lemma {:induction false} StagedRows(s: Store, cs: seq<TreeChange>, list: ObjectList)
    requires s.work.rows == map[] && Carries(list, cs)
    ensures StageAll(s, cs, list).work.rows == RowsOf(cs)
  {
    if cs != [] { StagedRows(s, cs[..|cs| - 1], list); }
  }

  /** A working table that stays equal to the replayed tree at every prefix. */
  predicate FollowsReplay(t: Tree, cs: seq<TreeChange>) {
    cs == [] || (FollowsReplay(t, cs[..|cs| - 1]) && LikeReplayed(t, cs) == ReplayAll(t, cs))
  }

  lemma LikeAppliesIff(t: Tree, c: TreeChange)
    ensures LikeApplied(t, c) == Apply(t, c) <==> (c.Delete? ==> LikeExact(t, c.path))
  {
    if c.Delete? {
      var p, t' := c.path, LikeApplied(t, c);
      forall q | q in t && Under(p, q) ensures LikeBelow(p, q) { LikeCoversSubtree(p, q); }
      if q :| q in t && LikeBelow(p, q) && q != p && !Under(p, q) {
        assert q in Prune(t, p) && q !in t';
      } else {
        assert t' == Prune(t, p);
      }
    }
  }

  /**
   * A working table follows the replayed tree through a whole change list if and only
   * if LIKE is exact at each of its deletions.
   */
  lemma {:induction false} WorkingTableFollowsIff(t: Tree, cs: seq<TreeChange>)
    ensures FollowsReplay(t, cs) <==> CleanReplay(t, cs)
    ensures FollowsReplay(t, cs) ==> LikeReplayed(t, cs) == ReplayAll(t, cs)
  {
    if cs != [] {
      var before := cs[..|cs| - 1];
      WorkingTableFollowsIff(t, before);
      LikeAppliesIff(LikeReplayed(t, before), cs[|cs| - 1]);
    }
  }

  // ------------------------------------------------------------ whole syncs

  predicate SkippedAt(f: Files, k: nat, allowEmpty: bool) {
    DeltaOrEmpty(f, k).changes == [] && !allowEmpty
  }

  /** The destination's working table after source revision `r`: the deltas replayed with LIKE removals. */
  function Worked(f: Files, r: nat): Tree {
    if r == 0 then map[] else LikeReplayed(Worked(f, r - 1), DeltaOrEmpty(f, r).changes)
  }

  /** Destination revision `j` carries the changes and the metadata of source revision `k`. */
  predicate CopyOf(src: Files, k: nat, dst: Files, j: nat) {
    && k in src.deltas && j in dst.deltas && dst.deltas[j].changes == src.deltas[k].changes
    && k in src.commits && j in dst.commits && dst.commits[j].meta == src.commits[k].meta
  }

  ghost predicate CopiedUpTo(src: Files, r: nat, dst: Files, allowEmpty: bool) {
    && dst.head == AppliedUpTo(src, r, allowEmpty)
    && forall k: nat :: 0 < k <= r && !SkippedAt(src, k, allowEmpty) ==>
         CopyOf(src, k, dst, AppliedUpTo(src, k, allowEmpty))
  }

  lemma {:induction false} AppliedUpToMonotone(f: Files, a: nat, b: nat, allowEmpty: bool)
    requires a <= b
    ensures AppliedUpTo(f, a, allowEmpty) <= AppliedUpTo(f, b, allowEmpty) <= b
  {
    if b > 0 {
      AppliedUpToMonotone(f, if a < b then a else a - 1, b - 1, allowEmpty);
    }
  }

  /** With empty commits allowed the revision numbers coincide. */
  lemma {:induction false} AllowEmptyKeepsNumbers(f: Files, r: nat)
    ensures AppliedUpTo(f, r, true) == r
  {
    if r > 0 { AllowEmptyKeepsNumbers(f, r - 1); }
  }

  lemma StagedForRevision(src: Store, r: nat, dst: Store)
    requires Honest(src) && 0 < r <= src.files.head && Sound(dst) && dst.work.rows == map[]
    ensures var st := StagedFor(dst, Extract(src, r));
            && Sound(st) && st.files == dst.files
            && Collected(st.work.rows) == src.files.deltas[r].changes
            && st.work.tree == LikeReplayed(dst.work.tree, src.files.deltas[r].changes)
  {
    var d := Extract(src, r);
    ExtractCarries(src, r);
    ObjectsStoredKeep(dst.objects, d.objects);
    var s1 := dst.(objects := ObjectsStored(dst.objects, d.objects));
    WithObjectsSound(dst, s1.objects);
    StageAllSound(s1, d.delta.changes, d.objects);
    StagedRows(s1, d.delta.changes, d.objects);
    StagedTree(s1, d.delta.changes, d.objects);
    SortedListCollectedBack(d.delta.changes);
  }

  lemma PublishCopies(src: Files, r: nat, f: Files, c: Pending, allowEmpty: bool)
    requires 0 < r && r in src.deltas && r in src.commits && !SkippedAt(src, r, allowEmpty)
    requires CopiedUpTo(src, r - 1, f, allowEmpty) && c.rev == f.head + 1
    requires c.delta.changes == src.deltas[r].changes && c.meta == src.commits[r].meta
    ensures CopiedUpTo(src, r, Published(f, c), allowEmpty)
  {
    forall k: nat | 0 < k <= r && !SkippedAt(src, k, allowEmpty)
      ensures CopyOf(src, k, Published(f, c), AppliedUpTo(src, k, allowEmpty))
    {
      if k < r {
        assert CopyOf(src, k, f, AppliedUpTo(src, k, allowEmpty));
        AppliedUpToMonotone(src, k, r - 1, allowEmpty);
      }
    }
  }

  // ----------------------------------------- what a destination looks like

  /** Source revision `k` becomes a destination revision that gets a snapshot. */
  predicate SnapshotAt(f: Files, k: nat, allowEmpty: bool) {
    k > 0 && !SkippedAt(f, k, allowEmpty) && SnapshotDue(AppliedUpTo(f, k, allowEmpty))
  }

  predicate SnapshotCopy(src: Files, k: nat, dst: Files, allowEmpty: bool) {
    var j := AppliedUpTo(src, k, allowEmpty);
    j in dst.snapshots && dst.snapshots[j] == Worked(src, k)
  }

  ghost predicate SnapshotsCopied(src: Files, r: nat, dst: Files, allowEmpty: bool) {
    forall k: nat :: k <= r && SnapshotAt(src, k, allowEmpty) ==> SnapshotCopy(src, k, dst, allowEmpty)
  }

  /** The number of entries is counted in the destination's own working table. */
  predicate CountCopy(src: Files, k: nat, dst: Files, allowEmpty: bool) {
    CountedAt(dst, AppliedUpTo(src, k, allowEmpty), |Worked(src, k)|)
  }

  predicate CountedAt(f: Files, r: nat, n: nat) {
    r in f.deltas && f.deltas[r].totalEntries == n
  }

  lemma CountStays(src: Files, k: nat, r: nat, f: Files, c: Pending, allowEmpty: bool)
    requires k < r && CountCopy(src, k, f, allowEmpty) && c.rev > AppliedUpTo(src, r - 1, allowEmpty)
    ensures CountCopy(src, k, Published(f, c), allowEmpty)
  {
    AppliedUpToMonotone(src, k, r - 1, allowEmpty);
  }

  lemma NewCount(src: Files, r: nat, f: Files, c: Pending, allowEmpty: bool)
    requires 0 < r && !SkippedAt(src, r, allowEmpty) && c.rev == AppliedUpTo(src, r - 1, allowEmpty) + 1
    requires c.delta.totalEntries == |Worked(src, r)|
    ensures CountCopy(src, r, Published(f, c), allowEmpty)
  {
  }

  ghost predicate CountsCopied(src: Files, r: nat, dst: Files, allowEmpty: bool) {
    forall k: nat :: 0 < k <= r && !SkippedAt(src, k, allowEmpty) ==> CountCopy(src, k, dst, allowEmpty)
  }

  /** A destination after the first `r` source revisions, with nothing staged. */
  ghost predicate Replica(src: Files, r: nat, dst: Store, allowEmpty: bool) {
    && Sound(dst) && dst.work.rows == map[] && dst.work.tree == Worked(src, r)
    && CopiedUpTo(src, r, dst.files, allowEmpty) && SnapshotsCopied(src, r, dst.files, allowEmpty)
    && CountsCopied(src, r, dst.files, allowEmpty)
  }

  lemma PublishCopiesSnapshot(src: Files, r: nat, f: Files, c: Pending, allowEmpty: bool)
    requires 0 < r && !SkippedAt(src, r, allowEmpty) && f.head == AppliedUpTo(src, r - 1, allowEmpty)
    requires SnapshotsCopied(src, r - 1, f, allowEmpty) && c.rev == f.head + 1 && c.tree == Worked(src, r)
    ensures SnapshotsCopied(src, r, Published(f, c), allowEmpty)
  {
    forall k: nat | k <= r && SnapshotAt(src, k, allowEmpty) ensures SnapshotCopy(src, k, Published(f, c), allowEmpty) {
      if k < r {
        assert SnapshotCopy(src, k, f, allowEmpty);
        AppliedUpToMonotone(src, k, r - 1, allowEmpty);
      }
    }
  }

  lemma PublishCopiesCount(src: Files, r: nat, f: Files, c: Pending, allowEmpty: bool)
    requires 0 < r && !SkippedAt(src, r, allowEmpty) && f.head == AppliedUpTo(src, r - 1, allowEmpty)
    requires CountsCopied(src, r - 1, f, allowEmpty)
    requires c.rev == f.head + 1 && c.delta.totalEntries == |Worked(src, r)|
    ensures CountsCopied(src, r, Published(f, c), allowEmpty)
  {
    forall k: nat | 0 < k <= r && !SkippedAt(src, k, allowEmpty)
      ensures CountCopy(src, k, Published(f, c), allowEmpty)
    {
      if k < r { CountStays(src, k, r, f, c, allowEmpty); } else { NewCount(src, r, f, c, allowEmpty); }
    }
  }

  lemma SkipReplicates(src: Files, r: nat, dst: Store, allowEmpty: bool)
    requires 0 < r && SkippedAt(src, r, allowEmpty) && Replica(src, r - 1, dst, allowEmpty)
    ensures Replica(src, r, dst, allowEmpty)
  {
    forall k: nat | 0 < k <= r && !SkippedAt(src, k, allowEmpty)
      ensures CopyOf(src, k, dst.files, AppliedUpTo(src, k, allowEmpty))
    {
      assert k < r;
    }
    forall k: nat | k <= r && SnapshotAt(src, k, allowEmpty) ensures SnapshotCopy(src, k, dst.files, allowEmpty) {
      assert k < r;
    }
    forall k: nat | 0 < k <= r && !SkippedAt(src, k, allowEmpty) ensures CountCopy(src, k, dst.files, allowEmpty) {
      assert k < r;
    }
  }

  lemma ApplyReplicates(src: Store, r: nat, dst: Store, allowEmpty: bool)
    requires Honest(src) && 0 < r <= src.files.head && Replica(src.files, r - 1, dst, allowEmpty)
    ensures Replica(src.files, r, Applied(dst, Extract(src, r), allowEmpty), allowEmpty)
  {
    var d := Extract(src, r);
    if Skipped(d, allowEmpty) {
      SkipReplicates(src.files, r, dst, allowEmpty);
    } else {
      StagedForRevision(src, r, dst);
      var st := StagedFor(dst, d);
      CommittedSound(st, d.meta, false);
      PublishCopies(src.files, r, dst.files, Gathered(st, d.meta, false), allowEmpty);
      PublishCopiesSnapshot(src.files, r, dst.files, Gathered(st, d.meta, false), allowEmpty);
      PublishCopiesCount(src.files, r, dst.files, Gathered(st, d.meta, false), allowEmpty);
    }
  }

  lemma OneMoreReplicates(src: Store, r: nat, before: Store, after: Store, allowEmpty: bool)
    requires Honest(src) && 0 < r <= src.files.head && Replica(src.files, r - 1, before, allowEmpty)
    requires after == Applied(before, Extract(src, r), allowEmpty)
    ensures Replica(src.files, r, after, allowEmpty)
  {
    ApplyReplicates(src, r, before, allowEmpty);
  }

  lemma FreshReplica(src: Files, timestamp: int, allowEmpty: bool)
    ensures Replica(src, 0, Fresh(timestamp), allowEmpty)
  {
    FreshSound(timestamp);
  }

  lemma SyncedNothing(src: Store, dst: Store, from: nat, allowEmpty: bool)
    requires FilesOk(src.files) && 0 < from <= src.files.head + 1
    ensures Synced(src, dst, from, from - 1, allowEmpty) == dst
  {
  }

  lemma SyncReplicatesOneMore(src: Store, dst: Store, from: nat, last: nat, allowEmpty: bool)
    requires Honest(src) && 0 < from <= last <= src.files.head
    requires Replica(src.files, last - 1, Synced(src, dst, from, last - 1, allowEmpty), allowEmpty)
    ensures Replica(src.files, last, Synced(src, dst, from, last, allowEmpty), allowEmpty)
  {
    SyncedStep(src, dst, from, last, allowEmpty);
    OneMoreReplicates(src, last, Synced(src, dst, from, last - 1, allowEmpty), Synced(src, dst, from, last, allowEmpty),
      allowEmpty);
  }

  /**
   * A sync copies every revision it does not skip, change for change. Its working table,
   * its snapshots and its entry counts are those of the source's deltas replayed with LIKE
   * removals, with no condition on how the source was edited.
   */
  lemma {:induction false} SyncReplicates(src: Store, dst: Store, from: nat, last: nat, allowEmpty: bool)
    requires Honest(src) && 0 < from <= last + 1 && last <= src.files.head
    requires Replica(src.files, from - 1, dst, allowEmpty)
    ensures Replica(src.files, last, Synced(src, dst, from, last, allowEmpty), allowEmpty)
    decreases last
  {
    if from <= last {
      SyncReplicates(src, dst, from, last - 1, allowEmpty);
      SyncReplicatesOneMore(src, dst, from, last, allowEmpty);
    } else {
      SyncedNothing(src, dst, from, allowEmpty);
    }
  }

  // --------------------------------------------------- syncing in two goes

  /** `later` is the same source after more commits. */
  ghost predicate Grown(earlier: Store, later: Store) {
    && Honest(earlier) && Honest(later) && earlier.files.head <= later.files.head
    && earlier.objects.Keys <= later.objects.Keys
    && (forall r: nat :: r <= earlier.files.head ==> SameRevision(earlier.files, later.files, r))
  }

  predicate SameRevision(a: Files, b: Files, r: nat) {
    && r in a.deltas && r in b.deltas && a.deltas[r] == b.deltas[r]
    && r in a.commits && r in b.commits && a.commits[r] == b.commits[r]
  }

  lemma {:induction false} BlobsOfGrown(a: Objects, b: Objects, cs: seq<TreeChange>)
    requires ObjectsOk(a) && ObjectsOk(b) && a.Keys <= b.Keys && ChangesOk(a, cs)
    ensures BlobsOf(a, cs) == BlobsOf(b, cs)
  {
    if cs != [] {
      var c := cs[|cs| - 1];
      BlobsOfGrown(a, b, cs[..|cs| - 1]);
      if c.Upsert? && c.entry.kind.BlobKind? {
        assert a[c.entry.id].Id() == b[c.entry.id].Id();
      }
    }
  }

  lemma ExtractsGrown(earlier: Store, later: Store)
    requires Grown(earlier, later)
    ensures Extracts(earlier, 1, earlier.files.head) == Extracts(later, 1, earlier.files.head)
  {
    forall r: nat | 0 < r <= earlier.files.head ensures Extract(earlier, r) == Extract(later, r) {
      assert SameRevision(earlier.files, later.files, r);
      BlobsOfGrown(earlier.objects, later.objects, earlier.files.deltas[r].changes);
    }
  }

  /** A sync can stop anywhere and go on from there. */
  lemma {:induction false} SyncSplit(
    src: Store, dst: Store, half: Store, from: nat, next: nat, last: nat, allowEmpty: bool)
    requires FilesOk(src.files) && 0 < from <= next <= last + 1 && last <= src.files.head
    requires half == Synced(src, dst, from, next - 1, allowEmpty)
    ensures Synced(src, half, next, last, allowEmpty) == Synced(src, dst, from, last, allowEmpty)
    decreases last
  {
    if next <= last {
      SyncSplit(src, dst, half, from, next, last - 1, allowEmpty);
      SyncedStep(src, half, next, last, allowEmpty);
      SyncedStep(src, dst, from, last, allowEmpty);
    }
  }

  /**
   * Syncing to the head and again after the source has grown leaves the same
   * destination as one sync of the grown source.
   */
  lemma SyncTwiceIsSyncOnce(earlier: Store, later: Store, dst: Store, half: Store, last: nat, allowEmpty: bool)
    requires Grown(earlier, later) && earlier.files.head <= last <= later.files.head
    requires half == Synced(earlier, dst, 1, earlier.files.head, allowEmpty)
    ensures Synced(later, half, earlier.files.head + 1, last, allowEmpty) == Synced(later, dst, 1, last, allowEmpty)
  {
    ExtractsGrown(earlier, later);
    SyncSplit(later, dst, half, 1, earlier.files.head + 1, last, allowEmpty);
  }
}
