// What a synced destination shows: a closed form of its trees, and exactly when they
// are the source's.
module Mirrors {
  import opened Paths
  import opened ObjectModel
  import opened Replay
  import opened Store
  import opened Replication

  /** What the destination shows for source revision `k`. */
  function Shadow(f: Files, k: nat, allowEmpty: bool): Tree {
    if k == 0 then map[]
    else if SkippedAt(f, k, allowEmpty) then Shadow(f, k - 1, allowEmpty)
    else if SnapshotDue(AppliedUpTo(f, k, allowEmpty)) then Worked(f, k)
    else ReplayAll(Shadow(f, k - 1, allowEmpty), DeltaOrEmpty(f, k).changes)
  }

  lemma SnapshotShows(src: Files, last: nat, dst: Store, allowEmpty: bool, k: nat)
    requires Replica(src, last, dst, allowEmpty) && k <= last && SnapshotAt(src, k, allowEmpty)
    ensures Recorded(dst.files, AppliedUpTo(src, k, allowEmpty)) == Worked(src, k)
  {
    assert SnapshotCopy(src, k, dst.files, allowEmpty);
  }

  lemma DeltaShows(src: Files, last: nat, dst: Store, allowEmpty: bool, k: nat)
    requires Replica(src, last, dst, allowEmpty) && 0 < k <= last
    requires !SkippedAt(src, k, allowEmpty) && !SnapshotAt(src, k, allowEmpty)
    ensures Recorded(dst.files, AppliedUpTo(src, k, allowEmpty))
         == ReplayAll(Recorded(dst.files, AppliedUpTo(src, k - 1, allowEmpty)), DeltaOrEmpty(src, k).changes)
  {
    assert CopyOf(src, k, dst.files, AppliedUpTo(src, k, allowEmpty));
    AppliedUpToMonotone(src, k, last, allowEmpty);
    RecordedBetween(dst.files, AppliedUpTo(src, k, allowEmpty));
  }

  lemma RecordedBetween(f: Files, r: nat)
    requires FilesOk(f) && 0 < r <= f.head && !SnapshotDue(r)
    ensures r in f.deltas && Recorded(f, r) == ReplayAll(Recorded(f, r - 1), f.deltas[r].changes)
  {
  }

  /** The closed form, for every source: edited in any way, LIKE exact or not. */
  lemma {:induction false} ReplicaShows(src: Files, last: nat, dst: Store, allowEmpty: bool, k: nat)
    requires Replica(src, last, dst, allowEmpty) && k <= last
    ensures Recorded(dst.files, AppliedUpTo(src, k, allowEmpty)) == Shadow(src, k, allowEmpty)
  {
    if k > 0 {
      ReplicaShows(src, last, dst, allowEmpty, k - 1);
      ReplicaShowsNext(src, last, dst, allowEmpty, k);
    }
  }

  lemma ReplicaShowsNext(src: Files, last: nat, dst: Store, allowEmpty: bool, k: nat)
    requires Replica(src, last, dst, allowEmpty) && 0 < k <= last
    requires Recorded(dst.files, AppliedUpTo(src, k - 1, allowEmpty)) == Shadow(src, k - 1, allowEmpty)
    ensures Recorded(dst.files, AppliedUpTo(src, k, allowEmpty)) == Shadow(src, k, allowEmpty)
  {
    if SnapshotAt(src, k, allowEmpty) {
      SnapshotShows(src, last, dst, allowEmpty, k);
    } else if !SkippedAt(src, k, allowEmpty) {
      DeltaShows(src, last, dst, allowEmpty, k);
    }
  }

  // ------------------------------------------- when that is the source's tree

  predicate SameTreeAt(src: Files, k: nat, dst: Files, allowEmpty: bool) {
    Recorded(dst, AppliedUpTo(src, k, allowEmpty)) == Recorded(src, k)
  }

  ghost predicate SameTrees(src: Files, r: nat, dst: Files, allowEmpty: bool) {
    forall k: nat :: k <= r ==> SameTreeAt(src, k, dst, allowEmpty)
  }

  /** Where the destination takes a snapshot its working table is the source's tree. */
  predicate SnapshotExact(f: Files, k: nat, allowEmpty: bool) {
    SnapshotAt(f, k, allowEmpty) ==> Worked(f, k) == Recorded(f, k)
  }

  ghost predicate SnapshotsExact(f: Files, r: nat, allowEmpty: bool) {
    forall k: nat :: k <= r ==> SnapshotExact(f, k, allowEmpty)
  }

  predicate ShadowExact(f: Files, k: nat, allowEmpty: bool) {
    Shadow(f, k, allowEmpty) == Recorded(f, k)
  }

  ghost predicate ShadowsExact(f: Files, r: nat, allowEmpty: bool) {
    forall k: nat :: k <= r ==> ShadowExact(f, k, allowEmpty)
  }

  lemma ShadowStep(f: Files, k: nat, allowEmpty: bool)
    requires 0 < k && ReplayLinked(f, k) && ShadowExact(f, k - 1, allowEmpty)
    ensures ShadowExact(f, k, allowEmpty) <==> SnapshotExact(f, k, allowEmpty)
  {
  }

  lemma {:induction false} ShadowsExactIff(f: Files, r: nat, allowEmpty: bool)
    requires Chained(f) && r <= f.head
    ensures ShadowsExact(f, r, allowEmpty) <==> SnapshotsExact(f, r, allowEmpty)
  {
    if r > 0 {
      ShadowsExactIff(f, r - 1, allowEmpty);
      assert ReplayLinked(f, r);
      if ShadowExact(f, r - 1, allowEmpty) { ShadowStep(f, r, allowEmpty); }
    } else {
      assert ShadowExact(f, 0, allowEmpty);
    }
  }

  lemma ReplicaMirrorsIff(src: Files, r: nat, dst: Store, allowEmpty: bool)
    requires Chained(src) && r <= src.head && Replica(src, r, dst, allowEmpty)
    ensures SameTrees(src, r, dst.files, allowEmpty) <==> SnapshotsExact(src, r, allowEmpty)
  {
    ShadowsExactIff(src, r, allowEmpty);
    forall k: nat | k <= r ensures SameTreeAt(src, k, dst.files, allowEmpty) <==> ShadowExact(src, k, allowEmpty) {
      ReplicaShows(src, r, dst, allowEmpty, k);
    }
  }

  /**
   * After a sync every source tree r is the destination tree f(r), f counting the
   * revisions applied, if and only if at each destination snapshot the source's deltas
   * replayed with LIKE removals give the source's tree.
   */
  lemma SyncMirrorsIff(src: Store, dst: Store, from: nat, last: nat, allowEmpty: bool)
    requires Honest(src) && Chained(src.files) && 0 < from <= last + 1 && last <= src.files.head
    requires Replica(src.files, from - 1, dst, allowEmpty)
    ensures SameTrees(src.files, last, Synced(src, dst, from, last, allowEmpty).files, allowEmpty)
       <==> SnapshotsExact(src.files, last, allowEmpty)
  {
    SyncReplicates(src, dst, from, last, allowEmpty);
    ReplicaMirrorsIff(src.files, last, Synced(src, dst, from, last, allowEmpty), allowEmpty);
  }

  /** Below 1000 destination revisions there is no condition at all. */
  lemma NoSnapshotNoCondition(f: Files, r: nat, allowEmpty: bool)
    requires AppliedUpTo(f, r, allowEmpty) < 1000
    ensures SnapshotsExact(f, r, allowEmpty)
  {
    forall k: nat | k <= r ensures SnapshotExact(f, k, allowEmpty) {
      AppliedUpToMonotone(f, k, r, allowEmpty);
      if k > 0 && !SkippedAt(f, k, allowEmpty) { assert 0 < AppliedUpTo(f, k, allowEmpty) < 1000; }
    }
  }

  /** LIKE is exact at every deletion of revision `r`. */
  predicate CleanAt(f: Files, r: nat) {
    0 < r && r in f.deltas && CleanReplay(Recorded(f, r - 1), f.deltas[r].changes)
  }

  ghost predicate CleanUpTo(f: Files, r: nat) {
    forall k: nat :: 0 < k <= r ==> CleanAt(f, k)
  }

  /** Nor is there one while LIKE is exact at every deletion. */
  lemma {:induction false} CleanIsExact(f: Files, r: nat)
    requires Chained(f) && r <= f.head && CleanUpTo(f, r)
    ensures Worked(f, r) == Recorded(f, r)
  {
    if r > 0 {
      CleanIsExact(f, r - 1);
      assert CleanAt(f, r) && ReplayLinked(f, r);
      WorkingTableFollowsIff(Recorded(f, r - 1), f.deltas[r].changes);
    }
  }

  lemma CleanNoCondition(f: Files, r: nat, allowEmpty: bool)
    requires Chained(f) && r <= f.head && CleanUpTo(f, r)
    ensures SnapshotsExact(f, r, allowEmpty)
  {
    forall k: nat | k <= r ensures SnapshotExact(f, k, allowEmpty) { CleanIsExact(f, k); }
  }

  // -------------------------------------------------------- the mirror check

  /** What the mirror check compares: the blobs and paths of one revision. */
  predicate SameContent(a: Tree, b: Tree) {
    a.Keys == b.Keys && forall p :: p in a ==> a[p].id == b[p].id
  }

  lemma LikeAppliedWithin(a: Tree, b: Tree, c: TreeChange)
    requires Within(a, b)
    ensures Within(LikeApplied(a, c), Apply(b, c))
  {
    if c.Delete? {
      forall q | Under(c.path, q) ensures LikeBelow(c.path, q) { LikeCoversSubtree(c.path, q); }
    }
  }

  lemma {:induction false} LikeReplayedWithin(a: Tree, b: Tree, cs: seq<TreeChange>)
    requires Within(a, b)
    ensures Within(LikeReplayed(a, cs), ReplayAll(b, cs))
  {
    if cs != [] {
      var before := cs[..|cs| - 1];
      LikeReplayedWithin(a, b, before);
      LikeAppliedWithin(LikeReplayed(a, before), ReplayAll(b, before), cs[|cs| - 1]);
    }
  }

  /** LIKE can only take too much: what is left in the working table is right. */
  lemma {:induction false} WorkedWithin(f: Files, r: nat)
    requires Chained(f) && r <= f.head
    ensures Within(Worked(f, r), Recorded(f, r))
  {
    if r > 0 {
      WorkedWithin(f, r - 1);
      assert ReplayLinked(f, r);
      LikeReplayedWithin(Worked(f, r - 1), Recorded(f, r - 1), f.deltas[r].changes);
    }
  }

  predicate VerifiesAt(src: Files, k: nat, dst: Files) {
    SameContent(Recorded(src, k), Recorded(dst, k))
  }

  lemma VerifiedSnapshotIsExact(src: Files, last: nat, dst: Store, k: nat)
    requires Chained(src) && last <= src.head && Replica(src, last, dst, true) && k <= last
    requires VerifiesAt(src, k, dst.files)
    ensures SnapshotExact(src, k, true)
  {
    AllowEmptyKeepsNumbers(src, k);
    if SnapshotAt(src, k, true) {
      SnapshotShows(src, last, dst, true, k);
      WorkedWithin(src, k);
      assert Worked(src, k).Keys == Recorded(src, k).Keys;
    }
  }

  ghost predicate AllVerify(src: Files, dst: Files) {
    forall r: nat :: r <= src.head ==> VerifiesAt(src, r, dst)
  }

  lemma ReplicaVerifiesIff(src: Files, dst: Store)
    requires Chained(src) && Replica(src, src.head, dst, true)
    ensures AllVerify(src, dst.files) <==> SnapshotsExact(src, src.head, true)
  {
    ReplicaMirrorsIff(src, src.head, dst, true);
    forall r: nat | r <= src.head && SameTreeAt(src, r, dst.files, true) ensures VerifiesAt(src, r, dst.files) {
      AllowEmptyKeepsNumbers(src, r);
    }
    if AllVerify(src, dst.files) {
      forall r: nat | r <= src.head ensures SnapshotExact(src, r, true) {
        assert VerifiesAt(src, r, dst.files);
        VerifiedSnapshotIsExact(src, src.head, dst, r);
      }
    }
  }

  /**
   * With empty commits allowed the revision numbers and the change lists coincide, and
   * the mirror check accepts every revision if and only if the snapshots are exact.
   */
  lemma MirrorVerifiesIff(src: Store, dst: Store, timestamp: int)
    requires Honest(src) && Chained(src.files) && dst == Synced(src, Fresh(timestamp), 1, src.files.head, true)
    ensures dst.files.head == src.files.head
    ensures forall r: nat :: 0 < r <= src.files.head ==> CopyOf(src.files, r, dst.files, r)
    ensures AllVerify(src.files, dst.files) <==> SnapshotsExact(src.files, src.files.head, true)
  {
    var f, head := src.files, src.files.head;
    FreshReplica(f, timestamp, true);
    SyncReplicates(src, Fresh(timestamp), 1, head, true);
    ReplicaVerifiesIff(f, dst);
    AllowEmptyKeepsNumbers(f, head);
    forall r: nat | 0 < r <= head ensures CopyOf(f, r, dst.files, r) {
      AllowEmptyKeepsNumbers(f, r);
      assert CopyOf(f, r, dst.files, AppliedUpTo(f, r, true));
    }
  }

  // ----------------------------------------------------------- entry counts

  /** The destination's count for source revision `k` is the size of the source's tree. */
  predicate CountExact(src: Files, k: nat, dst: Files, allowEmpty: bool) {
    var j := AppliedUpTo(src, k, allowEmpty);
    j in dst.deltas && dst.deltas[j].totalEntries == |Recorded(src, k)|
  }

  /** Every applied revision was counted right. */
  ghost predicate CountsExact(src: Files, r: nat, dst: Files, allowEmpty: bool) {
    forall k: nat :: 0 < k <= r && !SkippedAt(src, k, allowEmpty) ==> CountExact(src, k, dst, allowEmpty)
  }

  predicate WorkedExact(f: Files, k: nat) {
    Worked(f, k) == Recorded(f, k)
  }

  ghost predicate WorkedExactUpTo(f: Files, r: nat, allowEmpty: bool) {
    forall k: nat :: 0 < k <= r && !SkippedAt(f, k, allowEmpty) ==> WorkedExact(f, k)
  }

  lemma WithinSameSize(a: Tree, b: Tree)
    requires Within(a, b)
    ensures |a| == |b| <==> a == b
  {
    if |a| == |b| { SubsetSameSize(a.Keys, b.Keys); }
  }

  lemma SubsetSameSize(a: set<Path>, b: set<Path>)
    requires a <= b && |a| == |b|
    ensures a == b
  {
    assert |b - a| == 0;
  }

  lemma CountIsExactIff(src: Files, last: nat, dst: Store, allowEmpty: bool, k: nat)
    requires Chained(src) && last <= src.head && Replica(src, last, dst, allowEmpty)
    requires 0 < k <= last && !SkippedAt(src, k, allowEmpty)
    ensures CountExact(src, k, dst.files, allowEmpty) <==> WorkedExact(src, k)
  {
    assert CountCopy(src, k, dst.files, allowEmpty);
    WorkedWithin(src, k);
    WithinSameSize(Worked(src, k), Recorded(src, k));
  }

  /**
   * After a sync each applied revision's count is the size of the source's tree if and only
   * if the deltas replayed with LIKE removals give that tree: a condition at every applied
   * revision, not at snapshots only.
   */
  lemma SyncCountsIff(src: Store, dst: Store, from: nat, last: nat, allowEmpty: bool)
    requires Honest(src) && Chained(src.files) && 0 < from <= last + 1 && last <= src.files.head
    requires Replica(src.files, from - 1, dst, allowEmpty)
    ensures CountsExact(src.files, last, Synced(src, dst, from, last, allowEmpty).files, allowEmpty)
       <==> WorkedExactUpTo(src.files, last, allowEmpty)
  {
    var f, after := src.files, Synced(src, dst, from, last, allowEmpty);
    SyncReplicates(src, dst, from, last, allowEmpty);
    forall k: nat | 0 < k <= last && !SkippedAt(f, k, allowEmpty)
      ensures CountExact(f, k, after.files, allowEmpty) <==> WorkedExact(f, k)
    {
      CountIsExactIff(f, last, after, allowEmpty, k);
    }
  }
}
