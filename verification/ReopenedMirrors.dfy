// What reopening a destination between two syncs does: exactly when it matters.
module ReopenedMirrors {
  import opened ObjectModel
  import opened Store
  import opened Replication
  import opened Mirrors

  /** Reopening a destination, as every sync and pull does first: exactly when it changes nothing. */
  lemma ReopenedReplicaIff(src: Files, r: nat, dst: Store, allowEmpty: bool)
    requires Replica(src, r, dst, allowEmpty)
    ensures Reopened(dst) == dst <==> (Worked(src, r) == map[] ==> Shadow(src, r, allowEmpty) == map[])
  {
    ReplicaShows(src, r, dst, allowEmpty, r);
    assert dst.work.(tree := dst.work.tree) == dst.work;
  }

  // ------------------------------------- destinations that differ in the table

  /** Two destinations with nothing staged whose tables differ at most, one within the other. */
  ghost predicate Twins(a: Store, b: Store) {
    && Sound(a) && Sound(b) && a.work.rows == map[] && b.work.rows == map[]
    && a.files == b.files && a.objects == b.objects && Within(a.work.tree, b.work.tree)
  }

  lemma {:induction false} StagedObjectsAlike(a: Store, b: Store, cs: seq<TreeChange>, list: ObjectList)
    requires a.objects == b.objects
    ensures StageAll(a, cs, list).objects == StageAll(b, cs, list).objects
  {
    if cs != [] { StagedObjectsAlike(a, b, cs[..|cs| - 1], list); }
  }

  /** What twins are committed from differs in the tables only. */
  lemma StagedTwins(src: Store, r: nat, a: Store, b: Store)
    requires Honest(src) && 0 < r <= src.files.head && Twins(a, b)
    ensures var cs := src.files.deltas[r].changes;
            var x, y := StagedFor(a, Extract(src, r)), StagedFor(b, Extract(src, r));
            && x.files == a.files && y.files == a.files && x.objects == y.objects && x.work.rows == y.work.rows
            && x.work.tree == LikeReplayed(a.work.tree, cs) && y.work.tree == LikeReplayed(b.work.tree, cs)
  {
    var d := Extract(src, r);
    var objects := ObjectsStored(a.objects, d.objects);
    StagedForRevision(src, r, a);
    StagedForRevision(src, r, b);
    ExtractCarries(src, r);
    StagedRows(a.(objects := objects), d.delta.changes, d.objects);
    StagedRows(b.(objects := objects), d.delta.changes, d.objects);
    StagedObjectsAlike(a.(objects := objects), b.(objects := objects), d.delta.changes, d.objects);
  }

  /** Equal if the tables met, and else with different deltas of revision `j`. */
  predicate Parted(a: Store, b: Store, j: nat, met: bool) {
    && j <= a.files.head && j <= b.files.head && j in a.files.deltas && j in b.files.deltas
    && if met then a == b else a.files.deltas[j] != b.files.deltas[j]
  }

  /** The same commit of different tables counts differently when one table is within the other. */
  lemma CommittedAlikeIff(x: Store, y: Store, meta: Meta)
    requires x.files == y.files && x.objects == y.objects && x.work.rows == y.work.rows
    requires Within(x.work.tree, y.work.tree)
    ensures Parted(Committed(x, meta, false), Committed(y, meta, false), x.files.head + 1, x.work.tree == y.work.tree)
  {
    if x.work.tree == y.work.tree {
      SameStore(x, y);
    } else {
      WithinSameSize(x.work.tree, y.work.tree);
      CommitCounts(x, meta);
      CommitCounts(y, meta);
    }
  }

  lemma SameStore(x: Store, y: Store)
    requires x.work.tree == y.work.tree && x.work.rows == y.work.rows && x.objects == y.objects && x.files == y.files
    ensures x == y
  {
  }

  lemma CommitCounts(s: Store, meta: Meta)
    ensures var f, j := Committed(s, meta, false).files, s.files.head + 1;
            f.head == j && j in f.deltas && f.deltas[j].totalEntries == |s.work.tree|
  {
  }

  /** The tables of twins are the same once revision `r` is applied. */
  predicate TablesMeet(f: Files, r: nat, a: Tree, b: Tree) {
    LikeReplayed(a, DeltaOrEmpty(f, r).changes) == LikeReplayed(b, DeltaOrEmpty(f, r).changes)
  }

  lemma AppliedTwins(src: Store, r: nat, a: Store, b: Store, allowEmpty: bool, a': Store, b': Store)
    requires Honest(src) && 0 < r <= src.files.head && Twins(a, b) && !SkippedAt(src.files, r, allowEmpty)
    requires a' == Applied(a, Extract(src, r), allowEmpty) && b' == Applied(b, Extract(src, r), allowEmpty)
    ensures Parted(a', b', a.files.head + 1, TablesMeet(src.files, r, a.work.tree, b.work.tree))
  {
    var d := Extract(src, r);
    StagedTwins(src, r, a, b);
    LikeKeepsWithin(a.work.tree, b.work.tree, src.files.deltas[r].changes);
    CommittedAlikeIff(StagedFor(a, d), StagedFor(b, d), d.meta);
  }

  lemma {:induction false} LikeKeepsWithin(a: Tree, b: Tree, cs: seq<TreeChange>)
    requires Within(a, b)
    ensures Within(LikeReplayed(a, cs), LikeReplayed(b, cs))
  {
    if cs != [] { LikeKeepsWithin(a, b, cs[..|cs| - 1]); }
  }

  // ------------------------------------------------------- over a whole range

  lemma {:induction false} StageAllKeepsFiles(s: Store, cs: seq<TreeChange>, list: ObjectList)
    ensures StageAll(s, cs, list).files == s.files
  {
    if cs != [] { StageAllKeepsFiles(s, cs[..|cs| - 1], list); }
  }

  lemma AppliedKeepsDelta(dst: Store, d: RevisionData, allowEmpty: bool, j: nat)
    requires j <= dst.files.head && j in dst.files.deltas
    ensures var after := Applied(dst, d, allowEmpty).files;
            dst.files.head <= after.head && j in after.deltas && after.deltas[j] == dst.files.deltas[j]
  {
    StageAllKeepsFiles(dst.(objects := ObjectsStored(dst.objects, d.objects)), d.delta.changes, d.objects);
  }

  /** A delta that is there stays as it is. */
  lemma {:induction false} SyncedKeepsDelta(src: Store, dst: Store, from: nat, last: nat, allowEmpty: bool, j: nat)
    requires FilesOk(src.files) && 0 < from <= last + 1 && last <= src.files.head
    requires j <= dst.files.head && j in dst.files.deltas
    ensures var after := Synced(src, dst, from, last, allowEmpty).files;
            dst.files.head <= after.head && j in after.deltas && after.deltas[j] == dst.files.deltas[j]
    decreases last
  {
    if from <= last {
      SyncedKeepsDelta(src, dst, from, last - 1, allowEmpty, j);
      SyncedStep(src, dst, from, last, allowEmpty);
      AppliedKeepsDelta(Synced(src, dst, from, last - 1, allowEmpty), Extract(src, last), allowEmpty, j);
    } else {
      SyncedNothing(src, dst, from, allowEmpty);
    }
  }

  /** Nothing from `from` on and before `end` is applied. */
  ghost predicate AllSkipped(f: Files, from: nat, end: nat, allowEmpty: bool) {
    forall k: nat :: from <= k < end ==> SkippedAt(f, k, allowEmpty)
  }

  lemma {:induction false} SkippedSync(src: Store, dst: Store, from: nat, last: nat, allowEmpty: bool)
    requires FilesOk(src.files) && 0 < from <= last + 1 && last <= src.files.head
    requires AllSkipped(src.files, from, last + 1, allowEmpty)
    ensures Synced(src, dst, from, last, allowEmpty) == dst
    decreases last
  {
    if from <= last {
      SkippedSync(src, dst, from, last - 1, allowEmpty);
      SyncedStep(src, dst, from, last, allowEmpty);
      assert SkippedAt(src.files, last, allowEmpty);
    } else {
      SyncedNothing(src, dst, from, allowEmpty);
    }
  }

  /** The first revision of the range that is not skipped. */
  ghost predicate FirstApplied(f: Files, from: nat, last: nat, k: nat, allowEmpty: bool) {
    from <= k <= last && !SkippedAt(f, k, allowEmpty) && AllSkipped(f, from, k, allowEmpty)
  }

  lemma SomeApplied(f: Files, from: nat, last: nat, allowEmpty: bool) returns (k: nat)
    requires 0 < from && !AllSkipped(f, from, last + 1, allowEmpty)
    ensures FirstApplied(f, from, last, k, allowEmpty)
    decreases last - from
  {
    if SkippedAt(f, from, allowEmpty) {
      k := SomeApplied(f, from + 1, last, allowEmpty);
    } else {
      k := from;
    }
  }

  lemma UpToFirst(src: Store, dst: Store, from: nat, k: nat, allowEmpty: bool, now: Store)
    requires FilesOk(src.files) && 0 < from <= k <= src.files.head && AllSkipped(src.files, from, k, allowEmpty)
    requires now == Applied(dst, Extract(src, k), allowEmpty)
    ensures Synced(src, dst, from, k, allowEmpty) == now
  {
    SkippedSync(src, dst, from, k - 1, allowEmpty);
    OneMoreSynced(src, dst, dst, from, k, allowEmpty, now);
  }

  lemma OneMoreSynced(src: Store, dst: Store, before: Store, from: nat, k: nat, allowEmpty: bool, now: Store)
    requires FilesOk(src.files) && 0 < from <= k <= src.files.head
    requires before == Synced(src, dst, from, k - 1, allowEmpty)
    requires now == Applied(before, Extract(src, k), allowEmpty)
    ensures Synced(src, dst, from, k, allowEmpty) == now
  {
    SyncedStep(src, dst, from, k, allowEmpty);
  }

  /** The tables of twins meet at the first revision of the range that is applied. */
  ghost predicate MeetInRange(f: Files, from: nat, last: nat, a: Tree, b: Tree, allowEmpty: bool) {
    exists k :: FirstApplied(f, from, last, k, allowEmpty) && TablesMeet(f, k, a, b)
  }

  lemma FirstIsOne(f: Files, from: nat, last: nat, k: nat, j: nat, allowEmpty: bool)
    requires FirstApplied(f, from, last, k, allowEmpty) && FirstApplied(f, from, last, j, allowEmpty)
    ensures k == j
  {
  }

  /** A sync makes twins the same if and only if they are already or its first applied revision does. */
  lemma SyncedTwinsIff(src: Store, a: Store, b: Store, from: nat, last: nat, allowEmpty: bool)
    requires Honest(src) && 0 < from <= last + 1 && last <= src.files.head && Twins(a, b)
    ensures Synced(src, a, from, last, allowEmpty) == Synced(src, b, from, last, allowEmpty)
       <==> a == b || MeetInRange(src.files, from, last, a.work.tree, b.work.tree, allowEmpty)
  {
    if AllSkipped(src.files, from, last + 1, allowEmpty) {
      SkippedSync(src, a, from, last, allowEmpty);
      SkippedSync(src, b, from, last, allowEmpty);
    } else {
      var k := SomeApplied(src.files, from, last, allowEmpty);
      SyncedFromFirst(src, a, b, from, last, k, allowEmpty);
      OnlyAtTheFirst(src.files, from, last, k, a.work.tree, b.work.tree, allowEmpty);
    }
  }

  lemma OnlyAtTheFirst(f: Files, from: nat, last: nat, k: nat, a: Tree, b: Tree, allowEmpty: bool)
    requires FirstApplied(f, from, last, k, allowEmpty)
    ensures MeetInRange(f, from, last, a, b, allowEmpty) <==> TablesMeet(f, k, a, b)
    ensures a == b ==> TablesMeet(f, k, a, b)
  {
    if MeetInRange(f, from, last, a, b, allowEmpty) {
      var j :| FirstApplied(f, from, last, j, allowEmpty) && TablesMeet(f, j, a, b);
      FirstIsOne(f, from, last, k, j, allowEmpty);
    }
  }

  lemma SyncedFromFirst(src: Store, a: Store, b: Store, from: nat, last: nat, k: nat, allowEmpty: bool)
    requires Honest(src) && 0 < from && last <= src.files.head && Twins(a, b)
    requires FirstApplied(src.files, from, last, k, allowEmpty)
    ensures Synced(src, a, from, last, allowEmpty) == Synced(src, b, from, last, allowEmpty)
       <==> TablesMeet(src.files, k, a.work.tree, b.work.tree)
  {
    SyncsSplit(src, a, from, k, last, allowEmpty);
    SyncsSplit(src, b, from, k, last, allowEmpty);
    TwinsPartAt(src, a, b, from, last, k, allowEmpty, Synced(src, a, from, k, allowEmpty),
      Synced(src, b, from, k, allowEmpty));
  }

  lemma SyncsSplit(src: Store, dst: Store, from: nat, k: nat, last: nat, allowEmpty: bool)
    requires FilesOk(src.files) && 0 < from <= k <= last <= src.files.head
    ensures Synced(src, dst, from, last, allowEmpty)
         == Synced(src, Synced(src, dst, from, k, allowEmpty), k + 1, last, allowEmpty)
  {
    SyncSplit(src, dst, Synced(src, dst, from, k, allowEmpty), from, k + 1, last, allowEmpty);
  }

  lemma TwinsPartAt(
    src: Store, a: Store, b: Store, from: nat, last: nat, k: nat, allowEmpty: bool, a': Store, b': Store)
    requires Honest(src) && 0 < from && last <= src.files.head && Twins(a, b)
    requires FirstApplied(src.files, from, last, k, allowEmpty)
    requires a' == Synced(src, a, from, k, allowEmpty) && b' == Synced(src, b, from, k, allowEmpty)
    ensures Synced(src, a', k + 1, last, allowEmpty) == Synced(src, b', k + 1, last, allowEmpty)
       <==> TablesMeet(src.files, k, a.work.tree, b.work.tree)
  {
    UpToFirst(src, a, from, k, allowEmpty, Applied(a, Extract(src, k), allowEmpty));
    UpToFirst(src, b, from, k, allowEmpty, Applied(b, Extract(src, k), allowEmpty));
    TwinsPart(src, a, b, a', b', last, k, allowEmpty);
  }

  lemma TwinsPart(src: Store, a: Store, b: Store, a': Store, b': Store, last: nat, k: nat, allowEmpty: bool)
    requires Honest(src) && 0 < k <= last <= src.files.head && Twins(a, b) && !SkippedAt(src.files, k, allowEmpty)
    requires a' == Applied(a, Extract(src, k), allowEmpty) && b' == Applied(b, Extract(src, k), allowEmpty)
    ensures Synced(src, a', k + 1, last, allowEmpty) == Synced(src, b', k + 1, last, allowEmpty)
       <==> TablesMeet(src.files, k, a.work.tree, b.work.tree)
  {
    AppliedTwins(src, k, a, b, allowEmpty, a', b');
    PartedSync(src, a', b', k + 1, last, allowEmpty, a.files.head + 1,
      TablesMeet(src.files, k, a.work.tree, b.work.tree));
  }

  lemma PartedSync(src: Store, a: Store, b: Store, from: nat, last: nat, allowEmpty: bool, j: nat, met: bool)
    requires FilesOk(src.files) && 0 < from <= last + 1 && last <= src.files.head && Parted(a, b, j, met)
    ensures Synced(src, a, from, last, allowEmpty) == Synced(src, b, from, last, allowEmpty) <==> met
  {
    SyncedKeepsDelta(src, a, from, last, allowEmpty, j);
    SyncedKeepsDelta(src, b, from, last, allowEmpty, j);
  }

  // ------------------------------------------------------------ repeated syncs

  lemma ReopenedTwins(dst: Store)
    requires Sound(dst) && dst.work.rows == map[]
    ensures Twins(dst, Reopened(dst))
  {
    ReopenedSound(dst);
  }

  /**
   * Syncing to one head and later, reopened as the command does, to another leaves what one
   * sync leaves if and only if reopening changed nothing or the first revision applied after
   * it brings the two tables together.
   */
  lemma ReopenedSyncIff(earlier: Store, later: Store, half: Store, timestamp: int, last: nat, allowEmpty: bool)
    requires Grown(earlier, later) && earlier.files.head <= last <= later.files.head
    requires half == Synced(earlier, Reopened(Fresh(timestamp)), 1, earlier.files.head, allowEmpty)
    ensures Synced(later, Reopened(half), earlier.files.head + 1, last, allowEmpty)
            == Synced(later, Fresh(timestamp), 1, last, allowEmpty)
       <==> || Reopened(half) == half
            || MeetInRange(later.files, earlier.files.head + 1, last, half.work.tree, Reopened(half).work.tree,
                           allowEmpty)
  {
    var head := earlier.files.head;
    FreshReplica(earlier.files, timestamp, allowEmpty);
    SyncReplicates(earlier, Fresh(timestamp), 1, head, allowEmpty);
    ReopenedTwins(half);
    SyncedTwinsIff(later, half, Reopened(half), head + 1, last, allowEmpty);
    SyncTwiceIsSyncOnce(earlier, later, Fresh(timestamp), half, last, allowEmpty);
  }
}
