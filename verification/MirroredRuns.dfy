// The two cores together: what clients committed at the source is what the
// destination of a sync shows.
module MirroredRuns {
  import opened Paths
  import opened ObjectModel
  import opened Replay
  import opened Store
  import opened Runs
  import opened Replication
  import opened Mirrors
  import opened ReopenedMirrors

  lemma StepGrows(s: System, a: Step)
    requires Shape(s)
    ensures Grown(s.store, Next(s, a).store)
  {
    StepKeepsShape(s, a);
    forall r: nat | r <= s.store.files.head ensures SameRevision(s.store.files, Next(s, a).store.files, r) {
      StepOnlyAppends(s, a, r);
    }
  }

  lemma GrownTransitive(a: Store, b: Store, c: Store)
    requires Grown(a, b) && Grown(b, c)
    ensures Grown(a, c)
  {
    forall r: nat | r <= a.files.head ensures SameRevision(a.files, c.files, r) {
      assert SameRevision(a.files, b.files, r) && SameRevision(b.files, c.files, r);
    }
  }

  /** Whatever the clients do next, a source only grows, so syncs can be repeated (SyncTwiceIsSyncOnce). */
  lemma {:induction false} RunsGrow(s: System, steps: seq<Step>)
    requires Shape(s)
    ensures Grown(s.store, Run(s, steps).store)
    decreases |steps|
  {
    if steps == [] {
      forall r: nat | r <= s.store.files.head ensures SameRevision(s.store.files, s.store.files, r) {}
    } else {
      StepKeepsShape(s, steps[0]);
      StepGrows(s, steps[0]);
      RunsGrow(Next(s, steps[0]), steps[1..]);
      GrownTransitive(s.store, Next(s, steps[0]).store, Run(s, steps).store);
    }
  }

  predicate MirroredAt(s: System, dst: Files, allowEmpty: bool, r: nat) {
    r < |s.history| && Recorded(dst, AppliedUpTo(s.store.files, r, allowEmpty)) == s.history[r]
  }

  /**
   * For every run of the source whose gathers were in step and every sync into a fresh
   * repository: the table as it stood at commit r is what the destination shows at f(r),
   * for all r, if and only if the destination's snapshots are exact.
   */
  lemma HistoryIsMirroredIff(timestamp: int, steps: seq<Step>, src: System, dst: Store, since: int, allowEmpty: bool)
    requires src == Run(Initial(timestamp), steps) && GatheredInStep(Initial(timestamp), steps, true)
    requires FilesOk(src.store.files) && dst == Synced(src.store, Fresh(since), 1, src.store.files.head, allowEmpty)
    ensures (forall r: nat :: r <= src.store.files.head ==> MirroredAt(src, dst.files, allowEmpty, r))
       <==> SnapshotsExact(src.store.files, src.store.files.head, allowEmpty)
  {
    var f := src.store.files;
    InitialGood(timestamp);
    RunReproducesIff(Initial(timestamp), steps, true);
    ReproducesAtEnd(Initial(timestamp), steps);
    FreshReplica(f, since, allowEmpty);
    SyncMirrorsIff(src.store, Fresh(since), 1, f.head, allowEmpty);
    forall r: nat | r <= f.head
      ensures MirroredAt(src, dst.files, allowEmpty, r) <==> SameTreeAt(f, r, dst.files, allowEmpty)
    {
      assert RecordedIn(f, src.history, r);
    }
  }

  /** The same for the entry counts of the deltas: they are the source's. */
  lemma HistoryIsCountedIff(timestamp: int, steps: seq<Step>, src: System, dst: Store, since: int, allowEmpty: bool)
    requires src == Run(Initial(timestamp), steps) && GatheredInStep(Initial(timestamp), steps, true)
    requires FilesOk(src.store.files) && dst == Synced(src.store, Fresh(since), 1, src.store.files.head, allowEmpty)
    ensures (forall r: nat :: 0 < r <= src.store.files.head && !SkippedAt(src.store.files, r, allowEmpty) ==>
               SameCountAt(src.store.files, r, dst.files, allowEmpty))
       <==> WorkedExactUpTo(src.store.files, src.store.files.head, allowEmpty)
  {
    var f := src.store.files;
    InitialGood(timestamp);
    RunReproducesIff(Initial(timestamp), steps, true);
    ReproducesAtEnd(Initial(timestamp), steps);
    FreshReplica(f, since, allowEmpty);
    SyncCountsIff(src.store, Fresh(since), 1, f.head, allowEmpty);
    forall r: nat | r <= f.head
      ensures SameCountAt(f, r, dst.files, allowEmpty) <==> CountExact(f, r, dst.files, allowEmpty)
    {
      RunsRefineHistory(timestamp, steps, r);
    }
  }

  predicate SameCountAt(src: Files, r: nat, dst: Files, allowEmpty: bool) {
    var j := AppliedUpTo(src, r, allowEmpty);
    r in src.deltas && j in dst.deltas && dst.deltas[j].totalEntries == src.deltas[r].totalEntries
  }

  // ------------------------------------------- a snapshot that is not exact

  function CommitSteps(meta: Meta, n: nat): seq<Step> {
    if n == 0 then [] else [Gather(meta, true)] + ([Publish] + CommitSteps(meta, n - 1))
  }

  /** Nothing staged and no commit on its way. */
  predicate Idle(s: System) {
    s.pending.None? && s.store.work.rows == map[]
  }

  ghost function OneCommit(s: System, meta: Meta): System {
    Next(Next(s, Gather(meta, true)), Publish)
  }

  predicate EmptyAt(f: Files, k: nat) {
    k in f.deltas && f.deltas[k].changes == []
  }

  lemma NothingCollected()
    ensures Collected(map[]) == []
  {
    SortedListCollectedBack([]);
  }

  /** A commit that nothing interrupts. */
  lemma OneCommitStores(s: System, meta: Meta)
    requires Shape(s) && s.pending.None?
    ensures var s', head := OneCommit(s, meta), s.store.files.head;
            && Shape(s') && Idle(s') && s'.store.work.tree == s.store.work.tree && s'.store.files.head == head + 1
            && s'.history == s.history + [s.store.work.tree]
            && head + 1 in s'.store.files.deltas
            && s'.store.files.deltas[head + 1].changes == Collected(s.store.work.rows)
            && s'.store.files.deltas[head + 1].totalEntries == |s.store.work.tree|
  {
    StepKeepsShape(s, Gather(meta, true));
    StepKeepsShape(Next(s, Gather(meta, true)), Publish);
  }

  ghost function CommitTimes(s: System, meta: Meta, n: nat): System
    decreases n
  {
    if n == 0 then s else CommitTimes(OneCommit(s, meta), meta, n - 1)
  }

  lemma RunGathersAndPublishes(s: System, meta: Meta, rest: seq<Step>)
    ensures Run(s, [Gather(meta, true)] + ([Publish] + rest)) == Run(OneCommit(s, meta), rest)
  {
    var steps := [Gather(meta, true)] + ([Publish] + rest);
    assert steps[1..] == [Publish] + rest && steps[1..][1..] == rest;
  }

  lemma {:induction false} RunsAsCommits(s: System, meta: Meta, n: nat)
    ensures Run(s, CommitSteps(meta, n)) == CommitTimes(s, meta, n)
    decreases n
  {
    if n > 0 {
      RunsAsCommits(OneCommit(s, meta), meta, n - 1);
      RunGathersAndPublishes(s, meta, CommitSteps(meta, n - 1));
    }
  }

  /** What `n` commits with nothing staged lead to. */
  ghost predicate Idled(s: System, n: nat, s': System) {
    && s'.store.files.head == s.store.files.head + n && |s'.history| == |s.history| + n
    && EmptyAbove(s'.store.files, s.store.files.head)
    && (n > 0 ==> s'.history[|s.history| + n - 1] == s.store.work.tree)
  }

  predicate EmptyAbove(f: Files, r: nat) {
    forall k :: r < k <= f.head ==> EmptyAt(f, k)
  }

  lemma IdledNone(s: System)
    requires Shape(s)
    ensures Idled(s, 0, s)
  {
  }

  lemma OneCommitIdle(s: System, meta: Meta)
    requires Shape(s) && Idle(s)
    ensures Shape(OneCommit(s, meta)) && Idle(OneCommit(s, meta))
  {
    OneCommitStores(s, meta);
  }

  lemma IdledOneMore(s: System, s1: System, n: nat, s': System)
    requires n > 0 && s1.store.work.tree == s.store.work.tree
    requires s1.history == s.history + [s.store.work.tree]
    requires s1.store.files.head == s.store.files.head + 1 && EmptyAt(s1.store.files, s1.store.files.head)
    requires Idled(s1, n - 1, s') && Extends(s1, s', s1.store.files.head)
    ensures Idled(s, n, s')
  {
    EmptyAboveStep(s'.store.files, s.store.files.head);
    LastInHistory(s.history, s1.history, s'.history, s.store.work.tree, n);
  }

  lemma LastInHistory(h: seq<Tree>, h1: seq<Tree>, h': seq<Tree>, t: Tree, n: nat)
    requires n > 0 && h1 == h + [t] && h1 <= h' && |h'| == |h1| + (n - 1)
    requires n > 1 ==> h'[|h1| + n - 2] == t
    ensures h'[|h| + n - 1] == t
  {
  }

  lemma EmptyAboveStep(f: Files, r: nat)
    requires EmptyAt(f, r + 1) && EmptyAbove(f, r + 1)
    ensures EmptyAbove(f, r)
  {
  }

  lemma EmptyCommitsStep(s: System, meta: Meta, n: nat, s1: System, s': System)
    requires n > 0 && Shape(s) && Idle(s) && s1 == OneCommit(s, meta) && s' == CommitTimes(s1, meta, n - 1)
    requires Shape(s1) && Idled(s1, n - 1, s')
    ensures Idled(s, n, s')
  {
    NothingCollected();
    OneCommitStores(s, meta);
    RunsAsCommits(s1, meta, n - 1);
    RunsOnlyAppend(s1, CommitSteps(meta, n - 1), s1.store.files.head);
    IdledOneMore(s, s1, n, s');
  }

  lemma {:induction false} EmptyCommits(s: System, meta: Meta, n: nat, s': System)
    requires Shape(s) && Idle(s) && s' == CommitTimes(s, meta, n)
    ensures Shape(s') && Idled(s, n, s')
    decreases n
  {
    if n > 0 {
      OneCommitIdle(s, meta);
      EmptyCommits(OneCommit(s, meta), meta, n - 1, s');
      EmptyCommitsStep(s, meta, n, OneCommit(s, meta), s');
    } else {
      IdledNone(s);
    }
  }

  /** Only commits, in any order of their two steps. */
  predicate CommitsOnly(steps: seq<Step>) {
    forall i :: 0 <= i < |steps| ==> steps[i].Gather? || steps[i].Publish?
  }

  lemma {:induction false} CommitStepsOnly(meta: Meta, n: nat)
    ensures CommitsOnly(CommitSteps(meta, n))
  {
    if n > 0 { CommitStepsOnly(meta, n - 1); }
  }

  lemma {:induction false} CommitsAreDisciplined(s: System, steps: seq<Step>)
    requires Shape(s) && CommitsOnly(steps)
    ensures AlwaysDisciplined(s, steps)
    decreases |steps|
  {
    if steps != [] {
      StepKeepsShape(s, steps[0]);
      CommitsAreDisciplined(Next(s, steps[0]), steps[1..]);
    }
  }

  lemma DisciplinedThen(s: System, a: Step, rest: seq<Step>)
    requires Shape(s) && Disciplined(s, a) && AlwaysDisciplined(Next(s, a), rest)
    ensures AlwaysDisciplined(s, [a] + rest)
  {
    assert ([a] + rest)[1..] == rest;
  }

  /** `doc` is removed, then `Doc/f` is added: in path order the removal comes last. */
  function Edited(timestamp: int): System {
    var s := Initial(timestamp);
    s.(store := FileAdded(PathDeleted(s.store, "doc"), "Doc/f", [7], false))
  }

  const SWAPPED: seq<TreeChange> := [Upsert("Doc/f", FileEntry([7], false)), Delete("doc")]

  lemma SwappedRows()
    ensures RowsOf(SWAPPED) == map["doc" := Deleted, "Doc/f" := Upserted(FileEntry([7], false))]
  {
    RowsOfTwo(SWAPPED[0], SWAPPED[1]);
  }

  lemma RowsOfTwo(a: TreeChange, b: TreeChange)
    requires a.path != b.path
    ensures RowsOf([a, b]) == map[b.path := RowOf(b), a.path := RowOf(a)]
  {
    RowsOfAppend([], a);
    RowsOfAppend([a], b);
    assert [] + [a] == [a] && [a] + [b] == [a, b];
  }

  lemma SwappedIsCollected()
    ensures PathSorted(SWAPPED)
    ensures Collected(map["doc" := Deleted, "Doc/f" := Upserted(FileEntry([7], false))]) == SWAPPED
  {
    assert "Doc/f"[0] < "doc"[0];
    SwappedRows();
    SortedListCollectedBack(SWAPPED);
  }

  lemma LikeTakesTheFile()
    ensures LikeReplayed(map[], SWAPPED) == map[]
  {
    LikeOvermatches();
    assert SWAPPED[..1] == [SWAPPED[0]] && SWAPPED[..1][..0] == [];
    assert LikeReplayed(map[], SWAPPED[..1]) == map["Doc/f" := FileEntry([7], false)];
  }

  lemma {:induction false} WorkedStaysEmpty(f: Files, k: nat)
    requires 0 < k && 1 in f.deltas && f.deltas[1].changes == SWAPPED
    requires forall j :: 1 < j <= k ==> EmptyAt(f, j)
    ensures Worked(f, k) == map[]
  {
    if k == 1 {
      LikeTakesTheFile();
      assert Worked(f, 0) == map[];
    } else {
      WorkedStaysEmpty(f, k - 1);
      assert EmptyAt(f, k);
    }
  }

  lemma EditedShape(timestamp: int)
    ensures Shape(Edited(timestamp)) && Edited(timestamp).pending == None
    ensures Edited(timestamp).store.work.tree == map["Doc/f" := FileEntry([7], false)]
    ensures Edited(timestamp).store.work.rows == map["doc" := Deleted, "Doc/f" := Upserted(FileEntry([7], false))]
  {
    InitialGood(timestamp);
    StepKeepsShape(Initial(timestamp), DeleteFile("doc"));
    StepKeepsShape(Next(Initial(timestamp), DeleteFile("doc")), AddFile("Doc/f", [7], false));
  }

  /** The first commit stores the swapped list. */
  lemma EditedCommitted(timestamp: int, meta: Meta)
    ensures var s := OneCommit(Edited(timestamp), meta);
            && Shape(s) && Idle(s) && s.store.files.head == 1 && |s.history| == 2
            && s.store.work.tree == map["Doc/f" := FileEntry([7], false)]
            && 1 in s.store.files.deltas && s.store.files.deltas[1].changes == SWAPPED
  {
    EditedShape(timestamp);
    SwappedIsCollected();
    FirstCommit(Edited(timestamp), meta);
  }

  lemma FirstCommit(s: System, meta: Meta)
    requires Shape(s) && s.pending.None? && s.store.files.head == 0
    ensures var s' := OneCommit(s, meta);
            && Shape(s') && Idle(s') && s'.store.files.head == 1 && |s'.history| == 2
            && s'.store.work.tree == s.store.work.tree && 1 in s'.store.files.deltas
            && s'.store.files.deltas[1].changes == Collected(s.store.work.rows)
            && s'.store.files.deltas[1].totalEntries == |s.store.work.tree|
  {
    OneCommitStores(s, meta);
  }

  /** Already the first revision's count differs: the destination's table is empty. */
  lemma CountCanDiffer(timestamp: int, meta: Meta, since: int, src: Store, dst: Store)
    requires src == OneCommit(Edited(timestamp), meta).store && FilesOk(src.files) && src.files.head == 1
    requires dst == Synced(src, Fresh(since), 1, 1, true)
    ensures 1 in src.files.deltas && src.files.deltas[1].totalEntries == 1
    ensures 1 in dst.files.deltas && dst.files.deltas[1].totalEntries == 0
  {
    EditedCommitted(timestamp, meta);
    EditedCount(timestamp, meta);
    WorkedStaysEmpty(src.files, 1);
    FreshReplica(src.files, since, true);
    SyncReplicates(src, Fresh(since), 1, 1, true);
    FirstCopyCounts(src.files, dst, true);
  }

  lemma EditedCount(timestamp: int, meta: Meta)
    ensures var f := OneCommit(Edited(timestamp), meta).store.files;
            f.head == 1 && 1 in f.deltas && f.deltas[1].totalEntries == 1
  {
    EditedShape(timestamp);
    FirstCommit(Edited(timestamp), meta);
    OneEntry("Doc/f", FileEntry([7], false));
  }

  lemma OneEntry(p: Path, e: TreeEntry)
    ensures |map[p := e]| == 1
  {
  }

  lemma FirstCopyCounts(src: Files, dst: Store, allowEmpty: bool)
    requires Replica(src, 1, dst, allowEmpty) && !SkippedAt(src, 1, allowEmpty)
    ensures 1 in dst.files.deltas && dst.files.deltas[1].totalEntries == |Worked(src, 1)|
  {
    assert AppliedUpTo(src, 0, allowEmpty) == 0;
    assert CountCopy(src, 1, dst.files, allowEmpty);
  }

  /** The destination's table is empty and its head tree is not: reopening fills the table. */
  lemma ReopeningChanges(timestamp: int, meta: Meta, since: int, src: Store, half: Store)
    requires src == OneCommit(Edited(timestamp), meta).store && FilesOk(src.files) && src.files.head == 1
    requires half == Synced(src, Fresh(since), 1, 1, true)
    ensures half.work.tree == map[] && Reopened(half).work.tree == map["Doc/f" := FileEntry([7], false)]
  {
    EditedCommitted(timestamp, meta);
    WorkedStaysEmpty(src.files, 1);
    FreshReplica(src.files, since, true);
    SyncReplicates(src, Fresh(since), 1, 1, true);
    AllowEmptyKeepsNumbers(src.files, 1);
    ReplicaShows(src.files, 1, half, true, 1);
    FirstShadow(src.files);
  }

  lemma FirstShadow(f: Files)
    requires 1 in f.deltas && f.deltas[1].changes == SWAPPED
    ensures Shadow(f, 1, true) == map["Doc/f" := FileEntry([7], false)]
  {
    SwappedReplays();
    AllowEmptyKeepsNumbers(f, 1);
    assert Shadow(f, 0, true) == map[];
  }

  lemma SwappedReplays()
    ensures ReplayAll(map[], SWAPPED) == map["Doc/f" := FileEntry([7], false)]
  {
    assert SWAPPED[..1] == [SWAPPED[0]] && SWAPPED[..1][..0] == [];
    assert ReplayAll(map[], SWAPPED[..1]) == map["Doc/f" := FileEntry([7], false)];
    assert "doc"[0] != "Doc/f"[0];
  }

  /** And so the next revision, an empty one, is committed from another table than in one sync. */
  lemma ReopeningCanMatter(timestamp: int, meta: Meta, since: int, earlier: Store, later: Store, half: Store)
    requires earlier == OneCommit(Edited(timestamp), meta).store && FilesOk(earlier.files) && earlier.files.head == 1
    requires later == OneCommit(OneCommit(Edited(timestamp), meta), meta).store && FilesOk(later.files)
    requires later.files.head == 2 && half == Synced(earlier, Reopened(Fresh(since)), 1, 1, true)
    ensures Synced(later, Reopened(half), 2, 2, true) != Synced(later, Fresh(since), 1, 2, true)
  {
    var s := OneCommit(Edited(timestamp), meta);
    EditedCommitted(timestamp, meta);
    OneCommitStores(s, meta);
    NothingCollected();
    CommitGrows(s, meta);
    ReopeningChanges(timestamp, meta, since, earlier, half);
    ReopenedSyncIff(earlier, later, half, since, 2, true);
    EmptyRevisionMeetsNothing(later.files, half.work.tree, Reopened(half).work.tree);
  }

  lemma CommitGrows(s: System, meta: Meta)
    requires Shape(s)
    ensures Grown(s.store, OneCommit(s, meta).store)
  {
    StepKeepsShape(s, Gather(meta, true));
    StepGrows(s, Gather(meta, true));
    StepGrows(Next(s, Gather(meta, true)), Publish);
    GrownTransitive(s.store, Next(s, Gather(meta, true)).store, OneCommit(s, meta).store);
  }

  lemma EmptyRevisionMeetsNothing(f: Files, a: Tree, b: Tree)
    requires EmptyAt(f, 2) && a != b
    ensures !MeetInRange(f, 2, 2, a, b, true)
  {
  }

  function Story(meta: Meta): seq<Step> {
    [DeleteFile("doc")] + ([AddFile("Doc/f", [7], false)] + CommitSteps(meta, 1000))
  }

  lemma StoryRuns(timestamp: int, meta: Meta)
    ensures Run(Initial(timestamp), Story(meta)) == Run(OneCommit(Edited(timestamp), meta), CommitSteps(meta, 999))
  {
    var s, steps := Initial(timestamp), Story(meta);
    var more := [AddFile("Doc/f", [7], false)] + CommitSteps(meta, 1000);
    assert steps[1..] == more && more[1..] == CommitSteps(meta, 1000);
    assert Next(Next(s, DeleteFile("doc")), AddFile("Doc/f", [7], false)) == Edited(timestamp);
    RunGathersAndPublishes(Edited(timestamp), meta, CommitSteps(meta, 999));
  }

  lemma StoryIsDisciplined(timestamp: int, meta: Meta)
    ensures AlwaysDisciplined(Initial(timestamp), Story(meta))
  {
    var s, more := Initial(timestamp), CommitSteps(meta, 1000);
    var s1 := Next(s, DeleteFile("doc"));
    InitialGood(timestamp);
    StepKeepsShape(s, DeleteFile("doc"));
    EditedShape(timestamp);
    CommitStepsOnly(meta, 1000);
    CommitsAreDisciplined(Edited(timestamp), CommitSteps(meta, 1000));
    assert Disciplined(s, DeleteFile("doc")) && Disciplined(s1, AddFile("Doc/f", [7], false));
    DisciplinedThen(s1, AddFile("Doc/f", [7], false), more);
    DisciplinedThen(s, DeleteFile("doc"), [AddFile("Doc/f", [7], false)] + more);
  }

  /** What the story leaves at the source. */
  lemma StoryTold(timestamp: int, meta: Meta, src: System)
    requires src == Run(Initial(timestamp), Story(meta))
    ensures Shape(src) && src.store.files.head == 1000 && |src.history| == 1001
    ensures src.history[1000] == map["Doc/f" := FileEntry([7], false)] && Worked(src.store.files, 1000) == map[]
  {
    var s := OneCommit(Edited(timestamp), meta);
    StoryRuns(timestamp, meta);
    EditedCommitted(timestamp, meta);
    EmptyCommits(s, meta, 999, CommitTimes(s, meta, 999));
    RunsAsCommits(s, meta, 999);
    RunsOnlyAppend(s, CommitSteps(meta, 999), 1);
    WorkedStaysEmpty(src.store.files, 1000);
  }

  /**
   * The condition can fail for a disciplined source: at the destination's first
   * snapshot the file that the source holds is gone.
   */
  lemma SnapshotCanDiffer(timestamp: int, meta: Meta, since: int, src: System, dst: Store)
    requires src == Run(Initial(timestamp), Story(meta)) && FilesOk(src.store.files) && src.store.files.head == 1000
    requires dst == Synced(src.store, Fresh(since), 1, 1000, true)
    ensures AlwaysDisciplined(Initial(timestamp), Story(meta))
    ensures Recorded(src.store.files, 1000) == map["Doc/f" := FileEntry([7], false)]
    ensures Recorded(dst.files, 1000) == map[]
  {
    StoryIsDisciplined(timestamp, meta);
    StoryTold(timestamp, meta, src);
    DisciplinedIsInStep(timestamp, Story(meta));
    RunsRefineHistory(timestamp, Story(meta), 1000);
    FreshReplica(src.store.files, since, true);
    SyncReplicates(src.store, Fresh(since), 1, 1000, true);
    AllowEmptyKeepsNumbers(src.store.files, 1000);
    SnapshotShows(src.store.files, 1000, dst, true, 1000);
  }
}
