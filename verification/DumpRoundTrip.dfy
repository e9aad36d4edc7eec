// A whole dump loaded into a fresh store: it acts like replication from the store
// that holds only what survives, so the results about replication carry over.
module DumpRoundTrip {
  import opened Paths
  import opened ObjectModel
  import opened Replay
  import opened Staging
  import opened Store
  import opened Replication
  import opened Mirrors
  import opened DumpFormat
  import opened DumpLoad

  /** The changes of revision `r` that survive. */
  function Left(tool: Tool, f: Files, r: nat): seq<TreeChange> {
    if 0 < r && r in f.deltas then Survivors(tool, r, Recorded(f, r - 1), f.deltas[r].changes) else []
  }

  function LeftTree(tool: Tool, f: Files, r: nat): Tree {
    if r == 0 then map[] else ReplayAll(LeftTree(tool, f, r - 1), Left(tool, f, r))
  }

  function LeftDelta(tool: Tool, f: Files, r: nat): DeltaTree {
    DeltaTree(if r > 0 then r - 1 else 0, Left(tool, f, r), 0)
  }

  function LeftCommit(f: Files, r: nat, metas: nat -> Meta): Commit {
    Commit(TreeId(map[]), if r == 0 then [] else [CommitId(LeftCommit(f, r - 1, metas))], metas(r))
  }

  /** A store whose revisions are what survives of `s`, under the metadata that was read. */
  function LeftStore(tool: Tool, s: Store, metas: nat -> Meta): Store {
    Store(Tables(map[], map[]), s.objects, Files(
      map r | r in s.files.deltas :: LeftCommit(s.files, r, metas),
      map r | r in s.files.deltas :: LeftDelta(tool, s.files, r),
      map r | r in s.files.snapshots :: LeftTree(tool, s.files, r),
      s.files.head))
  }

  lemma LeftOk(tool: Tool, s: Store, r: nat)
    requires Sound(s)
    ensures PathSorted(Left(tool, s.files, r)) && ChangesOk(s.objects, Left(tool, s.files, r))
  {
    if 0 < r && r in s.files.deltas {
      assert Linked(s.files, r);
      var cs := s.files.deltas[r].changes;
      var left := Left(tool, s.files, r);
      SurvivorsSorted(tool, r, Recorded(s.files, r - 1), cs);
      assert ChangesOk(s.objects, cs);
      forall k | 0 <= k < |left|
        ensures Trimmed(left[k].path) && (left[k].Upsert? ==> Backed(s.objects, left[k].entry))
      {
        assert left[k] in left;
        var i :| 0 <= i < |cs| && left[k] == Plain(cs[i]);
      }
    }
  }

  lemma {:induction false} LeftTreeOk(tool: Tool, s: Store, r: nat)
    requires Sound(s)
    ensures TreeOk(s.objects, LeftTree(tool, s.files, r))
  {
    if r > 0 {
      LeftTreeOk(tool, s, r - 1);
      LeftOk(tool, s, r);
      ReplayKeepsOk(s.objects, LeftTree(tool, s.files, r - 1), Left(tool, s.files, r));
    }
  }

  lemma LinkedIs(f: Files, r: nat, before: Commit, cs: seq<TreeChange>)
    requires 0 < r && r - 1 in f.commits && r in f.commits && r in f.deltas
    requires f.commits[r - 1] == before && f.commits[r].parents == [CommitId(before)]
    requires f.deltas[r].parentRev == r - 1 && f.deltas[r].changes == cs && PathSorted(cs)
    ensures Linked(f, r)
  {
  }

  lemma LeftStoreAt(tool: Tool, s: Store, metas: nat -> Meta, r: nat)
    requires r in s.files.deltas
    ensures var f := LeftStore(tool, s, metas).files;
            && r in f.commits && f.commits[r] == LeftCommit(s.files, r, metas)
            && r in f.deltas && f.deltas[r] == LeftDelta(tool, s.files, r)
  {
  }

  lemma LeftCommitNamesParent(f: Files, r: nat, metas: nat -> Meta)
    requires 0 < r
    ensures LeftCommit(f, r, metas).parents == [CommitId(LeftCommit(f, r - 1, metas))]
  {
  }

  lemma LeftLinked(tool: Tool, s: Store, f: Files, metas: nat -> Meta, r: nat)
    requires 0 < r && r - 1 in f.commits && r in f.commits && r in f.deltas && PathSorted(Left(tool, s.files, r))
    requires f.commits[r - 1] == LeftCommit(s.files, r - 1, metas) && f.commits[r] == LeftCommit(s.files, r, metas)
    requires f.deltas[r] == LeftDelta(tool, s.files, r)
    ensures Linked(f, r)
  {
    LeftCommitNamesParent(s.files, r, metas);
    LinkedIs(f, r, LeftCommit(s.files, r - 1, metas), Left(tool, s.files, r));
  }

  lemma LeftLinkedAt(tool: Tool, s: Store, metas: nat -> Meta, r: nat)
    requires Sound(s) && 0 < r && r - 1 in s.files.deltas && r in s.files.deltas
    ensures Linked(LeftStore(tool, s, metas).files, r)
  {
    LeftOk(tool, s, r);
    LeftStoreAt(tool, s, metas, r);
    LeftStoreAt(tool, s, metas, r - 1);
    LeftLinked(tool, s, LeftStore(tool, s, metas).files, metas, r);
  }

  lemma LeftBacked(tool: Tool, s: Store, f: Files, metas: nat -> Meta)
    requires Sound(s) && f == LeftStore(tool, s, metas).files
    ensures FilesBacked(s.objects, f)
  {
    forall r: nat | r in f.deltas ensures ChangesOk(s.objects, f.deltas[r].changes) { LeftOk(tool, s, r); }
    forall r: nat | r in f.snapshots ensures TreeOk(s.objects, f.snapshots[r]) { LeftTreeOk(tool, s, r); }
  }

  lemma LeftStoreSound(tool: Tool, s: Store, metas: nat -> Meta)
    requires Sound(s)
    ensures Sound(LeftStore(tool, s, metas))
  {
    var left := LeftStore(tool, s, metas);
    forall r: nat | 0 < r <= left.files.head ensures Linked(left.files, r) { LeftLinkedAt(tool, s, metas, r); }
    LeftBacked(tool, s, left.files, metas);
  }

  /** What revision `k` must be in a store of survivors. */
  predicate LeftAt(tool: Tool, src: Files, f: Files, k: nat) {
    && k in f.deltas && f.deltas[k].changes == Left(tool, src, k)
    && (k in f.snapshots ==> f.snapshots[k] == LeftTree(tool, src, k))
  }

  ghost predicate HoldsLeft(tool: Tool, src: Files, f: Files) {
    f.head == src.head && forall k: nat :: k <= src.head ==> LeftAt(tool, src, f, k)
  }

  lemma LeftStoreHolds(tool: Tool, s: Store, metas: nat -> Meta)
    requires Sound(s)
    ensures HoldsLeft(tool, s.files, LeftStore(tool, s, metas).files)
  {
  }

  lemma LeftRecordedStep(tool: Tool, src: Files, f: Files, r: nat)
    requires 0 < r && LeftAt(tool, src, f, r) && Recorded(f, r - 1) == LeftTree(tool, src, r - 1)
    ensures Recorded(f, r) == LeftTree(tool, src, r) && ReplayLinked(f, r)
  {
    LinkedFrom(f, r, LeftTree(tool, src, r - 1), Left(tool, src, r), LeftTree(tool, src, r));
  }

  lemma LinkedFrom(f: Files, r: nat, before: Tree, cs: seq<TreeChange>, after: Tree)
    requires 0 < r && r in f.deltas && f.deltas[r].changes == cs && (r in f.snapshots ==> f.snapshots[r] == after)
    requires Recorded(f, r - 1) == before && after == ReplayAll(before, cs)
    ensures Recorded(f, r) == after && ReplayLinked(f, r)
  {
  }

  lemma {:induction false} LeftRecorded(tool: Tool, src: Files, f: Files, r: nat)
    requires HoldsLeft(tool, src, f) && r <= src.head
    ensures Recorded(f, r) == LeftTree(tool, src, r) && (r > 0 ==> ReplayLinked(f, r))
  {
    if r > 0 {
      LeftRecorded(tool, src, f, r - 1);
      assert LeftAt(tool, src, f, r);
      LeftRecordedStep(tool, src, f, r);
    }
  }

  lemma LeftChained(tool: Tool, src: Files, f: Files)
    requires HoldsLeft(tool, src, f)
    ensures Chained(f)
  {
    forall r: nat | 0 < r <= f.head ensures ReplayLinked(f, r) { LeftRecorded(tool, src, f, r); }
  }

  // ---------------------------------------------- loading acts like replication

  /** What loading sees: the tables and the files. */
  predicate SameButObjects(a: Store, b: Store) {
    a.work == b.work && a.files == b.files
  }

  /** The list holds every blob the changes need. */
  ghost predicate Supplies(list: ObjectList, cs: seq<TreeChange>) {
    forall i :: 0 <= i < |cs| && cs[i].Upsert? && cs[i].entry.kind.BlobKind? ==>
      cs[i].entry.id.BlobId? && FindObject(list, cs[i].entry.id) == Some(cs[i].entry.id.data)
  }

  predicate LostAt(tool: Tool, f: Files, r: nat, c: TreeChange) {
    r > 0 && Lost(tool, r, Recorded(f, r - 1), c.path, RowOf(c))
  }

  /** The record of a change of a chained store, with the data its entry names. */
  function KnownNode(tool: Tool, f: Files, r: nat, c: TreeChange): Node
    requires c.Upsert? && c.entry.kind.BlobKind? ==> c.entry.id.BlobId?
  {
    match c
    case Delete(path) => Deletion(path)
    case Upsert(path, e) =>
      var action := ActionFor(tool, f, r, path);
      if e.kind.TreeKind? then DirRecord(path, action) else FileRecord(path, action, e.id.data, e.mode == EXEC_MODE)
  }

  lemma NodeIsKnown(tool: Tool, s: Store, r: nat, i: nat)
    requires Honest(s) && 0 < r <= s.files.head && ReplayLinked(s.files, r) && i < |s.files.deltas[r].changes|
    ensures var c := s.files.deltas[r].changes[i];
            && (c.Upsert? ==> EntryOk(c.entry)) && NodeOf(tool, s, r, c) == Some(KnownNode(tool, s.files, r, c))
  {
    if s.files.deltas[r].changes[i].Upsert? { OwnFileReadable(s, r, i); }
  }

  lemma KnownNodeLoads(tool: Tool, loader: Tool, f: Files, r: nat, c: TreeChange, a: Store, b: Store, list: ObjectList)
    requires r > 0 && SameButObjects(a, b) && (c.Upsert? ==> EntryOk(c.entry))
    requires LostAt(tool, f, r, c) || Supplies(list, [Plain(c)])
    ensures var n := KnownNode(tool, f, r, c);
            && (Stages(loader, n) <==> !LostAt(tool, f, r, c))
            && SameButObjects(LoadedNode(loader, a, n),
                              if LostAt(tool, f, r, c) then b else StageChange(b, Plain(c), list))
  {
    assert [Plain(c)][0] == Plain(c);
  }

  lemma LoadedNodesAppend(loader: Tool, s: Store, ns: seq<Node>, n: Node)
    ensures LoadedNodes(loader, s, ns + [n]) == LoadedNode(loader, LoadedNodes(loader, s, ns), n)
    ensures AnyStages(loader, ns + [n]) <==> AnyStages(loader, ns) || Stages(loader, n)
  {
    assert (ns + [n])[..|ns|] == ns;
  }

  lemma StageAllAppend(s: Store, cs: seq<TreeChange>, c: TreeChange, list: ObjectList)
    ensures StageAll(s, cs + [c], list) == StageChange(StageAll(s, cs, list), c, list)
  {
    assert (cs + [c])[..|cs|] == cs;
  }

  /** Loading the nodes of a revision stages the changes that survive. */
  ghost predicate LoadsLike(
    tool: Tool, loader: Tool, s: Store, r: nat, cs: seq<TreeChange>, a: Store, b: Store, list: ObjectList)
  {
    r > 0 &&
    var nodes, left := NodesOf(tool, s, r, cs), Survivors(tool, r, Recorded(s.files, r - 1), cs);
    && (AnyStages(loader, nodes) <==> left != [])
    && SameButObjects(LoadedNodes(loader, a, nodes), StageAll(b, left, list))
  }

  lemma {:induction false} NodesStageSurvivors(
    tool: Tool, loader: Tool, s: Store, r: nat, n: nat, a: Store, b: Store, list: ObjectList)
    requires Honest(s) && 0 < r <= s.files.head && ReplayLinked(s.files, r) && n <= |s.files.deltas[r].changes|
    requires SameButObjects(a, b) && SuppliesLeft(tool, s.files, r, s.files.deltas[r].changes[..n], list)
    ensures LoadsLike(tool, loader, s, r, s.files.deltas[r].changes[..n], a, b, list)
  {
    if n > 0 {
      var changes := s.files.deltas[r].changes;
      assert changes[..n] == changes[..n - 1] + [changes[n - 1]];
      SuppliesBefore(tool, s.files, r, changes[..n - 1], changes[n - 1], list);
      NodesStageSurvivors(tool, loader, s, r, n - 1, a, b, list);
      NodeStagesItsSurvivor(tool, loader, s, r, n - 1, a, b, list);
    }
  }

  /** The list supplies the files that survive of the changes. */
  ghost predicate SuppliesLeft(tool: Tool, f: Files, r: nat, cs: seq<TreeChange>, list: ObjectList) {
    r > 0 && Supplies(list, Survivors(tool, r, Recorded(f, r - 1), cs))
  }

  lemma SuppliesBefore(tool: Tool, f: Files, r: nat, cs: seq<TreeChange>, c: TreeChange, list: ObjectList)
    requires SuppliesLeft(tool, f, r, cs + [c], list)
    ensures SuppliesLeft(tool, f, r, cs, list) && (!LostAt(tool, f, r, c) ==> Supplies(list, [Plain(c)]))
  {
    SurvivorsAppend(tool, f, r, cs, c);
    if !LostAt(tool, f, r, c) { SuppliesSplit(list, Survivors(tool, r, Recorded(f, r - 1), cs), Plain(c)); }
  }

  /** One more node of a revision. */
  lemma NodeStagesItsSurvivor(
    tool: Tool, loader: Tool, s: Store, r: nat, n: nat, a: Store, b: Store, list: ObjectList)
    requires Honest(s) && 0 < r <= s.files.head && ReplayLinked(s.files, r) && n < |s.files.deltas[r].changes|
    requires LoadsLike(tool, loader, s, r, s.files.deltas[r].changes[..n], a, b, list)
    requires !LostAt(tool, s.files, r, s.files.deltas[r].changes[n]) ==>
               Supplies(list, [Plain(s.files.deltas[r].changes[n])])
    ensures LoadsLike(tool, loader, s, r, s.files.deltas[r].changes[..n] + [s.files.deltas[r].changes[n]], a, b, list)
  {
    var before, c := s.files.deltas[r].changes[..n], s.files.deltas[r].changes[n];
    NodeIsKnown(tool, s, r, n);
    KnownNodeLoads(tool, loader, s.files, r, c, LoadedNodes(loader, a, NodesOf(tool, s, r, before)),
      StageAll(b, Survivors(tool, r, Recorded(s.files, r - 1), before), list), list);
    LoadsLikeAppend(tool, loader, s, r, before, c, NodeOf(tool, s, r, c).value, a, b, list);
  }

  lemma SuppliesSplit(list: ObjectList, cs: seq<TreeChange>, c: TreeChange)
    requires Supplies(list, cs + [c])
    ensures Supplies(list, cs) && Supplies(list, [c])
  {
    assert (cs + [c])[|cs|] == c;
    forall i | 0 <= i < |cs| ensures (cs + [c])[i] == cs[i] {}
  }

  lemma NodesOfAppend(tool: Tool, s: Store, r: nat, cs: seq<TreeChange>, c: TreeChange, n: Node)
    requires NodeOf(tool, s, r, c) == Some(n)
    ensures NodesOf(tool, s, r, cs + [c]) == NodesOf(tool, s, r, cs) + [n]
  {
    assert (cs + [c])[..|cs|] == cs;
  }

  lemma SurvivorsAppend(tool: Tool, f: Files, r: nat, cs: seq<TreeChange>, c: TreeChange)
    requires r > 0
    ensures var before := Survivors(tool, r, Recorded(f, r - 1), cs);
            Survivors(tool, r, Recorded(f, r - 1), cs + [c])
            == if LostAt(tool, f, r, c) then before else before + [Plain(c)]
  {
    SurvivorsStep(tool, r, Recorded(f, r - 1), cs, c);
  }

  lemma LoadsLikeAppend(
    tool: Tool, loader: Tool, s: Store, r: nat, cs: seq<TreeChange>, c: TreeChange, n: Node, a: Store, b: Store,
    list: ObjectList)
    requires LoadsLike(tool, loader, s, r, cs, a, b, list) && NodeOf(tool, s, r, c) == Some(n)
    requires Stages(loader, n) <==> !LostAt(tool, s.files, r, c)
    requires var staged := StageAll(b, Survivors(tool, r, Recorded(s.files, r - 1), cs), list);
             SameButObjects(LoadedNode(loader, LoadedNodes(loader, a, NodesOf(tool, s, r, cs)), n),
                            if LostAt(tool, s.files, r, c) then staged else StageChange(staged, Plain(c), list))
    ensures LoadsLike(tool, loader, s, r, cs + [c], a, b, list)
  {
    NodesOfAppend(tool, s, r, cs, c, n);
    SurvivorsAppend(tool, s.files, r, cs, c);
    LoadedNodesAppend(loader, a, NodesOf(tool, s, r, cs), n);
    StageAllAppend(b, Survivors(tool, r, Recorded(s.files, r - 1), cs), Plain(c), list);
  }

  lemma {:induction false} LoadedNodesSound(loader: Tool, s: Store, ns: seq<Node>)
    requires Sound(s)
    ensures Sound(LoadedNodes(loader, s, ns)) && LoadedNodes(loader, s, ns).files == s.files
  {
    if ns != [] {
      LoadedNodesSound(loader, s, ns[..|ns| - 1]);
      var before, n := LoadedNodes(loader, s, ns[..|ns| - 1]), ns[|ns| - 1];
      FileAddedSound(before, n.path, n.content, false);
      DirAddedSound(before, n.path);
      PathDeletedSound(before, n.path);
    }
  }

  lemma ReplicaIgnoresObjects(src: Files, r: nat, a: Store, b: Store)
    requires Replica(src, r, a, false) && SameButObjects(a, b) && Sound(b)
    ensures Replica(src, r, b, false)
  {
  }

  /** The records of revisions 0..=last, with the metadata the reader gets. */
  function Records(tool: Tool, s: Store, metas: nat -> Meta, last: nat): seq<Revision>
    requires forall r: nat :: r <= last ==> r in s.files.commits
  {
    seq(last + 1, r requires 0 <= r <= last => RevisionOf(tool, s, r).(meta := metas(r)))
  }

  lemma RecordsAt(tool: Tool, s: Store, metas: nat -> Meta, last: nat, i: nat)
    requires i <= last && forall r: nat :: r <= last ==> r in s.files.commits
    ensures |Records(tool, s, metas, last)| == last + 1
    ensures Records(tool, s, metas, last)[i] == RevisionOf(tool, s, i).(meta := metas(i))
  {
  }

  lemma LeftStoreHonest(tool: Tool, s: Store, metas: nat -> Meta)
    requires Honest(s)
    ensures Honest(LeftStore(tool, s, metas))
  {
    LeftStoreSound(tool, s, metas);
  }

  lemma NodesStageExtract(tool: Tool, loader: Tool, s: Store, left: Store, r: nat, dst: Store, d: RevisionData)
    requires Honest(s) && 0 < r <= s.files.head && ReplayLinked(s.files, r) && Honest(left) && r <= left.files.head
    requires d == Extract(left, r) && d.delta.changes == Left(tool, s.files, r)
    ensures LoadsLike(tool, loader, s, r, s.files.deltas[r].changes, dst,
                      dst.(objects := ObjectsStored(dst.objects, d.objects)), d.objects)
  {
    var cs := s.files.deltas[r].changes;
    ExtractCarries(left, r);
    assert cs[..|cs|] == cs;
    NodesStageSurvivors(tool, loader, s, r, |cs|, dst, dst.(objects := ObjectsStored(dst.objects, d.objects)),
      d.objects);
  }

  /** Loading one record does to tables and files what applying what is left of the revision does. */
  lemma LoadActsLikeApply(tool: Tool, loader: Tool, s: Store, metas: nat -> Meta, r: nat, dst: Store)
    requires Honest(s) && 0 < r <= s.files.head && ReplayLinked(s.files, r) && Sound(dst) && dst.work.rows == map[]
    requires Honest(LeftStore(tool, s, metas))
    ensures SameButObjects(LoadedRevision(loader, dst, RevisionOf(tool, s, r).(meta := metas(r))),
                           Applied(dst, Extract(LeftStore(tool, s, metas), r), false))
  {
    var left := LeftStore(tool, s, metas);
    var d := Extract(left, r);
    NodesStageExtract(tool, loader, s, left, r, dst, d);
    CommitIgnoresObjects(LoadedNodes(loader, dst, NodesOf(tool, s, r, s.files.deltas[r].changes)),
      StagedFor(dst, d), metas(r));
  }

  lemma CommitIgnoresObjects(a: Store, b: Store, meta: Meta)
    requires SameButObjects(a, b)
    ensures SameButObjects(Committed(a, meta, false), Committed(b, meta, false))
  {
  }

  lemma LoadKeepsSound(loader: Tool, s: Store, r: Revision)
    requires Sound(s)
    ensures Sound(LoadedRevision(loader, s, r))
  {
    LoadedNodesSound(loader, s, r.nodes);
    CommittedSound(LoadedNodes(loader, s, r.nodes), r.meta, false);
  }

  lemma LoadReplicates(
    tool: Tool, loader: Tool, s: Store, metas: nat -> Meta, left: Store, r: nat, before: Store, after: Store)
    requires Honest(s) && Chained(s.files) && 0 < r <= s.files.head
    requires left == LeftStore(tool, s, metas) && Honest(left) && Replica(left.files, r - 1, before, false)
    requires after == LoadedRevision(loader, before, RevisionOf(tool, s, r).(meta := metas(r)))
    ensures Replica(left.files, r, after, false)
  {
    assert ReplayLinked(s.files, r);
    LoadActsLikeApply(tool, loader, s, metas, r, before);
    ApplyReplicates(left, r, before, false);
    LoadKeepsSound(loader, before, RevisionOf(tool, s, r).(meta := metas(r)));
    ReplicaIgnoresObjects(left.files, r, Applied(before, Extract(left, r), false), after);
  }

  /** The store after revisions 0..=last of the dump of `s` were loaded into a fresh one. */
  ghost function Reloaded(tool: Tool, loader: Tool, s: Store, metas: nat -> Meta, timestamp: int, last: nat): Store
    requires FilesOk(s.files) && last <= s.files.head
  {
    LoadedAll(loader, Fresh(timestamp), Records(tool, s, metas, last))
  }

  lemma ReloadedStep(tool: Tool, loader: Tool, s: Store, metas: nat -> Meta, timestamp: int, last: nat)
    requires FilesOk(s.files) && 0 < last <= s.files.head
    ensures Reloaded(tool, loader, s, metas, timestamp, last)
         == LoadedRevision(loader, Reloaded(tool, loader, s, metas, timestamp, last - 1),
                           RevisionOf(tool, s, last).(meta := metas(last)))
  {
    RecordsSplit(tool, s, metas, last);
    LoadedAllAppend(loader, Fresh(timestamp), Records(tool, s, metas, last - 1),
      RevisionOf(tool, s, last).(meta := metas(last)));
  }

  lemma RecordsSplit(tool: Tool, s: Store, metas: nat -> Meta, last: nat)
    requires FilesOk(s.files) && 0 < last <= s.files.head
    ensures Records(tool, s, metas, last)
         == Records(tool, s, metas, last - 1) + [RevisionOf(tool, s, last).(meta := metas(last))]
  {
    var all, before := Records(tool, s, metas, last), Records(tool, s, metas, last - 1);
    RecordsAt(tool, s, metas, last, last);
    forall i: nat | i < last ensures all[i] == before[i] {
      RecordsAt(tool, s, metas, last, i);
      RecordsAt(tool, s, metas, last - 1, i);
    }
    LastApart(all, before);
  }

  lemma LastApart(all: seq<Revision>, before: seq<Revision>)
    requires |all| == |before| + 1 && forall i :: 0 <= i < |before| ==> all[i] == before[i]
    ensures all == before + [all[|before|]]
  {
  }

  lemma LoadedAllAppend(loader: Tool, s: Store, rs: seq<Revision>, r: Revision)
    ensures LoadedAll(loader, s, rs + [r]) == LoadedRevision(loader, LoadedAll(loader, s, rs), r)
  {
    assert (rs + [r])[..|rs|] == rs;
  }

  lemma ReloadedStart(tool: Tool, loader: Tool, s: Store, metas: nat -> Meta, timestamp: int)
    requires FilesOk(s.files)
    ensures Reloaded(tool, loader, s, metas, timestamp, 0) == Fresh(timestamp)
  {
    var rs := Records(tool, s, metas, 0);
    assert rs[..|rs| - 1] == [];
    assert LoadedAll(loader, Fresh(timestamp), rs[..|rs| - 1]) == Fresh(timestamp) && rs[0].number == 0;
  }

  /** A loaded dump is a replica of what survives of the source. */
  lemma {:induction false} ReloadedIsReplica(
    tool: Tool, loader: Tool, s: Store, metas: nat -> Meta, left: Store, timestamp: int, last: nat, dst: Store)
    requires Honest(s) && Chained(s.files) && last <= s.files.head && left == LeftStore(tool, s, metas) && Honest(left)
    requires dst == Reloaded(tool, loader, s, metas, timestamp, last)
    ensures Replica(left.files, last, dst, false)
  {
    if last == 0 {
      ReloadedStart(tool, loader, s, metas, timestamp);
      FreshReplica(left.files, timestamp, false);
    } else {
      var before := Reloaded(tool, loader, s, metas, timestamp, last - 1);
      ReloadedIsReplica(tool, loader, s, metas, left, timestamp, last - 1, before);
      ReloadedStep(tool, loader, s, metas, timestamp, last);
      LoadReplicates(tool, loader, s, metas, left, last, before, dst);
    }
  }

  // --------------------------------------- when the source trees come back

  ghost predicate HarmlessAt(tool: Tool, f: Files, r: nat) {
    0 < r && r in f.deltas && HarmlessLosses(tool, r, Recorded(f, r - 1), RowsOf(f.deltas[r].changes))
  }

  ghost predicate HarmlessUpTo(tool: Tool, f: Files, last: nat) {
    forall r: nat :: 0 < r <= last ==> HarmlessAt(tool, f, r)
  }

  /** What survives up to `r` is the source's tree without executable bits. */
  predicate ComesBack(tool: Tool, f: Files, r: nat) {
    LeftTree(tool, f, r) == PlainTree(Recorded(f, r))
  }

  /** What a loaded dump shows for revision `r` is the source's tree without executable bits. */
  predicate ShowsSource(src: Files, left: Files, r: nat) {
    Shadow(left, r, false) == PlainTree(Recorded(src, r))
  }

  ghost predicate ShowsSourceUpTo(src: Files, left: Files, last: nat) {
    forall r: nat :: r <= last ==> ShowsSource(src, left, r)
  }

  lemma ComesBackStep(tool: Tool, f: Files, r: nat)
    requires 0 < r && ReplayLinked(f, r) && PathSorted(f.deltas[r].changes) && ComesBack(tool, f, r - 1)
    ensures ComesBack(tool, f, r) <==> HarmlessAt(tool, f, r)
  {
    SurvivorsReplayIff(tool, r, Recorded(f, r - 1), f.deltas[r].changes);
  }

  lemma WithinComesBack(tool: Tool, f: Files, r: nat)
    requires 0 < r && ReplayLinked(f, r) && PathSorted(f.deltas[r].changes) && ComesBack(tool, f, r - 1)
    requires Within(PlainTree(Recorded(f, r)), LeftTree(tool, f, r))
    ensures ComesBack(tool, f, r)
  {
    WithinIsEqual(tool, r, Recorded(f, r - 1), f.deltas[r].changes);
  }

  /** Between snapshots the loaded tree is what survives. */
  lemma DeltaShowsSource(tool: Tool, src: Files, left: Files, r: nat)
    requires 0 < r && LeftAt(tool, src, left, r) && !SnapshotAt(left, r, false)
    requires Shadow(left, r - 1, false) == LeftTree(tool, src, r - 1)
    ensures Shadow(left, r, false) == LeftTree(tool, src, r)
  {
  }

  lemma SnapshotShowsSource(tool: Tool, src: Files, left: Files, r: nat)
    requires 0 < r <= src.head && HoldsLeft(tool, src, left) && Chained(left) && SnapshotAt(left, r, false)
    requires ReplayLinked(src, r) && PathSorted(src.deltas[r].changes) && ComesBack(tool, src, r - 1)
    ensures ShowsSource(src, left, r) <==> ComesBack(tool, src, r) && SnapshotExact(left, r, false)
  {
    LeftRecorded(tool, src, left, r);
    WorkedWithin(left, r);
    if ShowsSource(src, left, r) { WithinComesBack(tool, src, r); }
  }

  /** The state of the induction: all revisions so far are shown, and why. */
  ghost predicate FineUpTo(tool: Tool, src: Files, left: Files, r: nat) {
    ShowsSourceUpTo(src, left, r) && ComesBack(tool, src, r) && Shadow(left, r, false) == LeftTree(tool, src, r)
  }

  lemma ShowsSourceStep(tool: Tool, src: Files, left: Files, r: nat)
    requires 0 < r <= src.head && HoldsLeft(tool, src, left) && Chained(left)
    requires ReplayLinked(src, r) && PathSorted(src.deltas[r].changes) && FineUpTo(tool, src, left, r - 1)
    ensures ShowsSource(src, left, r) <==> HarmlessAt(tool, src, r) && SnapshotExact(left, r, false)
    ensures ShowsSource(src, left, r) ==> FineUpTo(tool, src, left, r)
  {
    ComesBackStep(tool, src, r);
    assert LeftAt(tool, src, left, r);
    if SnapshotAt(left, r, false) {
      SnapshotShowsSource(tool, src, left, r);
    } else {
      DeltaShowsSource(tool, src, left, r);
    }
  }

  lemma UpToStep(tool: Tool, src: Files, left: Files, last: nat)
    requires last > 0
    ensures ShowsSourceUpTo(src, left, last) <==> ShowsSourceUpTo(src, left, last - 1) && ShowsSource(src, left, last)
    ensures HarmlessUpTo(tool, src, last) <==> HarmlessUpTo(tool, src, last - 1) && HarmlessAt(tool, src, last)
    ensures SnapshotsExact(left, last, false)
       <==> SnapshotsExact(left, last - 1, false) && SnapshotExact(left, last, false)
  {
  }

  /** Every revision replays a sorted list on the one before. */
  ghost predicate Ordered(f: Files) {
    forall r: nat :: 0 < r <= f.head ==> ReplaysSorted(f, r)
  }

  ghost predicate ReplaysSorted(f: Files, r: nat) {
    0 < r && ReplayLinked(f, r) && PathSorted(f.deltas[r].changes)
  }

  lemma ChainedIsOrdered(f: Files)
    requires FilesOk(f) && Chained(f)
    ensures Ordered(f)
  {
    forall r: nat | 0 < r <= f.head ensures ReplaysSorted(f, r) { assert ReplayLinked(f, r) && Linked(f, r); }
  }

  lemma NothingToShow(tool: Tool, src: Files, left: Files)
    ensures ShowsSourceUpTo(src, left, 0) && HarmlessUpTo(tool, src, 0) && SnapshotsExact(left, 0, false)
    ensures FineUpTo(tool, src, left, 0)
  {
    assert ShowsSource(src, left, 0);
  }

  lemma OneMoreToShow(tool: Tool, src: Files, left: Files, last: nat)
    requires Ordered(src) && 0 < last <= src.head && HoldsLeft(tool, src, left) && Chained(left)
    requires ShownIff(tool, src, left, last - 1)
    ensures ShownIff(tool, src, left, last)
  {
    UpToStep(tool, src, left, last);
    assert ReplaysSorted(src, last);
    if ShowsSourceUpTo(src, left, last - 1) { ShowsSourceStep(tool, src, left, last); }
  }

  ghost predicate ShownIff(tool: Tool, src: Files, left: Files, last: nat) {
    && (ShowsSourceUpTo(src, left, last) <==> HarmlessUpTo(tool, src, last) && SnapshotsExact(left, last, false))
    && (ShowsSourceUpTo(src, left, last) ==> FineUpTo(tool, src, left, last))
  }

  lemma {:induction false} ShowsSourceIff(tool: Tool, src: Files, left: Files, last: nat)
    requires Ordered(src) && last <= src.head && HoldsLeft(tool, src, left) && Chained(left)
    ensures ShownIff(tool, src, left, last)
  {
    if last > 0 {
      ShowsSourceIff(tool, src, left, last - 1);
      OneMoreToShow(tool, src, left, last);
    } else {
      NothingToShow(tool, src, left);
    }
  }

  /** The destination revision that shows source revision `r`: revisions with nothing left are not committed. */
  function LoadedAs(tool: Tool, f: Files, r: nat): nat {
    if r == 0 then 0 else LoadedAs(tool, f, r - 1) + (if Left(tool, f, r) == [] then 0 else 1)
  }

  lemma {:induction false} LoadedAsCounts(tool: Tool, src: Files, f: Files, r: nat)
    requires HoldsLeft(tool, src, f) && r <= src.head
    ensures AppliedUpTo(f, r, false) == LoadedAs(tool, src, r)
  {
    if r > 0 {
      LoadedAsCounts(tool, src, f, r - 1);
      assert LeftAt(tool, src, f, r);
    }
  }

  predicate Restored(tool: Tool, src: Files, dst: Files, r: nat) {
    Recorded(dst, LoadedAs(tool, src, r)) == PlainTree(Recorded(src, r))
  }

  ghost predicate AllRestored(tool: Tool, src: Files, dst: Files) {
    forall r: nat :: r <= src.head ==> Restored(tool, src, dst, r)
  }

  /** Every snapshot of the loaded store holds what survives of the source. */
  ghost predicate LoadedSnapshotsExact(tool: Tool, s: Store, metas: nat -> Meta) {
    SnapshotsExact(LeftStore(tool, s, metas).files, s.files.head, false)
  }

  lemma RestoredIff(tool: Tool, s: Store, left: Files, dst: Store)
    requires Sound(s) && HoldsLeft(tool, s.files, left) && Replica(left, s.files.head, dst, false)
    ensures AllRestored(tool, s.files, dst.files) <==> ShowsSourceUpTo(s.files, left, s.files.head)
  {
    forall r: nat | r <= s.files.head ensures Restored(tool, s.files, dst.files, r) <==> ShowsSource(s.files, left, r) {
      LoadedAsCounts(tool, s.files, left, r);
      ReplicaShows(left, s.files.head, dst, false, r);
    }
  }

  /**
   * Dumping a store and loading the dump into a fresh one brings back every tree, up to
   * executable bits, if and only if every change the reader passes over changed nothing
   * and the loaded store's snapshots are exact.
   */
  lemma DumpThenLoadIff(tool: Tool, loader: Tool, s: Store, metas: nat -> Meta, timestamp: int)
    requires Honest(s) && Chained(s.files)
    ensures AllRestored(tool, s.files, Reloaded(tool, loader, s, metas, timestamp, s.files.head).files)
       <==> HarmlessUpTo(tool, s.files, s.files.head) && LoadedSnapshotsExact(tool, s, metas)
  {
    var left, head := LeftStore(tool, s, metas), s.files.head;
    LeftStoreHonest(tool, s, metas);
    LeftStoreHolds(tool, s, metas);
    LeftChained(tool, s.files, left.files);
    ReloadedIsReplica(tool, loader, s, metas, left, timestamp, head,
      Reloaded(tool, loader, s, metas, timestamp, head));
    RestoredIff(tool, s, left.files, Reloaded(tool, loader, s, metas, timestamp, head));
    ChainedIsOrdered(s.files);
    ShowsSourceIff(tool, s.files, left.files, head);
  }

  /** With fewer than 1000 revisions to commit there is no condition on the snapshots. */
  lemma ShortDumpNoCondition(tool: Tool, s: Store, metas: nat -> Meta)
    requires Sound(s) && LoadedAs(tool, s.files, s.files.head) < 1000
    ensures LoadedSnapshotsExact(tool, s, metas)
  {
    LeftStoreHolds(tool, s, metas);
    LoadedAsCounts(tool, s.files, LeftStore(tool, s, metas).files, s.files.head);
    NoSnapshotNoCondition(LeftStore(tool, s, metas).files, s.files.head, false);
  }

  // ------------------------------------------------------------- dsvn-admin

  /** dsvn-admin loses nothing: every upsert is printed as an addition. */
  lemma AdminLosesNothing(f: Files, last: nat)
    requires FilesOk(f) && last <= f.head
    ensures HarmlessUpTo(Admin, f, last)
  {
  }

  lemma {:induction false} AdminKeepsCount(base: Tree, r: nat, cs: seq<TreeChange>)
    ensures |Survivors(Admin, r, base, cs)| == |cs|
  {
    if cs != [] { AdminKeepsCount(base, r, cs[..|cs| - 1]); }
  }

  /** Its revisions are the non-empty ones, renumbered. */
  lemma {:induction false} AdminCounts(s: Store, r: nat)
    requires Sound(s) && r <= s.files.head
    ensures LoadedAs(Admin, s.files, r) == AppliedUpTo(s.files, r, false)
    ensures r > 0 ==> (Left(Admin, s.files, r) == [] <==> SkippedAt(s.files, r, false))
  {
    if r > 0 {
      AdminCounts(s, r - 1);
      AdminKeepsCount(Recorded(s.files, r - 1), r, s.files.deltas[r].changes);
    }
  }

  lemma PlainLikeApplies(t: Tree, c: TreeChange)
    ensures LikeApplied(PlainTree(t), Plain(c)) == PlainTree(LikeApplied(t, c))
  {
  }

  lemma AppendLikeReplays(base: Tree, cs: seq<TreeChange>, c: TreeChange)
    ensures LikeReplayed(base, cs + [c]) == LikeApplied(LikeReplayed(base, cs), c)
  {
    assert (cs + [c])[..|cs|] == cs;
  }

  lemma {:induction false} AdminLikeReplays(t: Tree, base: Tree, r: nat, cs: seq<TreeChange>)
    ensures LikeReplayed(PlainTree(t), Survivors(Admin, r, base, cs)) == PlainTree(LikeReplayed(t, cs))
  {
    if cs != [] {
      var n := |cs| - 1;
      AdminLikeReplays(t, base, r, cs[..n]);
      PlainLikeApplies(LikeReplayed(t, cs[..n]), cs[n]);
      AppendLikeReplays(PlainTree(t), Survivors(Admin, r, base, cs[..n]), Plain(cs[n]));
    }
  }

  lemma {:induction false} AdminWorked(src: Files, left: Files, r: nat)
    requires HoldsLeft(Admin, src, left) && r <= src.head && forall k: nat :: k <= src.head ==> k in src.deltas
    ensures Worked(left, r) == PlainTree(Worked(src, r))
  {
    if r > 0 {
      AdminWorked(src, left, r - 1);
      assert LeftAt(Admin, src, left, r);
      AdminLikeReplays(Worked(src, r - 1), Recorded(src, r - 1), r, src.deltas[r].changes);
    }
  }

  lemma PlainWithinEqual(a: Tree, b: Tree)
    requires Within(a, b)
    ensures PlainTree(a) == PlainTree(b) <==> a == b
  {
    if PlainTree(a) == PlainTree(b) {
      forall q ensures Look(a, q) == Look(b, q) { assert Look(PlainTree(a), q) == Look(PlainTree(b), q); }
      SameTreeIsEqual(a, b);
    }
  }

  lemma AdminSnapshotExactIff(s: Store, left: Files, k: nat)
    requires Sound(s) && Chained(s.files) && HoldsLeft(Admin, s.files, left) && k <= s.files.head
    requires ComesBack(Admin, s.files, k)
    ensures SnapshotExact(left, k, false) <==> SnapshotExact(s.files, k, false)
  {
    LoadedAsCounts(Admin, s.files, left, k);
    AdminCounts(s, k);
    assert LeftAt(Admin, s.files, left, k);
    LeftRecorded(Admin, s.files, left, k);
    AdminWorked(s.files, left, k);
    WorkedWithin(s.files, k);
    PlainWithinEqual(Worked(s.files, k), Recorded(s.files, k));
  }

  lemma AdminIsHarmless(f: Files, r: nat)
    requires ReplaysSorted(f, r)
    ensures HarmlessAt(Admin, f, r)
  {
  }

  lemma AdminComesBackStep(f: Files, r: nat)
    requires ReplaysSorted(f, r) && ComesBack(Admin, f, r - 1)
    ensures ComesBack(Admin, f, r)
  {
    AdminIsHarmless(f, r);
    ComesBackStep(Admin, f, r);
  }

  lemma {:induction false} AdminComesBack(f: Files, r: nat)
    requires Ordered(f) && r <= f.head
    ensures ComesBack(Admin, f, r)
  {
    if r > 0 {
      AdminComesBack(f, r - 1);
      assert ReplaysSorted(f, r);
      AdminComesBackStep(f, r);
    }
  }

  /**
   * A dump written by dsvn-admin brings back every tree, up to executable bits, exactly
   * when a sync that skips empty revisions mirrors the source (see SyncMirrorsIff); so
   * always below 1000 non-empty revisions.
   */
  lemma AdminDumpThenLoadIff(loader: Tool, s: Store, metas: nat -> Meta, timestamp: int)
    requires Honest(s) && Chained(s.files)
    ensures AllRestored(Admin, s.files, Reloaded(Admin, loader, s, metas, timestamp, s.files.head).files)
       <==> SnapshotsExact(s.files, s.files.head, false)
  {
    var left, head := LeftStore(Admin, s, metas).files, s.files.head;
    DumpThenLoadIff(Admin, loader, s, metas, timestamp);
    AdminLosesNothing(s.files, head);
    LeftStoreHolds(Admin, s, metas);
    ChainedIsOrdered(s.files);
    forall k: nat | k <= head ensures SnapshotExact(left, k, false) <==> SnapshotExact(s.files, k, false) {
      AdminComesBack(s.files, k);
      AdminSnapshotExactIff(s, left, k);
    }
  }

  // --------------------------------------------------------- what gets lost

  /** A store in which a file was added and then emptied. */
  ghost function Emptied(timestamp: int, meta: Meta): Store {
    Committed(FileAdded(Filled(timestamp, meta), "f", [], false), meta, true)
  }

  ghost function Filled(timestamp: int, meta: Meta): Store {
    Committed(FileAdded(Fresh(timestamp), "f", [7], false), meta, true)
  }

  lemma OneUpsertCollected(e: TreeEntry)
    ensures Collected(map["f" := Upserted(e)]) == [Upsert("f", e)]
    ensures RowsOf([Upsert("f", e)]) == map["f" := Upserted(e)]
    ensures forall t :: ReplayAll(t, [Upsert("f", e)]) == t["f" := e]
  {
    var cs := [Upsert("f", e)];
    assert cs[..0] == [];
    SortedListCollectedBack(cs);
  }

  /** Nothing staged, and the files show the working table. */
  ghost predicate Settled(s: Store) {
    Honest(s) && Chained(s.files) && s.work.rows == map[] && s.work.tree == Recorded(s.files, s.files.head)
  }

  /** Revision `r` upserts the one file. */
  predicate UpsertsF(f: Files, r: nat, data: Bytes) {
    && 0 < r && r in f.deltas && f.deltas[r].changes == [Upsert("f", FileEntry(data, false))]
    && Recorded(f, r) == Recorded(f, r - 1)["f" := FileEntry(data, false)]
  }

  lemma CommitOfF(s: Store, meta: Meta, data: Bytes)
    requires Settled(s)
    ensures var s', head := Committed(FileAdded(s, "f", data, false), meta, true), s.files.head;
            && Settled(s') && s'.files.head == head + 1 && UpsertsF(s'.files, head + 1, data)
            && forall r: nat :: r <= head ==> Recorded(s'.files, r) == Recorded(s.files, r)
  {
    var st := FileAdded(s, "f", data, false);
    FileAddedSound(s, "f", data, false);
    OneUpsertCollected(FileEntry(data, false));
    CommittedSound(st, meta, true);
    PublishedChained(s.files, Gathered(st, meta, true));
  }

  lemma FilledStore(timestamp: int, meta: Meta)
    ensures var s := Filled(timestamp, meta);
            Settled(s) && s.files.head == 1 && Recorded(s.files, 1) == map["f" := FileEntry([7], false)]
  {
    FreshSound(timestamp);
    assert Settled(Fresh(timestamp));
    CommitOfF(Fresh(timestamp), meta, [7]);
    assert UpsertsF(Filled(timestamp, meta).files, 1, [7]);
  }

  lemma EmptiedStore(timestamp: int, meta: Meta)
    ensures EmptiedInTwo(Emptied(timestamp, meta))
  {
    FilledStore(timestamp, meta);
    CommitOfF(Filled(timestamp, meta), meta, []);
  }

  lemma EmptyingIsHarmful(f: Files)
    requires UpsertsF(f, 2, []) && Recorded(f, 1) == map["f" := FileEntry([7], false)]
    ensures !HarmlessAt(WebDav, f, 2)
  {
    OneUpsertCollected(FileEntry([], false));
    var base, rows := Recorded(f, 1), RowsOf(f.deltas[2].changes);
    assert "f" in rows && Lost(WebDav, 2, base, "f", rows["f"]) && !Redundant(base, rows, "f");
  }

  /** A file that revision 1 filled and revision 2 emptied. */
  ghost predicate EmptiedInTwo(s: Store) {
    && Settled(s) && s.files.head == 2 && UpsertsF(s.files, 2, [])
    && Recorded(s.files, 1) == map["f" := FileEntry([7], false)]
  }

  lemma EmptiedInTwoIsNotRestored(s: Store, loader: Tool, metas: nat -> Meta, since: int)
    requires EmptiedInTwo(s)
    ensures !AllRestored(WebDav, s.files, Reloaded(WebDav, loader, s, metas, since, s.files.head).files)
  {
    EmptyingIsHarmful(s.files);
    HarmIsNotRestored(s, loader, metas, since, 2);
  }

  /** There is such a store, two commits away from a fresh one, and the server's dump does not bring it back. */
  lemma EmptiedFileIsNotRestored(timestamp: int, meta: Meta, loader: Tool, metas: nat -> Meta, since: int)
    ensures var s := Emptied(timestamp, meta);
            && EmptiedInTwo(s)
            && !AllRestored(WebDav, s.files, Reloaded(WebDav, loader, s, metas, since, s.files.head).files)
  {
    EmptiedStore(timestamp, meta);
    EmptiedInTwoIsNotRestored(Emptied(timestamp, meta), loader, metas, since);
  }

  lemma HarmIsNotRestored(s: Store, loader: Tool, metas: nat -> Meta, since: int, r: nat)
    requires Honest(s) && Chained(s.files) && 0 < r <= s.files.head && !HarmlessAt(WebDav, s.files, r)
    ensures !AllRestored(WebDav, s.files, Reloaded(WebDav, loader, s, metas, since, s.files.head).files)
  {
    DumpThenLoadIff(WebDav, loader, s, metas, since);
  }
}
