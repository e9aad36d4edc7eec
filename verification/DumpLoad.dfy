// Loading dumped revisions into a store, and when that brings back the same trees.
module DumpLoad {
  import opened Paths
  import opened ObjectModel
  import opened Replay
  import opened Store
  import opened Repository
  import opened DumpFormat

  // ---------------------------------------------------------------- loading

  /** Whether a node stages anything. */
  predicate Stages(tool: Tool, n: Node) {
    match n.action
    case None => false
    case Some(DeleteNode) => true
    case Some(ChangeNode) => n.content != []
    case Some(_) => !PassedOver(tool, n) && (n.kind.Some? || n.content != [])
  }

  /** dsvn-admin does not copy yet: an addition with a complete copy source does nothing. */
  predicate PassedOver(tool: Tool, n: Node) {
    tool.Admin? && n.copy.path.Some? && n.copy.rev.Some?
  }

  /** Loaded files are never executable; a change with no content is passed over. */
  function LoadedNode(tool: Tool, s: Store, n: Node): Store {
    if !Stages(tool, n) then s
    else if n.action == Some(DeleteNode) then PathDeleted(s, n.path)
    else if n.action != Some(ChangeNode) && n.kind == Some(DirNode) then DirAdded(s, n.path)
    else FileAdded(s, n.path, n.content, false)
  }

  function LoadedNodes(tool: Tool, s: Store, ns: seq<Node>): Store {
    if ns == [] then s else LoadedNode(tool, LoadedNodes(tool, s, ns[..|ns| - 1]), ns[|ns| - 1])
  }

  predicate AnyStages(tool: Tool, ns: seq<Node>) {
    ns != [] && (AnyStages(tool, ns[..|ns| - 1]) || Stages(tool, ns[|ns| - 1]))
  }

  ghost function LoadedRevision(tool: Tool, s: Store, r: Revision): Store {
    if r.number == 0 || !AnyStages(tool, r.nodes) then s else Committed(LoadedNodes(tool, s, r.nodes), r.meta, false)
  }

  ghost function LoadedAll(tool: Tool, s: Store, rs: seq<Revision>): Store {
    if rs == [] then s else LoadedRevision(tool, LoadedAll(tool, s, rs[..|rs| - 1]), rs[|rs| - 1])
  }

  method LoadNode(tool: Tool, repo: Repository, n: Node) returns (staged: bool)
    requires repo.Valid()
    modifies repo
    ensures repo.Valid() && repo.State() == LoadedNode(tool, old(repo.State()), n) && staged == Stages(tool, n)
  {
    staged := false;
    match n.action {
      case Some(AddNode) => staged := AddOrReplace(tool, repo, n);
      case Some(ReplaceNode) => staged := AddOrReplace(tool, repo, n);
      case Some(DeleteNode) =>
        repo.DeleteFile(n.path);
        staged := true;
      case Some(ChangeNode) =>
        if n.content != [] {
          var _ := repo.AddFile(n.path, n.content, false);
          staged := true;
        }
      case None =>
    }
  }

  method AddOrReplace(tool: Tool, repo: Repository, n: Node) returns (staged: bool)
    requires repo.Valid() && (n.action == Some(AddNode) || n.action == Some(ReplaceNode))
    modifies repo
    ensures repo.Valid() && repo.State() == LoadedNode(tool, old(repo.State()), n) && staged == Stages(tool, n)
  {
    if PassedOver(tool, n) { return false; }
    staged := true;
    match n.kind {
      case Some(FileNode) => var _ := repo.AddFile(n.path, n.content, false);
      case Some(DirNode) => repo.Mkdir(n.path);
      case None => if n.content != [] { var _ := repo.AddFile(n.path, n.content, false); } else { staged := false; }
    }
  }

  lemma {:induction false} NothingStaged(tool: Tool, s: Store, ns: seq<Node>)
    requires !AnyStages(tool, ns)
    ensures LoadedNodes(tool, s, ns) == s
  {
    if ns != [] {
      NothingStaged(tool, s, ns[..|ns| - 1]);
    }
  }

  /** The callback of load_dump_file_blocking and handle_load for one parsed revision. */
  method LoadRevision(tool: Tool, repo: Repository, r: Revision)
    requires repo.Valid()
    modifies repo
    ensures repo.Valid() && repo.State() == LoadedRevision(tool, old(repo.State()), r)
  {
    if r.number == 0 || r.nodes == [] { return; }
    ghost var s := repo.State();
    var hasChanges, i := false, 0;
    while i < |r.nodes|
      invariant 0 <= i <= |r.nodes| && repo.Valid() && repo.State() == LoadedNodes(tool, s, r.nodes[..i])
      invariant hasChanges == AnyStages(tool, r.nodes[..i])
    {
      assert r.nodes[..i + 1][..i] == r.nodes[..i];
      var staged := LoadNode(tool, repo, r.nodes[i]);
      hasChanges := hasChanges || staged;
      i := i + 1;
    }
    assert r.nodes[..i] == r.nodes;
    if hasChanges {
      var _ := repo.CommitSync(r.meta, true);
    } else {
      NothingStaged(tool, s, r.nodes);
    }
  }

  method LoadRevisions(tool: Tool, repo: Repository, rs: seq<Revision>)
    requires repo.Valid()
    modifies repo
    ensures repo.Valid() && repo.State() == LoadedAll(tool, old(repo.State()), rs)
  {
    ghost var s := repo.State();
    var i := 0;
    while i < |rs|
      invariant 0 <= i <= |rs| && repo.Valid() && repo.State() == LoadedAll(tool, s, rs[..i])
    {
      assert rs[..i + 1][..i] == rs[..i];
      LoadRevision(tool, repo, rs[i]);
      i := i + 1;
    }
    assert rs[..i] == rs;
  }

  // --------------------------------------------- what is left of a revision

  function PlainEntry(e: TreeEntry): TreeEntry {
    if e.kind.BlobKind? then e.(mode := FILE_MODE) else e
  }

  function Plain(c: TreeChange): TreeChange {
    match c
    case Upsert(path, entry) => Upsert(path, PlainEntry(entry))
    case Delete(_) => c
  }

  /** A tree without its executable bits. */
  function PlainTree(t: Tree): Tree {
    map q | q in t :: PlainEntry(t[q])
  }

  /** No bytes behind the entry: an empty file or a directory. */
  predicate Hollow(e: TreeEntry) {
    e.kind.TreeKind? || e.id == BlobId([])
  }

  /** The server prints a hollow upsert of an existing path as a change, which no reader applies. */
  predicate Lost(tool: Tool, rev: nat, base: Tree, q: Path, row: Row) {
    tool.WebDav? && rev > 1 && row.Upserted? && q in base && Hollow(row.entry)
  }

  /** The changes of a revision that survive a dump and a load. */
  function Survivors(tool: Tool, rev: nat, base: Tree, cs: seq<TreeChange>): seq<TreeChange> {
    if cs == [] then [] else
      var n := |cs| - 1;
      Survivors(tool, rev, base, cs[..n]) +
      (if Lost(tool, rev, base, cs[n].path, RowOf(cs[n])) then [] else [Plain(cs[n])])
  }

  /** Every lost upsert would have changed nothing. */
  ghost predicate HarmlessLosses(tool: Tool, rev: nat, base: Tree, rows: Rows) {
    forall q :: q in rows && Lost(tool, rev, base, q, rows[q]) ==> Redundant(base, rows, q)
  }

  ghost predicate Redundant(base: Tree, rows: Rows, q: Path) {
    q in rows && rows[q].Upserted? && !Covered(rows, q) &&
    q in base && PlainEntry(base[q]) == PlainEntry(rows[q].entry)
  }

  lemma {:induction false} SurvivorsSorted(tool: Tool, rev: nat, base: Tree, cs: seq<TreeChange>)
    requires PathSorted(cs)
    ensures PathSorted(Survivors(tool, rev, base, cs))
    ensures forall c' :: c' in Survivors(tool, rev, base, cs) ==> exists i :: 0 <= i < |cs| && c' == Plain(cs[i])
  {
    if cs != [] {
      var n := |cs| - 1;
      SurvivorsSorted(tool, rev, base, cs[..n]);
      var before, all := Survivors(tool, rev, base, cs[..n]), Survivors(tool, rev, base, cs);
      forall c' | c' in all ensures exists i :: 0 <= i < |cs| && c' == Plain(cs[i]) {
        if c' in before {
          var i :| 0 <= i < n && c' == Plain(cs[..n][i]);
          assert c' == Plain(cs[i]);
        } else {
          assert c' == Plain(cs[n]);
        }
      }
      forall i, j | 0 <= i < j < |all| ensures Less(all[i].path, all[j].path) {
        assert all[i] == before[i] && before[i] in before;
        if j == |before| {
          var k :| 0 <= k < n && before[i] == Plain(cs[..n][k]);
          assert Less(cs[k].path, cs[n].path);
        } else {
          assert all[j] == before[j];
        }
      }
    }
  }

  function PlainRow(r: Row): Row {
    match r
    case Upserted(e) => Upserted(PlainEntry(e))
    case Deleted => Deleted
  }

  predicate SurvivesAt(tool: Tool, rev: nat, base: Tree, rows: Rows, kept: Rows, q: Path) {
    && (q in kept <==> q in rows && !Lost(tool, rev, base, q, rows[q]))
    && (q in kept ==> kept[q] == PlainRow(rows[q]))
  }

  /** As a table: the rows that are not lost, without executable bits. */
  lemma {:induction false} SurvivorRows(tool: Tool, rev: nat, base: Tree, cs: seq<TreeChange>, q: Path)
    requires PathSorted(cs)
    ensures SurvivesAt(tool, rev, base, RowsOf(cs), RowsOf(Survivors(tool, rev, base, cs)), q)
  {
    if cs != [] {
      var n := |cs| - 1;
      assert cs == cs[..n] + [cs[n]];
      SurvivorRows(tool, rev, base, cs[..n], q);
      OneMoreSurvivor(tool, rev, base, cs[..n], cs[n], q);
    }
  }

  lemma SurvivorsStep(tool: Tool, rev: nat, base: Tree, cs: seq<TreeChange>, c: TreeChange)
    ensures Survivors(tool, rev, base, cs + [c])
         == if Lost(tool, rev, base, c.path, RowOf(c)) then Survivors(tool, rev, base, cs)
            else Survivors(tool, rev, base, cs) + [Plain(c)]
  {
    assert (cs + [c])[..|cs|] == cs;
    var before := Survivors(tool, rev, base, cs);
    assert before + [] == before;
  }

  lemma OneMoreSurvivor(tool: Tool, rev: nat, base: Tree, cs: seq<TreeChange>, c: TreeChange, q: Path)
    requires PathSorted(cs + [c]) && SurvivesAt(tool, rev, base, RowsOf(cs), RowsOf(Survivors(tool, rev, base, cs)), q)
    ensures SurvivesAt(tool, rev, base, RowsOf(cs + [c]), RowsOf(Survivors(tool, rev, base, cs + [c])), q)
  {
    SurvivorsStep(tool, rev, base, cs, c);
    RowsOfAppend(cs, c);
    RowsOfAppend(Survivors(tool, rev, base, cs), Plain(c));
    NothingComesAfter(cs, c, c.path);
    assert RowOf(Plain(c)) == PlainRow(RowOf(c));
  }

  /** At one path the survivors give the plain tree unless a lost upsert mattered there. */
  lemma SurvivorsShow(tool: Tool, rev: nat, base: Tree, cs: seq<TreeChange>, q: Path)
    requires PathSorted(cs)
    ensures var rows := RowsOf(cs);
            Look(ReplayAll(PlainTree(base), Survivors(tool, rev, base, cs)), q)
            == Look(PlainTree(ReplayAll(base, cs)), q)
            <==> (q in rows && Lost(tool, rev, base, q, rows[q]) ==> Redundant(base, rows, q))
  {
    var rows, kept := RowsOf(cs), RowsOf(Survivors(tool, rev, base, cs));
    SurvivorsSorted(tool, rev, base, cs);
    ReplayIsPointwise(base, cs, q);
    ReplayIsPointwise(PlainTree(base), Survivors(tool, rev, base, cs), q);
    SurvivorRows(tool, rev, base, cs, q);
    if Covered(rows, q) {
      var p :| p in rows && rows[p].Deleted? && Under(p, q);
      SurvivorRows(tool, rev, base, cs, p);
      assert p in kept && kept[p].Deleted?;
    }
    if Covered(kept, q) {
      var p :| p in kept && kept[p].Deleted? && Under(p, q);
      SurvivorRows(tool, rev, base, cs, p);
      assert p in rows && rows[p].Deleted?;
    }
  }

  /** One revision comes back exactly when its losses are harmless. */
  lemma SurvivorsReplayIff(tool: Tool, rev: nat, base: Tree, cs: seq<TreeChange>)
    requires PathSorted(cs)
    ensures ReplayAll(PlainTree(base), Survivors(tool, rev, base, cs)) == PlainTree(ReplayAll(base, cs))
            <==> HarmlessLosses(tool, rev, base, RowsOf(cs))
  {
    var a, b := ReplayAll(PlainTree(base), Survivors(tool, rev, base, cs)), PlainTree(ReplayAll(base, cs));
    var rows := RowsOf(cs);
    forall q
      ensures Look(a, q) == Look(b, q)
         <==> (q in rows && Lost(tool, rev, base, q, rows[q]) ==> Redundant(base, rows, q))
    {
      SurvivorsShow(tool, rev, base, cs, q);
    }
    if HarmlessLosses(tool, rev, base, rows) { SameTreeIsEqual(a, b); }
  }

  /** Survivors that show at least the plain tree show exactly it. */
  lemma WithinIsEqual(tool: Tool, rev: nat, base: Tree, cs: seq<TreeChange>)
    requires PathSorted(cs)
    requires Within(PlainTree(ReplayAll(base, cs)), ReplayAll(PlainTree(base), Survivors(tool, rev, base, cs)))
    ensures ReplayAll(PlainTree(base), Survivors(tool, rev, base, cs)) == PlainTree(ReplayAll(base, cs))
  {
    var a, b := ReplayAll(PlainTree(base), Survivors(tool, rev, base, cs)), PlainTree(ReplayAll(base, cs));
    var rows := RowsOf(cs);
    forall q ensures Look(a, q) == Look(b, q) {
      SurvivorsShow(tool, rev, base, cs, q);
      ReplayIsPointwise(base, cs, q);
      if q in rows && Lost(tool, rev, base, q, rows[q]) { assert q in b; }
    }
    SameTreeIsEqual(a, b);
  }
}
