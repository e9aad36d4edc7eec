// Dumps: what a store's revisions look like as dump records.
module DumpFormat {
  import opened Paths
  import opened ObjectModel
  import opened Replay
  import opened Store
  import opened Repository

  /** The two programs that write and read dumps: dsvn-admin and the WebDAV server. */
  datatype Tool = Admin | WebDav

  datatype NodeKind = FileNode | DirNode
  datatype NodeAction = AddNode | DeleteNode | ChangeNode | ReplaceNode

  /** Where a node says it was copied from; no writer prints it. */
  datatype CopySource = CopySource(path: Option<Path>, rev: Option<nat>)

  const NOT_COPIED: CopySource := CopySource(None, None)

  /** `executable` is printed as a node property that no reader looks at. */
  datatype Node = Node(
    path: Path, kind: Option<NodeKind>, action: Option<NodeAction>, content: Bytes, executable: bool, copy: CopySource)

  function Deletion(path: Path): Node {
    Node(path, None, Some(DeleteNode), [], false, NOT_COPIED)
  }

  function DirRecord(path: Path, action: NodeAction): Node {
    Node(path, Some(DirNode), Some(action), [], false, NOT_COPIED)
  }

  function FileRecord(path: Path, action: NodeAction, content: Bytes, executable: bool): Node {
    Node(path, Some(FileNode), Some(action), content, executable, NOT_COPIED)
  }

  datatype Revision = Revision(number: nat, meta: Meta, nodes: seq<Node>)

  /** dsvn-admin calls every upsert an addition; the server looks at the previous tree. */
  function ActionFor(tool: Tool, f: Files, rev: nat, path: Path): NodeAction {
    if tool.WebDav? && rev > 1 && path in Recorded(f, rev - 1) then ChangeNode else AddNode
  }

  /** The record of one change; None where the file's content cannot be read. */
  function NodeOf(tool: Tool, s: Store, rev: nat, c: TreeChange): Option<Node> {
    match c
    case Delete(path) => Some(Deletion(path))
    case Upsert(path, entry) =>
      var action := ActionFor(tool, s.files, rev, path);
      if entry.kind.TreeKind? then Some(DirRecord(path, action))
      else
        match Look(Recorded(s.files, rev), Trim("/" + path))
        case None => None
        case Some(e) =>
          if e.kind.BlobKind? && e.id in s.objects
          then Some(FileRecord(path, action, s.objects[e.id].data, entry.mode == EXEC_MODE))
          else None
  }

  function NodesOf(tool: Tool, s: Store, rev: nat, cs: seq<TreeChange>): seq<Node> {
    if cs == [] then [] else
      NodesOf(tool, s, rev, cs[..|cs| - 1]) +
      (match NodeOf(tool, s, rev, cs[|cs| - 1]) case Some(n) => [n] case None => [])
  }

  function RevisionOf(tool: Tool, s: Store, rev: nat): Revision
    requires rev in s.files.commits
  {
    var nodes := if rev > 0 && rev in s.files.deltas then NodesOf(tool, s, rev, s.files.deltas[rev].changes) else [];
    Revision(rev, s.files.commits[rev].meta, nodes)
  }

  /** The revision part of write_revision and generate_dump, reading the store. */
  method DumpRevision(tool: Tool, repo: Repository, rev: nat) returns (r: Revision)
    requires repo.Valid() && rev <= repo.currentRev
    modifies repo`treeCache
    ensures repo.Valid() && repo.State() == old(repo.State())
    ensures rev in repo.State().files.commits && r == RevisionOf(tool, repo.State(), rev)
  {
    ghost var s := repo.State();
    var nodes: seq<Node> := [];
    if rev > 0 {
      var changes, i := repo.deltas[rev].changes, 0;
      while i < |changes|
        invariant 0 <= i <= |changes| && repo.Valid() && repo.State() == s
        invariant nodes == NodesOf(tool, s, rev, changes[..i])
      {
        assert changes[..i + 1][..i] == changes[..i];
        var node := DumpChange(tool, repo, rev, changes[i]);
        if node.Some? { nodes := nodes + [node.value]; }
        i := i + 1;
      }
      assert changes[..i] == changes;
    }
    r := Revision(rev, repo.commits[rev].meta, nodes);
  }

  /** The look-ups of write_change_to_buf. */
  method DumpChange(tool: Tool, repo: Repository, rev: nat, c: TreeChange) returns (n: Option<Node>)
    requires repo.Valid() && 0 < rev <= repo.currentRev
    modifies repo`treeCache
    ensures repo.Valid() && repo.State() == old(repo.State()) && n == NodeOf(tool, repo.State(), rev, c)
  {
    if c.Delete? { return Some(Deletion(c.path)); }
    var action := AddNode;
    if tool.WebDav? && rev > 1 {
      var before := repo.GetTreeAtRev(rev - 1);
      if c.path in before.value { action := ChangeNode; }
    }
    if c.entry.kind.TreeKind? { return Some(DirRecord(c.path, action)); }
    var content := repo.GetFile("/" + c.path, rev);
    if content.Err? { return None; }
    n := Some(FileRecord(c.path, action, content.value, c.entry.mode == EXEC_MODE));
  }

  /** In a chained store a revision's files can be read, and hold what its delta says. */
  lemma OwnFileReadable(s: Store, rev: nat, i: nat)
    requires Honest(s) && 0 < rev <= s.files.head && ReplayLinked(s.files, rev)
    requires i < |s.files.deltas[rev].changes| && s.files.deltas[rev].changes[i].Upsert?
    ensures var c := s.files.deltas[rev].changes[i];
            && Trim("/" + c.path) == c.path && EntryOk(c.entry) && Look(Recorded(s.files, rev), c.path) == Some(c.entry)
            && (c.entry.kind.BlobKind? ==> c.entry.id in s.objects && s.objects[c.entry.id].data == c.entry.id.data)
  {
    assert Linked(s.files, rev);
    var cs := s.files.deltas[rev].changes;
    assert ChangesOk(s.objects, cs);
    ReplayIsPointwise(Recorded(s.files, rev - 1), cs, cs[i].path);
    OwnRow(cs, i);
    assert ("/" + cs[i].path)[1..] == cs[i].path;
  }
}
