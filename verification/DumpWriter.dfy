// write_revision and generate_dump: appending the printed form to a buffer.
module DumpWriter {
  import opened ObjectModel
  import opened Store
  import opened Repository
  import opened DumpFormat
  import opened DumpText
  import opened Utf8
  import opened DumpParser
  import opened DumpPrinter

  /** One write; `more` is what is still to be written. */
  method Append(buf: Bytes, piece: Bytes, ghost more: Bytes) returns (out: Bytes)
    ensures out == buf + piece && out + more == buf + (piece + more)
  {
    out := buf + piece;
  }

  method WriteHead(u: Charset, buf: Bytes, r: Revision, dates: Dates, ghost more: Bytes) returns (out: Bytes)
    ensures out + more == buf + PrintedHead(u, r, dates, more)
  {
    var props := RevisionProps(u, r.meta, dates);
    ghost var m5 := [NEWLINE] + more;
    ghost var m4 := props + m5;
    ghost var m3 := [NEWLINE] + m4;
    ghost var m2 := Field(u, TotalLength, Digits(|props|)) + m3;
    ghost var m1 := Field(u, PropLength, Digits(|props|)) + m2;
    out := Append(buf, Field(u, RevisionHeader, Digits(r.number)), m1);
    out := Append(out, Field(u, PropLength, Digits(|props|)), m2);
    out := Append(out, Field(u, TotalLength, Digits(|props|)), m3);
    out := Append(out, [NEWLINE], m4);
    out := Append(out, props, m5);
    out := Append(out, [NEWLINE], more);
  }

  method WriteNodeEnd(tool: Tool, buf: Bytes, ghost more: Bytes) returns (out: Bytes)
    ensures out + more == buf + NodeEnd(tool, more)
  {
    if tool.WebDav? {
      out := Append(buf, [NEWLINE], [NEWLINE] + more);
      out := Append(out, [NEWLINE], more);
    } else {
      out := Append(buf, [NEWLINE], more);
    }
  }

  method WriteContent(
    u: Charset, tool: Tool, buf: Bytes, props: Bytes, content: Bytes, md5: Bytes -> string, ghost more: Bytes)
    returns (out: Bytes)
    ensures out + more == buf + PrintedContent(u, tool, props, content, md5, more)
  {
    ghost var m7 := NodeEnd(tool, more);
    ghost var m6 := content + m7;
    ghost var m5 := props + m6;
    ghost var m4 := [NEWLINE] + m5;
    ghost var m3 := Field(u, TotalLength, Digits(|props| + |content|)) + m4;
    ghost var m2 := Checksum(u, tool, content, md5) + m3;
    ghost var m1 := Field(u, TextLength, Digits(|content|)) + m2;
    out := Append(buf, Field(u, PropLength, Digits(|props|)), m1);
    out := Append(out, Field(u, TextLength, Digits(|content|)), m2);
    out := Append(out, Checksum(u, tool, content, md5), m3);
    out := Append(out, Field(u, TotalLength, Digits(|props| + |content|)), m4);
    out := Append(out, [NEWLINE], m5);
    out := Append(out, props, m6);
    out := Append(out, content, m7);
    out := WriteNodeEnd(tool, out, more);
  }

  method WriteDir(u: Charset, tool: Tool, buf: Bytes, ghost more: Bytes) returns (out: Bytes)
    ensures out + more == buf + PrintedDir(u, tool, more)
  {
    ghost var m4 := NodeEnd(tool, more);
    ghost var m3 := ENDLINE + m4;
    ghost var m2 := [NEWLINE] + m3;
    ghost var m1 := Field(u, TotalLength, Digits(|ENDLINE|)) + m2;
    out := Append(buf, Field(u, PropLength, Digits(|ENDLINE|)), m1);
    out := Append(out, Field(u, TotalLength, Digits(|ENDLINE|)), m2);
    out := Append(out, [NEWLINE], m3);
    out := Append(out, ENDLINE, m4);
    out := WriteNodeEnd(tool, out, more);
  }

  method WriteNode(
    u: Charset, tool: Tool, buf: Bytes, n: Node, md5: Bytes -> string, ghost more: Bytes)
    returns (out: Bytes)
    requires Printable(n)
    ensures out + more == buf + PrintedNode(u, tool, n, md5, more)
  {
    if n.action.value.DeleteNode? {
      out := Append(buf, Field(u, PathHeader, n.path), Field(u, ActionHeader, "delete") + ([NEWLINE] + more));
      out := Append(out, Field(u, ActionHeader, "delete"), [NEWLINE] + more);
      out := Append(out, [NEWLINE], more);
      return;
    }
    var kind, props := n.kind.value, NodeProps(u, tool, n.executable);
    ghost var m3 :=
      if kind.DirNode? then PrintedDir(u, tool, more) else PrintedContent(u, tool, props, n.content, md5, more);
    ghost var m2 := Field(u, ActionHeader, ActionName(n.action.value)) + m3;
    ghost var m1 := Field(u, KindHeader, KindName(kind)) + m2;
    out := Append(buf, Field(u, PathHeader, n.path), m1);
    out := Append(out, Field(u, KindHeader, KindName(kind)), m2);
    out := Append(out, Field(u, ActionHeader, ActionName(n.action.value)), m3);
    if kind.FileNode? {
      out := WriteContent(u, tool, out, props, n.content, md5, more);
    } else {
      out := WriteDir(u, tool, out, more);
    }
  }

  method WriteNodes(
    u: Charset, tool: Tool, buf: Bytes, ns: seq<Node>, md5: Bytes -> string, ghost more: Bytes)
    returns (out: Bytes)
    requires AllPrintable(ns)
    ensures out + more == buf + PrintedNodes(u, tool, ns, md5, more)
  {
    out := buf;
    var i := 0;
    while i < |ns|
      invariant 0 <= i <= |ns| && AllPrintable(ns[i..])
      invariant out + PrintedNodes(u, tool, ns[i..], md5, more) == buf + PrintedNodes(u, tool, ns, md5, more)
    {
      assert ns[i..][1..] == ns[i + 1..];
      out := WriteNode(u, tool, out, ns[i], md5, PrintedNodes(u, tool, ns[i + 1..], md5, more));
      i := i + 1;
    }
  }

  lemma {:induction false} NodesPrintable(tool: Tool, s: Store, rev: nat, cs: seq<TreeChange>)
    ensures AllPrintable(NodesOf(tool, s, rev, cs))
  {
    if cs != [] { NodesPrintable(tool, s, rev, cs[..|cs| - 1]); }
  }

  /** The records of revisions from..=last. */
  function RevisionsOf(tool: Tool, s: Store, from: nat, last: nat): (rs: seq<Revision>)
    requires forall r: nat :: r <= last ==> r in s.files.commits
    ensures |rs| == if from <= last then last + 1 - from else 0
  {
    var n := if from <= last then last + 1 - from else 0;
    seq(n, i requires 0 <= i < n => RevisionOf(tool, s, from + i))
  }

  predicate RevisionsPrintable(rs: seq<Revision>) {
    forall i :: 0 <= i < |rs| ==> AllPrintable(rs[i].nodes)
  }

  lemma AllRevisionsPrintable(tool: Tool, s: Store, from: nat, last: nat)
    requires forall r: nat :: r <= last ==> r in s.files.commits
    ensures RevisionsPrintable(RevisionsOf(tool, s, from, last))
  {
    forall r: nat | r in s.files.commits ensures AllPrintable(RevisionOf(tool, s, r).nodes) {
      if 0 < r && r in s.files.deltas { NodesPrintable(tool, s, r, s.files.deltas[r].changes); }
    }
  }

  method WriteFront(u: Charset, version: string, uuid: Option<string>, ghost more: Bytes) returns (out: Bytes)
    ensures out + more == Field(u, VersionHeader, version) + ([NEWLINE]
              + (if uuid.Some? then Field(u, UuidHeader, uuid.value) + ([NEWLINE] + more) else more))
  {
    ghost var m1 := if uuid.Some? then Field(u, UuidHeader, uuid.value) + ([NEWLINE] + more) else more;
    out := Append([], Field(u, VersionHeader, version), [NEWLINE] + m1);
    out := Append(out, [NEWLINE], m1);
    if uuid.Some? {
      out := Append(out, Field(u, UuidHeader, uuid.value), [NEWLINE] + more);
      out := Append(out, [NEWLINE], more);
    }
    assert [] + (Field(u, VersionHeader, version) + ([NEWLINE] + m1))
        == Field(u, VersionHeader, version) + ([NEWLINE] + m1);
  }

  /** After `k` revisions `buf` is what `all` starts with; the others are still to be written. */
  ghost predicate Progress(
    u: Charset, tool: Tool, buf: Bytes, rs: seq<Revision>, k: nat, dates: Dates, md5: Bytes -> string, all: Bytes) {
    k <= |rs| && RevisionsPrintable(rs[k..]) && buf + PrintedRevisions(u, tool, rs[k..], dates, md5) == all
  }

  method WriteRevision(
    u: Charset, tool: Tool, buf: Bytes, r: Revision, dates: Dates, md5: Bytes -> string, ghost rs: seq<Revision>,
    ghost k: nat, ghost all: Bytes)
    returns (out: Bytes)
    requires k < |rs| && r == rs[k] && Progress(u, tool, buf, rs, k, dates, md5, all)
    ensures Progress(u, tool, out, rs, k + 1, dates, md5, all)
  {
    assert rs[k..][0] == r && rs[k..][1..] == rs[k + 1..];
    ghost var more := PrintedRevisions(u, tool, rs[k + 1..], dates, md5);
    out := WriteHead(u, buf, r, dates, PrintedNodes(u, tool, r.nodes, md5, more));
    out := WriteNodes(u, tool, out, r.nodes, md5, more);
  }

  lemma NothingLeft(
    u: Charset, tool: Tool, buf: Bytes, rs: seq<Revision>, dates: Dates, md5: Bytes -> string, all: Bytes)
    requires Progress(u, tool, buf, rs, |rs|, dates, md5, all)
    ensures buf == all
  {
    assert rs[|rs|..] == [] && buf + [] == buf;
  }

  /** `rs` are the records of `from` and the revisions after it. */
  predicate AreRecords(tool: Tool, s: Store, from: nat, rs: seq<Revision>) {
    forall k :: 0 <= k < |rs| ==> IsRecord(tool, s, from + k, rs[k])
  }

  predicate IsRecord(tool: Tool, s: Store, rev: nat, r: Revision) {
    rev in s.files.commits && r == RevisionOf(tool, s, rev)
  }

  lemma RevisionsAreRecords(tool: Tool, s: Store, from: nat, last: nat)
    requires forall r: nat :: r <= last ==> r in s.files.commits
    ensures AreRecords(tool, s, from, RevisionsOf(tool, s, from, last))
  {
  }

  method DumpAndWrite(
    u: Charset, tool: Tool, repo: Repository, buf: Bytes, rev: nat, dates: Dates, md5: Bytes -> string,
    ghost rs: seq<Revision>, ghost from: nat, ghost k: nat, ghost all: Bytes)
    returns (out: Bytes)
    requires repo.Valid() && rev <= repo.currentRev && rev == from + k && k < |rs|
    requires AreRecords(tool, repo.State(), from, rs) && Progress(u, tool, buf, rs, k, dates, md5, all)
    modifies repo`treeCache
    ensures repo.Valid() && repo.State() == old(repo.State()) && Progress(u, tool, out, rs, k + 1, dates, md5, all)
  {
    assert IsRecord(tool, repo.State(), from + k, rs[k]);
    var r := DumpRevision(tool, repo, rev);
    out := WriteRevision(u, tool, buf, r, dates, md5, rs, k, all);
  }

  method WriteRevisions(
    u: Charset, tool: Tool, repo: Repository, buf: Bytes, from: nat, last: nat, dates: Dates, md5: Bytes -> string,
    ghost rs: seq<Revision>, ghost all: Bytes)
    returns (out: Bytes)
    requires repo.Valid() && last <= repo.currentRev && |rs| == (if from <= last then last + 1 - from else 0)
    requires AreRecords(tool, repo.State(), from, rs) && Progress(u, tool, buf, rs, 0, dates, md5, all)
    modifies repo`treeCache
    ensures repo.Valid() && repo.State() == old(repo.State()) && out == all
  {
    ghost var s := repo.State();
    ghost var k := 0;
    out := buf;
    var rev := from;
    while rev <= last
      invariant rev == from + k && k <= |rs| && repo.Valid() && repo.State() == s
      invariant Progress(u, tool, out, rs, k, dates, md5, all)
    {
      out := DumpAndWrite(u, tool, repo, out, rev, dates, md5, rs, from, k, all);
      rev, k := rev + 1, k + 1;
    }
    NothingLeft(u, tool, out, rs, dates, md5, all);
  }

  /** The whole dump of revisions from..=last. */
  method GenerateDump(
    u: Charset, tool: Tool, repo: Repository, version: string, uuid: Option<string>, from: nat, last: nat, dates: Dates,
    md5: Bytes -> string)
    returns (buf: Bytes)
    requires repo.Valid() && last <= repo.currentRev
    modifies repo`treeCache
    ensures repo.Valid() && repo.State() == old(repo.State())
    ensures var rs := RevisionsOf(tool, repo.State(), from, last);
            RevisionsPrintable(rs) && buf == PrintedDump(u, tool, version, uuid, rs, dates, md5)
  {
    ghost var rs := RevisionsOf(tool, repo.State(), from, last);
    AllRevisionsPrintable(tool, repo.State(), from, last);
    buf := WriteFront(u, version, uuid, PrintedRevisions(u, tool, rs, dates, md5));
    RevisionsAreRecords(tool, repo.State(), from, last);
    assert rs[0..] == rs;
    buf := WriteRevisions(u, tool, repo, buf, from, last, dates, md5, rs,
      PrintedDump(u, tool, version, uuid, rs, dates, md5));
  }
}
