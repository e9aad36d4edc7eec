// The dump writers of dsvn-admin and of the WebDAV server.
module DumpPrinter {
  import opened ObjectModel
  import opened DumpFormat
  import opened DumpText
  import opened Utf8
  import opened DumpParser

  /** One `name: value` line. */
  function Field(u: Charset, h: Header, value: string): (r: Bytes)
    ensures |r| > 0
  {
    u.encode(Name(h) + ": " + value) + [NEWLINE]
  }

  function Line(u: Charset, text: string): (r: Bytes)
    ensures |r| > 0
  {
    u.encode(text) + [NEWLINE]
  }

  // ------------------------------------------------------ revision properties

  function Pair(u: Charset, key: string, value: string): Bytes {
    Line(u, "K " + Digits(|u.encode(key)|)) + (Line(u, key)
      + (Line(u, "V " + Digits(|u.encode(value)|)) + Line(u, value)))
  }

  function PairUnlessEmpty(u: Charset, key: string, value: string): Bytes {
    if value == "" then [] else Pair(u, key, value)
  }

  const ENDLINE: Bytes := PROPS_END + [NEWLINE]

  /** build_rev_props */
  function RevisionProps(u: Charset, m: Meta, dates: Dates): (r: Bytes)
    ensures |r| > 0
  {
    PairUnlessEmpty(u, AUTHOR, m.author) + (PairUnlessEmpty(u, LOG, m.message)
      + (PairUnlessEmpty(u, DATE, dates.format(m.timestamp)) + ENDLINE))
  }

  /** A revision's header and properties, in front of `rest`. */
  function PrintedHead(u: Charset, r: Revision, dates: Dates, rest: Bytes): (b: Bytes)
    ensures |b| > |rest|
  {
    var props := RevisionProps(u, r.meta, dates);
    Field(u, RevisionHeader, Digits(r.number)) + (Field(u, PropLength, Digits(|props|))
      + (Field(u, TotalLength, Digits(|props|)) + ([NEWLINE] + (props + ([NEWLINE] + rest)))))
  }

  // ------------------------------------------------------------------- nodes

  function KindName(k: NodeKind): string {
    match k
    case FileNode => "file"
    case DirNode => "dir"
  }

  function ActionName(a: NodeAction): string {
    match a
    case AddNode => "add"
    case DeleteNode => "delete"
    case ChangeNode => "change"
    case ReplaceNode => "replace"
  }

  /** build_node_props; dsvn-admin never prints the executable property. */
  function NodeProps(u: Charset, tool: Tool, executable: bool): (r: Bytes)
    ensures |r| > 0
  {
    if tool.WebDav? && executable then Pair(u, "svn:executable", "*") + ENDLINE else ENDLINE
  }

  /** Only the server prints a checksum. */
  function Checksum(u: Charset, tool: Tool, content: Bytes, md5: Bytes -> string): Bytes {
    match tool
    case Admin => []
    case WebDav => Field(u, ChecksumHeader, md5(content))
  }

  /** The server ends a node with two empty lines, dsvn-admin with one. */
  function NodeEnd(tool: Tool, rest: Bytes): Bytes {
    match tool
    case Admin => [NEWLINE] + rest
    case WebDav => [NEWLINE] + ([NEWLINE] + rest)
  }

  /** A file's lengths, in front of its content block and what follows. */
  function PrintedLengths(
    u: Charset, tool: Tool, props: nat, content: Bytes, md5: Bytes -> string, body: Bytes): Bytes {
    Field(u, PropLength, Digits(props)) + (Field(u, TextLength, Digits(|content|))
      + (Checksum(u, tool, content, md5) + (Field(u, TotalLength, Digits(props + |content|)) + ([NEWLINE] + body))))
  }

  function PrintedContent(
    u: Charset, tool: Tool, props: Bytes, content: Bytes, md5: Bytes -> string, rest: Bytes): Bytes {
    PrintedLengths(u, tool, |props|, content, md5, props + (content + NodeEnd(tool, rest)))
  }

  function PrintedDir(u: Charset, tool: Tool, rest: Bytes): Bytes {
    Field(u, PropLength, Digits(|ENDLINE|)) + (Field(u, TotalLength, Digits(|ENDLINE|))
      + ([NEWLINE] + (ENDLINE + NodeEnd(tool, rest))))
  }

  /** The records NodeOf makes. */
  predicate Printable(n: Node) {
    n.copy == NOT_COPIED &&
    match n.action
    case None => false
    case Some(DeleteNode) => n.kind.None? && n.content == [] && !n.executable
    case Some(_) => n.kind.Some? && (n.kind.value.DirNode? ==> n.content == [] && !n.executable)
  }

  function PrintedNode(u: Charset, tool: Tool, n: Node, md5: Bytes -> string, rest: Bytes): Bytes
    requires Printable(n)
  {
    if n.action.value.DeleteNode? then
      Field(u, PathHeader, n.path) + (Field(u, ActionHeader, "delete") + ([NEWLINE] + rest))
    else
      Field(u, PathHeader, n.path) + (Field(u, KindHeader, KindName(n.kind.value))
        + (Field(u, ActionHeader, ActionName(n.action.value))
           + (if n.kind.value.DirNode? then PrintedDir(u, tool, rest)
              else PrintedContent(u, tool, NodeProps(u, tool, n.executable), n.content, md5, rest))))
  }

  predicate AllPrintable(ns: seq<Node>) {
    forall i :: 0 <= i < |ns| ==> Printable(ns[i])
  }

  function PrintedNodes(u: Charset, tool: Tool, ns: seq<Node>, md5: Bytes -> string, rest: Bytes): Bytes
    requires AllPrintable(ns)
  {
    if ns == [] then rest else PrintedNode(u, tool, ns[0], md5, PrintedNodes(u, tool, ns[1..], md5, rest))
  }

  function PrintedRevisions(u: Charset, tool: Tool, rs: seq<Revision>, dates: Dates, md5: Bytes -> string): Bytes
    requires forall i :: 0 <= i < |rs| ==> AllPrintable(rs[i].nodes)
  {
    if rs == [] then []
    else
      var later := PrintedRevisions(u, tool, rs[1..], dates, md5);
      PrintedHead(u, rs[0], dates, PrintedNodes(u, tool, rs[0].nodes, md5, later))
  }

  /** The lines in front of the first revision; an incremental server dump has no UUID. */
  function PrintedDump(
    u: Charset, tool: Tool, version: string, uuid: Option<string>, rs: seq<Revision>, dates: Dates,
    md5: Bytes -> string): Bytes
    requires forall i :: 0 <= i < |rs| ==> AllPrintable(rs[i].nodes)
  {
    var revisions := PrintedRevisions(u, tool, rs, dates, md5);
    Field(u, VersionHeader, version) + ([NEWLINE]
      + (if uuid.Some? then Field(u, UuidHeader, uuid.value) + ([NEWLINE] + revisions) else revisions))
  }
}
