// The dump readers of dsvn-admin (streaming) and of the WebDAV server. They share
// everything but the order in which they accept a node's length headers. A reader is
// modelled by the bytes it has not consumed yet.
module DumpParser {
  import opened Paths
  import opened ObjectModel
  import opened DumpFormat
  import opened DumpText
  import opened Utf8

  /** Formatting and parsing of svn:date, and the clock. */
  datatype Dates = Dates(format: int -> string, parse: string -> Option<int>, now: int)

  // ------------------------------------------------------------------- lines

  /** read_line and trim; None if the line is not UTF-8. */
  function TextLine(u: Charset, s: Bytes): Option<string> {
    match u.decode(s[..LineLength(s)])
    case Some(t) => Some(Stripped(t))
    case None => None
  }

  /** read_exact */
  function Block(s: Bytes, n: nat): Option<Bytes> {
    if n <= |s| then Some(s[..n]) else None
  }

  // ----------------------------------------------------------- length headers

  datatype Lengths = Lengths(props: nat, text: nat, total: nat) {
    function Content(): nat { if total > 0 then total else props + text }
  }

  const LENGTHS: set<Header> := {PropLength, TextLength, TotalLength}

  function WithNumber(l: Lengths, h: Header, n: nat, admitted: set<Header>): Lengths {
    if h !in admitted then l
    else
      match h
      case PropLength => l.(props := n)
      case TextLength => l.(text := n)
      case TotalLength => l.(total := n)
      case _ => l
  }

  function WithHeader(l: Lengths, line: string, admitted: set<Header>): Lengths {
    match HeaderIn(line)
    case Some(h) => WithNumber(l, h, Number(HeaderValue(line)), admitted)
    case None => l
  }

  /** The admitted headers up to an empty line or the end, and what follows. */
  function ReadLengths(u: Charset, s: Bytes, l: Lengths, admitted: set<Header>): (r: Option<(Lengths, Bytes)>)
    ensures r.Some? ==> |r.value.1| <= |s|
    decreases |s|
  {
    if s == [] then Some((l, []))
    else
      match TextLine(u, s)
      case None => None
      case Some(line) =>
        if line == "" then Some((l, AfterLine(s)))
        else ReadLengths(u, AfterLine(s), WithHeader(l, line, admitted), admitted)
  }

  method ReadLengthHeaders(
    u: Charset, input: Bytes, start: Lengths, admitted: set<Header>)
    returns (r: Option<(Lengths, Bytes)>)
    ensures r == ReadLengths(u, input, start, admitted)
  {
    var s, l := input, start;
    while s != []
      invariant ReadLengths(u, input, start, admitted) == ReadLengths(u, s, l, admitted)
      decreases |s|
    {
      var line := TextLine(u, s);
      if line.None? { return None; }
      s := AfterLine(s);
      if line.value == "" { return Some((l, s)); }
      l := WithHeader(l, line.value, admitted);
    }
    r := Some((l, []));
  }

  // -------------------------------------------------------------- properties

  const K: Bytes := [0x4B, 0x20]
  const V: Bytes := [0x56, 0x20]

  function WithoutReturn(line: Bytes): Bytes {
    if line != [] && line[|line| - 1] == RETURN then line[..|line| - 1] else line
  }

  /** str::lines: without the newlines, and without a carriage return before one. */
  function LinesOf(s: Bytes): seq<Bytes> {
    if s == [] then [] else
      var n := LineLength(s);
      (if s[n - 1] == NEWLINE then [WithoutReturn(s[..n - 1])] else [s]) + LinesOf(s[n..])
  }

  function ShortLength(u: Charset, line: Bytes): nat
    requires |line| >= 2
  {
    Number(u.decode(line[2..]).GetOr(""))
  }

  function FirstBytes(line: Bytes, n: nat): Bytes {
    if n <= |line| then line[..n] else line
  }

  /** The first bytes of a line; None stands for the panic when that would split a character. */
  function Cut(u: Charset, line: Bytes, n: nat): Option<Bytes> {
    if n >= |line| then Some(line) else if u.decode(line[..n]).Some? then Some(line[..n]) else None
  }

  /** The key/value pairs of a property block; a value is the first bytes of one line. */
  function PropsOf(u: Charset, lines: seq<Bytes>, known: map<Bytes, Bytes>): Option<map<Bytes, Bytes>> {
    if lines == [] || lines[0] == PROPS_END then Some(known)
    else if !(K <= lines[0]) then PropsOf(u, lines[1..], known)
    else if |lines| < 2 then Some(known)
    else
      match Cut(u, lines[1], ShortLength(u, lines[0]))
      case None => None
      case Some(key) =>
        if |lines| < 3 then Some(known)
        else if !(V <= lines[2]) then PropsOf(u, lines[3..], known)
        else if |lines| < 4 then Some(known)
        else
          match Cut(u, lines[3], ShortLength(u, lines[2]))
          case None => None
          case Some(value) => PropsOf(u, lines[4..], known[key := value])
  }

  /** The pairs in a block of any bytes. */
  function PropertiesIn(u: Charset, data: Bytes): Option<map<Bytes, Bytes>> {
    PropsOf(u, LinesOf(u.repair(data)), map[])
  }

  /** A K line and what belongs to it; the position after it, and the pairs known by then. */
  method ParsePair(u: Charset, lines: seq<Bytes>, start: nat, known: map<Bytes, Bytes>)
    returns (r: Option<(nat, map<Bytes, Bytes>)>)
    requires start < |lines| && K <= lines[start] && lines[start] != PROPS_END
    ensures r.None? ==> PropsOf(u, lines[start..], known) == None
    ensures r.Some? ==>
              && start < r.value.0 <= |lines|
              && PropsOf(u, lines[start..], known) == PropsOf(u, lines[r.value.0..], r.value.1)
  {
    ghost var left := lines[start..];
    var i := start + 1;
    if i >= |lines| { return Some((|lines|, known)); }
    var key := Cut(u, lines[i], ShortLength(u, lines[start]));
    if key.None? { return None; }
    i := i + 1;
    if i >= |lines| { return Some((|lines|, known)); }
    if !(V <= lines[i]) { return Some((i + 1, known)); }
    i := i + 1;
    if i >= |lines| { return Some((|lines|, known)); }
    var value := Cut(u, lines[i], ShortLength(u, lines[i - 1]));
    if value.None? { return None; }
    r := Some((i + 1, known[key.value := value.value]));
  }

  /** parse_props and parse_props_block */
  method ParseProps(u: Charset, data: Bytes) returns (r: Option<map<Bytes, Bytes>>)
    ensures r == PropertiesIn(u, data)
  {
    var lines, i: nat := LinesOf(u.repair(data)), 0;
    var props: map<Bytes, Bytes> := map[];
    while i < |lines|
      invariant i <= |lines| && PropertiesIn(u, data) == PropsOf(u, lines[i..], props)
      decreases |lines| - i
    {
      if lines[i] == PROPS_END { break; }
      if K <= lines[i] {
        var pair := ParsePair(u, lines, i, props);
        if pair.None? { return None; }
        i, props := pair.value.0, pair.value.1;
      } else {
        i := i + 1;
      }
    }
    r := Some(props);
  }

  // ---------------------------------------------------------------- revision

  const AUTHOR: string := "svn:author"
  const LOG: string := "svn:log"
  const DATE: string := "svn:date"

  function Property(u: Charset, props: map<Bytes, Bytes>, name: string): Option<string> {
    var key := u.encode(name);
    if key in props then u.decode(props[key]) else None
  }

  function MetaOf(u: Charset, props: map<Bytes, Bytes>, dates: Dates): Meta {
    var date := Property(u, props, DATE);
    Meta(Property(u, props, AUTHOR).GetOr("unknown"), Property(u, props, LOG).GetOr(""),
      (if date.Some? then dates.parse(date.value) else None).GetOr(dates.now))
  }

  /** The metadata in a property block. */
  function MetaIn(u: Charset, data: Bytes, dates: Dates): Option<Meta> {
    match PropertiesIn(u, data)
    case Some(props) => Some(MetaOf(u, props, dates))
    case None => None
  }

  /** What follows a Revision-number line. */
  function RevisionHead(u: Charset, s: Bytes, number: nat, dates: Dates): (r: Option<(Revision, Bytes)>)
    ensures r.Some? ==> |r.value.1| <= |s|
  {
    match ReadLengths(u, s, Lengths(0, 0, 0), {PropLength, TotalLength})
    case None => None
    case Some((l, rest)) =>
      match Block(rest, l.Content())
      case None => None
      case Some(block) =>
        if l.props > |block| then None
        else
          match MetaIn(u, block[..l.props], dates)
          case None => None
          case Some(meta) => Some((Revision(number, meta, []), rest[l.Content()..]))
  }

  method ParseRevisionHead(u: Charset, input: Bytes, number: nat, dates: Dates) returns (r: Option<(Revision, Bytes)>)
    ensures r == RevisionHead(u, input, number, dates)
  {
    var lengths := ReadLengthHeaders(u, input, Lengths(0, 0, 0), {PropLength, TotalLength});
    if lengths.None? { return None; }
    var (l, rest) := lengths.value;
    var block := Block(rest, l.Content());
    if block.None? || l.props > |block.value| { return None; }
    var props := ParseProps(u, block.value[..l.props]);
    if props.None? { return None; }
    r := Some((Revision(number, MetaOf(u, props.value, dates), []), rest[l.Content()..]));
  }

  // -------------------------------------------------------------------- node

  function KindNamed(name: string): Option<NodeKind> {
    if name == "file" then Some(FileNode) else if name == "dir" then Some(DirNode) else None
  }

  function ActionNamed(name: string): Option<NodeAction> {
    if name == "add" then Some(AddNode)
    else if name == "delete" then Some(DeleteNode)
    else if name == "change" then Some(ChangeNode)
    else if name == "replace" then Some(ReplaceNode)
    else None
  }

  /** Which further length headers count after the first one. */
  function AdmittedAfter(tool: Tool, first: Header): set<Header> {
    match tool
    case WebDav => LENGTHS
    case Admin =>
      if first == PropLength then {TextLength, TotalLength} else if first == TextLength then {TotalLength} else {}
  }

  /** The text inside a node's content block. */
  function TextOf(tool: Tool, first: Header, l: Lengths, block: Bytes): Bytes {
    if l.text == 0 then []
    else if l.props + l.text <= |block| then block[l.props..l.props + l.text]
    else if tool.Admin? && first == PropLength then []
    else FirstBytes(block, l.text)
  }

  /** The text in the block after the headers, and what follows the line that ends it. */
  function ContentAt(tool: Tool, first: Header, l: Lengths, rest: Bytes): (r: Option<(Bytes, Bytes)>)
    ensures r.Some? ==> |r.value.1| <= |rest|
  {
    match Block(rest, l.Content())
    case None => None
    case Some(block) => Some((TextOf(tool, first, l, block), AfterLine(rest[l.Content()..])))
  }

  /** From the first length header on: the other ones, the block, and the line that ends it. */
  function NodeContent(u: Charset, tool: Tool, s: Bytes, first: Header, n: nat): (r: Option<(Bytes, Bytes)>)
    ensures r.Some? ==> |r.value.1| <= |s|
  {
    match ReadLengths(u, s, WithNumber(Lengths(0, 0, 0), first, n, LENGTHS), AdmittedAfter(tool, first))
    case None => None
    case Some((l, rest)) => ContentAt(tool, first, l, rest)
  }

  /** A node of which only the path is known. */
  function Blank(path: Path): Node {
    Node(path, None, None, [], false, NOT_COPIED)
  }

  /** What a line that is not a length adds to a node; only dsvn-admin looks at the copy source. */
  function Described(tool: Tool, n: Node, line: string): Node {
    match HeaderIn(line)
    case Some(KindHeader) => n.(kind := KindNamed(HeaderValue(line)))
    case Some(ActionHeader) => n.(action := ActionNamed(HeaderValue(line)))
    case Some(CopyPathHeader) => if tool.Admin? then n.(copy := n.copy.(path := Some(HeaderValue(line)))) else n
    case Some(CopyRevHeader) => if tool.Admin? then n.(copy := n.copy.(rev := Some(Number(HeaderValue(line))))) else n
    case _ => n
  }

  /** The headers of a node after its path, and its content. */
  function NodeHeaders(u: Charset, tool: Tool, s: Bytes, n: Node): (r: Option<(Node, Bytes)>)
    ensures r.Some? ==> |r.value.1| <= |s|
    decreases |s|
  {
    if s == [] then Some((n, []))
    else
      match TextLine(u, s)
      case None => None
      case Some(line) =>
        var header := HeaderIn(line);
        if line == "" then Some((n, AfterLine(s)))
        else if header.Some? && header.value in LENGTHS then
          match NodeContent(u, tool, AfterLine(s), header.value, Number(HeaderValue(line)))
          case None => None
          case Some((content, rest)) => Some((n.(content := content), rest))
        else NodeHeaders(u, tool, AfterLine(s), Described(tool, n, line))
  }

  method ParseNodeContent(
    u: Charset, tool: Tool, input: Bytes, first: Header, n: nat)
    returns (r: Option<(Bytes, Bytes)>)
    ensures r == NodeContent(u, tool, input, first, n)
  {
    var start := WithNumber(Lengths(0, 0, 0), first, n, LENGTHS);
    var lengths := ReadLengthHeaders(u, input, start, AdmittedAfter(tool, first));
    if lengths.None? { return None; }
    var (l, rest) := lengths.value;
    var content: Bytes := [];
    var block := Block(rest, l.Content());
    if block.None? { return None; }
    if l.Content() > 0 { content := TextOf(tool, first, l, block.value); }
    rest := rest[l.Content()..];
    r := Some((content, AfterLine(rest)));
  }

  method DescribeNode(tool: Tool, start: Node, line: string) returns (n: Node)
    ensures n == Described(tool, start, line)
  {
    n := start;
    var header := HeaderIn(line);
    if header == Some(KindHeader) {
      n := n.(kind := KindNamed(HeaderValue(line)));
    } else if header == Some(ActionHeader) {
      n := n.(action := ActionNamed(HeaderValue(line)));
    } else if tool.Admin? && header == Some(CopyPathHeader) {
      n := n.(copy := n.copy.(path := Some(HeaderValue(line))));
    } else if tool.Admin? && header == Some(CopyRevHeader) {
      n := n.(copy := n.copy.(rev := Some(Number(HeaderValue(line)))));
    }
  }

  /** parse_node_headers */
  method ParseNodeHeaders(u: Charset, tool: Tool, input: Bytes, path: Path) returns (r: Option<(Node, Bytes)>)
    ensures r == NodeHeaders(u, tool, input, Blank(path))
  {
    var s, n := input, Blank(path);
    while s != []
      invariant NodeHeaders(u, tool, input, Blank(path)) == NodeHeaders(u, tool, s, n)
      decreases |s|
    {
      var line := TextLine(u, s);
      if line.None? { return None; }
      s := AfterLine(s);
      var t := line.value;
      if t == "" { return Some((n, s)); }
      if HeaderIn(t).Some? && HeaderIn(t).value in LENGTHS {
        var content := ParseNodeContent(u, tool, s, HeaderIn(t).value, Number(HeaderValue(t)));
        if content.None? { return None; }
        n := n.(content := content.value.0);
        return Some((n, content.value.1));
      }
      n := DescribeNode(tool, n, t);
    }
    r := Some((n, []));
  }

  // ------------------------------------------------------------- whole stream

  /** The revisions handed on, and whether the end of the stream was reached. */
  datatype Outcome = Outcome(revisions: seq<Revision>, complete: bool)

  function Flushed(current: Option<Revision>): seq<Revision> {
    if current.Some? then [current.value] else []
  }

  function WithNode(current: Option<Revision>, n: Node): Option<Revision> {
    match current
    case Some(r) => Some(r.(nodes := r.nodes + [n]))
    case None => None
  }

  function After(first: seq<Revision>, o: Outcome): Outcome {
    Outcome(first + o.revisions, o.complete)
  }

  function Parsed(u: Charset, tool: Tool, s: Bytes, current: Option<Revision>, dates: Dates): Outcome
    decreases |s|
  {
    if s == [] then Outcome(Flushed(current), true)
    else
      match TextLine(u, s)
      case None => Outcome([], false)
      case Some(line) =>
        if HeaderIn(line) == Some(RevisionHeader) then
          match RevisionHead(u, AfterLine(s), Number(HeaderValue(line)), dates)
          case None => Outcome(Flushed(current), false)
          case Some((r, rest)) => After(Flushed(current), Parsed(u, tool, rest, Some(r), dates))
        else if HeaderIn(line) == Some(PathHeader) then
          match NodeHeaders(u, tool, AfterLine(s), Blank(HeaderValue(line)))
          case None => Outcome([], false)
          case Some((n, rest)) => Parsed(u, tool, rest, WithNode(current, n), dates)
        else Parsed(u, tool, AfterLine(s), current, dates)
  }

  lemma AfterTwice(a: seq<Revision>, b: seq<Revision>, o: Outcome)
    ensures After(a, After(b, o)) == After(a + b, o)
  {
    assert a + (b + o.revisions) == a + b + o.revisions;
  }

  /** One header line at top level and what it introduces: what is handed on, and how to go on. */
  method ParseTop(u: Charset, tool: Tool, input: Bytes, current: Option<Revision>, dates: Dates)
    returns (flushed: seq<Revision>, next: Option<(Bytes, Option<Revision>)>)
    requires input != []
    ensures match next
            case None => Parsed(u, tool, input, current, dates) == Outcome(flushed, false)
            case Some((s, now)) =>
              |s| < |input| && Parsed(u, tool, input, current, dates) == After(flushed, Parsed(u, tool, s, now, dates))
  {
    var line := TextLine(u, input);
    if line.None? { return [], None; }
    var s, t := AfterLine(input), line.value;
    if HeaderIn(t) == Some(RevisionHeader) {
      var head := ParseRevisionHead(u, s, Number(HeaderValue(t)), dates);
      if head.None? { return Flushed(current), None; }
      return Flushed(current), Some((head.value.1, Some(head.value.0)));
    }
    flushed := [];
    if HeaderIn(t) == Some(PathHeader) {
      var node := ParseNodeHeaders(u, tool, s, HeaderValue(t));
      if node.None? { return [], None; }
      next := Some((node.value.1, WithNode(current, node.value.0)));
    } else {
      next := Some((s, current));
    }
    AfterNothing(Parsed(u, tool, next.value.0, next.value.1, dates));
  }

  lemma AfterNothing(o: Outcome)
    ensures After([], o) == o
  {
    assert [] + o.revisions == o.revisions;
  }

  /** parse_dump_streaming and parse_dump_stream; what the callback gets is collected. */
  method ParseDump(u: Charset, tool: Tool, input: Bytes, dates: Dates) returns (o: Outcome)
    ensures o == Parsed(u, tool, input, None, dates)
  {
    var s, current: Option<Revision>, done: seq<Revision> := input, None, [];
    AfterNothing(Parsed(u, tool, input, None, dates));
    while s != []
      invariant Parsed(u, tool, input, None, dates) == After(done, Parsed(u, tool, s, current, dates))
      decreases |s|
    {
      var flushed, next := ParseTop(u, tool, s, current, dates);
      if next.None? { return Outcome(done + flushed, false); }
      AfterTwice(done, flushed, Parsed(u, tool, next.value.0, next.value.1, dates));
      done := done + flushed;
      s, current := next.value.0, next.value.1;
    }
    o := Outcome(done + Flushed(current), true);
  }
}
