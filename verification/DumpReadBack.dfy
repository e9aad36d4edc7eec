// Reading a printed dump gives back what was printed.
module DumpReadBack {
  import opened Paths
  import opened ObjectModel
  import opened DumpFormat
  import opened DumpText
  import opened Utf8
  import opened DumpParser
  import opened DumpPrinter
  import opened DumpProperties

  // ------------------------------------------------------------------- lines

  /** The line at the front of `s` is this header, and `rest` follows. */
  predicate HeaderFirst(u: Charset, s: Bytes, h: Header, value: string, rest: Bytes) {
    && s != [] && AfterLine(s) == rest
    && TextLine(u, s).Some? && HeaderIn(TextLine(u, s).value) == Some(h) && HeaderValue(TextLine(u, s).value) == value
  }

  lemma TextReads(u: Charset, text: string, rest: Bytes)
    requires Faithful(u) && '\n' !in text
    ensures TextLine(u, u.encode(text) + [NEWLINE] + rest) == Some(Stripped(text + "\n"))
    ensures AfterLine(u.encode(text) + [NEWLINE] + rest) == rest
  {
    var line := u.encode(text);
    LineEnds(line, rest);
    assert (line + [NEWLINE] + rest)[..|line| + 1] == line + [NEWLINE];
    assert Concatenates(u, text, "\n");
  }

  /** A printed field is read as one header. */
  lemma FieldReads(u: Charset, h: Header, value: string, rest: Bytes)
    requires Faithful(u) && '\n' !in value
    ensures HeaderFirst(u, Field(u, h, value) + rest, h, Stripped(value), rest)
  {
    NamesAreGood(h);
    NoNewline(Name(h), value);
    HeaderTextReads(u, h, Name(h) + ": " + value, value, rest);
  }

  lemma NoNewline(name: string, value: string)
    requires '\n' !in name && '\n' !in value
    ensures '\n' !in name + ": " + value
  {
  }

  lemma HeaderTextReads(u: Charset, h: Header, text: string, value: string, rest: Bytes)
    requires Faithful(u) && '\n' !in text && text == Name(h) + ": " + value
    ensures HeaderFirst(u, u.encode(text) + [NEWLINE] + rest, h, Stripped(value), rest)
  {
    TextReads(u, text, rest);
    KnownHeaderReadsBack(h, value);
  }

  lemma EmptyLineReads(u: Charset, rest: Bytes)
    requires Faithful(u)
    ensures TextLine(u, [NEWLINE] + rest) == Some("") && AfterLine([NEWLINE] + rest) == rest
  {
    LineEnds([], rest);
    assert [] + [NEWLINE] + rest == [NEWLINE] + rest;
    assert ([NEWLINE] + rest)[..1] == [NEWLINE];
    assert "\n"[..0] == "";
  }

  lemma NumberFieldReads(u: Charset, h: Header, n: nat, rest: Bytes)
    requires Faithful(u) && n < U64_RANGE
    ensures HeaderFirst(u, Field(u, h, Digits(n)) + rest, h, Digits(n), rest) && Number(Digits(n)) == n
  {
    NumberReadsBack(n);
    FieldReads(u, h, Digits(n), rest);
  }

  // ----------------------------------------------------------- length headers

  lemma HeaderCounts(u: Charset, s: Bytes, h: Header, value: string, rest: Bytes, l: Lengths, admitted: set<Header>)
    requires HeaderFirst(u, s, h, value, rest)
    ensures ReadLengths(u, s, l, admitted) == ReadLengths(u, rest, WithNumber(l, h, Number(value), admitted), admitted)
  {
  }

  lemma LengthReads(u: Charset, h: Header, n: nat, rest: Bytes, l: Lengths, admitted: set<Header>)
    requires Faithful(u) && n < U64_RANGE
    ensures ReadLengths(u, Field(u, h, Digits(n)) + rest, l, admitted)
         == ReadLengths(u, rest, WithNumber(l, h, n, admitted), admitted)
  {
    NumberFieldReads(u, h, n, rest);
    HeaderCounts(u, Field(u, h, Digits(n)) + rest, h, Digits(n), rest, l, admitted);
  }

  lemma OtherFieldSkipped(u: Charset, h: Header, value: string, rest: Bytes, l: Lengths, admitted: set<Header>)
    requires Faithful(u) && '\n' !in value && h !in admitted
    ensures ReadLengths(u, Field(u, h, value) + rest, l, admitted) == ReadLengths(u, rest, l, admitted)
  {
    FieldReads(u, h, value, rest);
    HeaderCounts(u, Field(u, h, value) + rest, h, Stripped(value), rest, l, admitted);
  }

  lemma LengthsEnd(u: Charset, rest: Bytes, l: Lengths, admitted: set<Header>)
    requires Faithful(u)
    ensures ReadLengths(u, [NEWLINE] + rest, l, admitted) == Some((l, rest))
  {
    EmptyLineReads(u, rest);
  }

  // ------------------------------------------------------------ revision head

  lemma HeadLengthsRead(u: Charset, n: nat, rest: Bytes)
    requires Faithful(u) && 0 < n < U64_RANGE
    ensures ReadLengths(u, Field(u, PropLength, Digits(n)) + (Field(u, TotalLength, Digits(n)) + ([NEWLINE] + rest)),
                        Lengths(0, 0, 0), {PropLength, TotalLength})
         == Some((Lengths(n, 0, n), rest))
  {
    var admitted, s2 := {PropLength, TotalLength}, [NEWLINE] + rest;
    var s1 := Field(u, TotalLength, Digits(n)) + s2;
    LengthReads(u, PropLength, n, s1, Lengths(0, 0, 0), admitted);
    forall k
      ensures ReadLengths(u, s1, k, admitted) == ReadLengths(u, s2, WithNumber(k, TotalLength, n, admitted), admitted)
    {
      LengthReads(u, TotalLength, n, s2, k, admitted);
    }
    forall k ensures ReadLengths(u, s2, k, admitted) == Some((k, rest)) { LengthsEnd(u, rest, k, admitted); }
    HeadLengthsInOrder(u, Field(u, PropLength, Digits(n)) + s1, s1, s2, rest, n, admitted);
  }

  lemma HeadLengthsInOrder(u: Charset, s: Bytes, s1: Bytes, s2: Bytes, s3: Bytes, n: nat, admitted: set<Header>)
    requires {PropLength, TotalLength} <= admitted
    requires ReadLengths(u, s, Lengths(0, 0, 0), admitted)
          == ReadLengths(u, s1, WithNumber(Lengths(0, 0, 0), PropLength, n, admitted), admitted)
    requires forall k ::
               ReadLengths(u, s1, k, admitted) == ReadLengths(u, s2, WithNumber(k, TotalLength, n, admitted), admitted)
    requires forall k :: ReadLengths(u, s2, k, admitted) == Some((k, s3))
    ensures ReadLengths(u, s, Lengths(0, 0, 0), admitted) == Some((Lengths(n, 0, n), s3))
  {
  }

  /** A revision with the metadata that was read, if it was. */
  function Headed(number: nat, meta: Option<Meta>, after: Bytes): Option<(Revision, Bytes)> {
    match meta
    case Some(m) => Some((Revision(number, m, []), after))
    case None => None
  }

  lemma HeadFromLengths(u: Charset, s: Bytes, number: nat, dates: Dates, props: Bytes, after: Bytes)
    requires props != []
    requires ReadLengths(u, s, Lengths(0, 0, 0), {PropLength, TotalLength})
          == Some((Lengths(|props|, 0, |props|), props + after))
    ensures RevisionHead(u, s, number, dates) == Headed(number, MetaIn(u, props, dates), after)
  {
    assert (props + after)[..|props|] == props && (props + after)[|props|..] == after && props[..|props|] == props;
  }

  /** What follows the first line of a printed revision is read as its metadata. */
  lemma HeadReads(u: Charset, r: Revision, dates: Dates, rest: Bytes)
    requires Faithful(u) && |RevisionProps(u, r.meta, dates)| < U64_RANGE
    ensures var props := RevisionProps(u, r.meta, dates);
            var s := Field(u, PropLength, Digits(|props|)) + (Field(u, TotalLength, Digits(|props|))
                       + ([NEWLINE] + (props + ([NEWLINE] + rest))));
            RevisionHead(u, s, r.number, dates) == Headed(r.number, ReadMeta(u, r.meta, dates), [NEWLINE] + rest)
  {
    var props, after := RevisionProps(u, r.meta, dates), [NEWLINE] + rest;
    var s := Field(u, PropLength, Digits(|props|)) + (Field(u, TotalLength, Digits(|props|))
               + ([NEWLINE] + (props + after)));
    HeadLengthsRead(u, |props|, props + after);
    HeadFromLengths(u, s, r.number, dates, props, after);
  }

  // -------------------------------------------------------------------- nodes

  /** What a reader makes of a node: the path without outer whitespace, no properties. */
  function SeenNode(n: Node): Node {
    n.(path := Stripped(n.path), executable := false)
  }

  lemma NamesReadBack(k: NodeKind, a: NodeAction)
    ensures KindNamed(Stripped(KindName(k))) == Some(k) && '\n' !in KindName(k)
    ensures ActionNamed(Stripped(ActionName(a))) == Some(a) && '\n' !in ActionName(a)
  {
  }

  lemma LineDescribes(u: Charset, tool: Tool, s: Bytes, line: string, n: Node)
    requires s != [] && TextLine(u, s) == Some(line) && HeaderIn(line).Some? && HeaderIn(line).value !in LENGTHS
    ensures NodeHeaders(u, tool, s, n) == NodeHeaders(u, tool, AfterLine(s), Described(tool, n, line))
  {
  }

  lemma KindReads(u: Charset, tool: Tool, k: NodeKind, rest: Bytes, n: Node)
    requires Faithful(u)
    ensures NodeHeaders(u, tool, Field(u, KindHeader, KindName(k)) + rest, n)
         == NodeHeaders(u, tool, rest, n.(kind := Some(k)))
  {
    NamesReadBack(k, AddNode);
    FieldDescribes(u, tool, KindHeader, KindName(k), rest, n);
  }

  lemma ActionReads(u: Charset, tool: Tool, a: NodeAction, rest: Bytes, n: Node)
    requires Faithful(u)
    ensures NodeHeaders(u, tool, Field(u, ActionHeader, ActionName(a)) + rest, n)
         == NodeHeaders(u, tool, rest, n.(action := Some(a)))
  {
    NamesReadBack(FileNode, a);
    FieldDescribes(u, tool, ActionHeader, ActionName(a), rest, n);
  }

  lemma FieldDescribes(u: Charset, tool: Tool, h: Header, value: string, rest: Bytes, n: Node)
    requires Faithful(u) && '\n' !in value && h in {KindHeader, ActionHeader}
    ensures NodeHeaders(u, tool, Field(u, h, value) + rest, n)
         == NodeHeaders(u, tool, rest, if h == KindHeader then n.(kind := KindNamed(Stripped(value)))
                                       else n.(action := ActionNamed(Stripped(value))))
  {
    FieldReads(u, h, value, rest);
    HeaderDescribes(u, tool, Field(u, h, value) + rest, h, Stripped(value), rest, n);
  }

  lemma HeaderDescribes(u: Charset, tool: Tool, s: Bytes, h: Header, value: string, rest: Bytes, n: Node)
    requires HeaderFirst(u, s, h, value, rest) && h in {KindHeader, ActionHeader}
    ensures NodeHeaders(u, tool, s, n)
         == NodeHeaders(u, tool, rest, if h == KindHeader then n.(kind := KindNamed(value))
                                       else n.(action := ActionNamed(value)))
  {
    LineDescribes(u, tool, s, TextLine(u, s).value, n);
  }

  lemma NodeEndReads(tool: Tool, rest: Bytes)
    ensures AfterLine(NodeEnd(tool, rest)) == match tool case Admin => rest case WebDav => [NEWLINE] + rest
  {
    LineEnds([], rest);
    LineEnds([], [NEWLINE] + rest);
    assert [] + [NEWLINE] + rest == [NEWLINE] + rest;
    assert [] + [NEWLINE] + ([NEWLINE] + rest) == [NEWLINE] + ([NEWLINE] + rest);
  }

  /** What is left for the top level after a printed node with content. */
  function Leftover(tool: Tool, rest: Bytes): Bytes {
    match tool
    case Admin => rest
    case WebDav => [NEWLINE] + rest
  }

  lemma ChecksumSkipped(
    u: Charset, tool: Tool, content: Bytes, md5: Bytes -> string, rest: Bytes, l: Lengths, admitted: set<Header>)
    requires Faithful(u) && '\n' !in md5(content) && admitted <= LENGTHS
    ensures ReadLengths(u, Checksum(u, tool, content, md5) + rest, l, admitted) == ReadLengths(u, rest, l, admitted)
  {
    match tool {
      case Admin => assert [] + rest == rest;
      case WebDav => OtherFieldSkipped(u, ChecksumHeader, md5(content), rest, l, admitted);
    }
  }

  /** The remaining lengths of a file, with or without a line in between that does not count. */
  lemma LengthsInOrder(
    u: Charset, s: Bytes, s1: Bytes, s2: Bytes, s3: Bytes, s4: Bytes, l: Lengths, text: nat, total: nat,
    admitted: set<Header>)
    requires {TextLength, TotalLength} <= admitted
    requires ReadLengths(u, s, l, admitted) == ReadLengths(u, s1, WithNumber(l, TextLength, text, admitted), admitted)
    requires forall k :: ReadLengths(u, s1, k, admitted) == ReadLengths(u, s2, k, admitted)
    requires forall k ::
               ReadLengths(u, s2, k, admitted)
               == ReadLengths(u, s3, WithNumber(k, TotalLength, total, admitted), admitted)
    requires forall k :: ReadLengths(u, s3, k, admitted) == Some((k, s4))
    ensures ReadLengths(u, s, l, admitted) == Some((Lengths(l.props, text, total), s4))
  {
  }

  /** The lengths of a printed file, read by either program. */
  lemma FileLengthsRead(
    u: Charset, writer: Tool, reader: Tool, p: nat, content: Bytes, md5: Bytes -> string, rest: Bytes)
    requires Faithful(u) && '\n' !in md5(content) && p + |content| < U64_RANGE
    ensures ReadLengths(u, Field(u, TextLength, Digits(|content|)) + (Checksum(u, writer, content, md5)
                             + (Field(u, TotalLength, Digits(p + |content|)) + ([NEWLINE] + rest))),
                        Lengths(p, 0, 0), AdmittedAfter(reader, PropLength))
         == Some((Lengths(p, |content|, p + |content|), rest))
  {
    var c, admitted := |content|, AdmittedAfter(reader, PropLength);
    var s3 := [NEWLINE] + rest;
    var s2 := Field(u, TotalLength, Digits(p + c)) + s3;
    var s1 := Checksum(u, writer, content, md5) + s2;
    LengthReads(u, TextLength, c, s1, Lengths(p, 0, 0), admitted);
    forall k ensures ReadLengths(u, s1, k, admitted) == ReadLengths(u, s2, k, admitted) {
      ChecksumSkipped(u, writer, content, md5, s2, k, admitted);
    }
    forall k
      ensures ReadLengths(u, s2, k, admitted)
           == ReadLengths(u, s3, WithNumber(k, TotalLength, p + c, admitted), admitted)
    {
      LengthReads(u, TotalLength, p + c, s3, k, admitted);
    }
    forall k ensures ReadLengths(u, s3, k, admitted) == Some((k, rest)) { LengthsEnd(u, rest, k, admitted); }
    LengthsInOrder(u, Field(u, TextLength, Digits(c)) + s1, s1, s2, s3, rest, Lengths(p, 0, 0), c, p + c, admitted);
  }

  lemma DirLengthsRead(u: Charset, reader: Tool, n: nat, rest: Bytes)
    requires Faithful(u) && n < U64_RANGE
    ensures ReadLengths(u, Field(u, TotalLength, Digits(n)) + ([NEWLINE] + rest), Lengths(n, 0, 0),
                        AdmittedAfter(reader, PropLength))
         == Some((Lengths(n, 0, n), rest))
  {
    var admitted := AdmittedAfter(reader, PropLength);
    assert WithNumber(Lengths(n, 0, 0), TotalLength, n, admitted) == Lengths(n, 0, n);
    LengthReads(u, TotalLength, n, [NEWLINE] + rest, Lengths(n, 0, 0), admitted);
    LengthsEnd(u, rest, Lengths(n, 0, n), admitted);
  }

  lemma BlockReads(writer: Tool, reader: Tool, props: Bytes, content: Bytes, rest: Bytes)
    requires props != []
    ensures ContentAt(reader, PropLength, Lengths(|props|, |content|, |props| + |content|),
                      props + (content + NodeEnd(writer, rest)))
         == Some((content, Leftover(writer, rest)))
  {
    BlockSplits(props, content, NodeEnd(writer, rest));
    NodeEndReads(writer, rest);
  }

  lemma BlockSplits(props: Bytes, content: Bytes, more: Bytes)
    ensures var s := props + (content + more);
            && s[..|props| + |content|] == props + content && s[|props| + |content|..] == more
            && (props + content)[|props|..|props| + |content|] == content
  {
  }

  /** From the property length on. */
  lemma ContentFromLengths(u: Charset, reader: Tool, s: Bytes, p: nat, s1: Bytes, l: Lengths, body: Bytes,
                           content: Bytes, left: Bytes, seen: Node)
    requires HeaderFirst(u, s, PropLength, Digits(p), s1) && Number(Digits(p)) == p
    requires ReadLengths(u, s1, Lengths(p, 0, 0), AdmittedAfter(reader, PropLength)) == Some((l, body))
    requires ContentAt(reader, PropLength, l, body) == Some((content, left))
    ensures NodeHeaders(u, reader, s, seen) == Some((seen.(content := content), left))
  {
    assert WithNumber(Lengths(0, 0, 0), PropLength, p, LENGTHS) == Lengths(p, 0, 0);
  }

  /** The lengths and the block of a file. */
  lemma ContentInParts(
    u: Charset, writer: Tool, reader: Tool, p: nat, content: Bytes, md5: Bytes -> string, body: Bytes, left: Bytes,
    seen: Node)
    requires Faithful(u) && '\n' !in md5(content) && p + |content| < U64_RANGE
    requires ContentAt(reader, PropLength, Lengths(p, |content|, p + |content|), body) == Some((content, left))
    ensures NodeHeaders(u, reader, PrintedLengths(u, writer, p, content, md5, body), seen)
         == Some((seen.(content := content), left))
  {
    var s1 := Field(u, TextLength, Digits(|content|)) + (Checksum(u, writer, content, md5)
                + (Field(u, TotalLength, Digits(p + |content|)) + ([NEWLINE] + body)));
    NumberFieldReads(u, PropLength, p, s1);
    FileLengthsRead(u, writer, reader, p, content, md5, body);
    ContentFromLengths(u, reader, Field(u, PropLength, Digits(p)) + s1, p, s1, Lengths(p, |content|, p + |content|),
      body, content, left, seen);
  }

  /** Lengths in front of any body: what is read is what the body holds. */
  lemma ContentInBody(
    u: Charset, writer: Tool, reader: Tool, p: nat, content: Bytes, md5: Bytes -> string, body: Bytes, left: Bytes,
    seen: Node)
    ensures Faithful(u) && '\n' !in md5(content) && p + |content| < U64_RANGE
            && ContentAt(reader, PropLength, Lengths(p, |content|, p + |content|), body) == Some((content, left)) ==>
              NodeHeaders(u, reader, PrintedLengths(u, writer, p, content, md5, body), seen)
              == Some((seen.(content := content), left))
  {
    if Faithful(u) && '\n' !in md5(content) && p + |content| < U64_RANGE
       && ContentAt(reader, PropLength, Lengths(p, |content|, p + |content|), body) == Some((content, left)) {
      ContentInParts(u, writer, reader, p, content, md5, body, left, seen);
    }
  }

  lemma BlockAfterLengths(
    u: Charset, writer: Tool, reader: Tool, props: Bytes, content: Bytes, md5: Bytes -> string, rest: Bytes, seen: Node)
    requires Faithful(u) && props != [] && '\n' !in md5(content) && |props| + |content| < U64_RANGE
    ensures NodeHeaders(u, reader, PrintedLengths(u, writer, |props|, content, md5,
                                                  props + (content + NodeEnd(writer, rest))), seen)
         == Some((seen.(content := content), Leftover(writer, rest)))
  {
    var body, left := props + (content + NodeEnd(writer, rest)), Leftover(writer, rest);
    assert ContentAt(reader, PropLength, Lengths(|props|, |content|, |props| + |content|), body)
        == Some((content, left)) by {
      BlockReads(writer, reader, props, content, rest);
    }
    ContentInBody(u, writer, reader, |props|, content, md5, body, left, seen);
  }

  lemma ContentReads(
    u: Charset, writer: Tool, reader: Tool, props: Bytes, content: Bytes, md5: Bytes -> string, rest: Bytes, seen: Node)
    requires Faithful(u) && props != [] && '\n' !in md5(content) && |props| + |content| < U64_RANGE
    ensures NodeHeaders(u, reader, PrintedContent(u, writer, props, content, md5, rest), seen)
         == Some((seen.(content := content), Leftover(writer, rest)))
  {
    BlockAfterLengths(u, writer, reader, props, content, md5, rest, seen);
  }

  lemma DirContentReads(u: Charset, writer: Tool, reader: Tool, rest: Bytes, seen: Node)
    requires Faithful(u)
    ensures NodeHeaders(u, reader, PrintedDir(u, writer, rest), seen)
         == Some((seen.(content := []), Leftover(writer, rest)))
  {
    DirBlockReads(writer, reader, rest);
    DirInParts(u, reader, ENDLINE + NodeEnd(writer, rest), Leftover(writer, rest), seen);
  }

  lemma DirBlockReads(writer: Tool, reader: Tool, rest: Bytes)
    ensures ContentAt(reader, PropLength, Lengths(|ENDLINE|, 0, |ENDLINE|), ENDLINE + NodeEnd(writer, rest))
         == Some(([], Leftover(writer, rest)))
  {
    assert [] + NodeEnd(writer, rest) == NodeEnd(writer, rest);
    BlockReads(writer, reader, ENDLINE, [], rest);
  }

  /** The lengths of a directory, in front of its block. */
  lemma DirInParts(u: Charset, reader: Tool, body: Bytes, left: Bytes, seen: Node)
    requires Faithful(u)
    requires ContentAt(reader, PropLength, Lengths(|ENDLINE|, 0, |ENDLINE|), body) == Some(([], left))
    ensures NodeHeaders(u, reader, Field(u, PropLength, Digits(|ENDLINE|)) + (Field(u, TotalLength, Digits(|ENDLINE|))
                          + ([NEWLINE] + body)), seen)
         == Some((seen.(content := []), left))
  {
    var n := |ENDLINE|;
    var s1 := Field(u, TotalLength, Digits(n)) + ([NEWLINE] + body);
    NumberFieldReads(u, PropLength, n, s1);
    DirLengthsRead(u, reader, n, body);
    ContentFromLengths(u, reader, Field(u, PropLength, Digits(n)) + s1, n, s1, Lengths(n, 0, n), body, [],
      left, seen);
  }

  // ---------------------------------------------------------- nodes, revisions

  /** A node the format can carry. */
  predicate CarriedNode(u: Charset, writer: Tool, n: Node, md5: Bytes -> string) {
    && Printable(n) && '\n' !in n.path && '\n' !in md5(n.content)
    && |NodeProps(u, writer, n.executable)| + |n.content| < U64_RANGE
  }

  lemma NodeAtTop(
    u: Charset, reader: Tool, s: Bytes, path: Path, s1: Bytes, n: Node, after: Bytes, current: Option<Revision>,
    dates: Dates)
    requires HeaderFirst(u, s, PathHeader, path, s1)
    requires NodeHeaders(u, reader, s1, Blank(path)) == Some((n, after))
    ensures Parsed(u, reader, s, current, dates) == Parsed(u, reader, after, WithNode(current, n), dates)
  {
  }

  lemma EmptyLineAtTop(u: Charset, reader: Tool, rest: Bytes, current: Option<Revision>, dates: Dates)
    requires Faithful(u)
    ensures Parsed(u, reader, [NEWLINE] + rest, current, dates) == Parsed(u, reader, rest, current, dates)
  {
    EmptyLineReads(u, rest);
  }

  lemma DeletionReads(u: Charset, reader: Tool, path: Path, rest: Bytes, current: Option<Revision>, dates: Dates)
    requires Faithful(u) && '\n' !in path
    ensures Parsed(u, reader, Field(u, PathHeader, path) + (Field(u, ActionHeader, "delete") + ([NEWLINE] + rest)),
                   current, dates)
         == Parsed(u, reader, rest, WithNode(current, Blank(Stripped(path)).(action := Some(DeleteNode))), dates)
  {
    var blank, s2 := Blank(Stripped(path)), [NEWLINE] + rest;
    var s1 := Field(u, ActionHeader, "delete") + s2;
    FieldReads(u, PathHeader, path, s1);
    ActionReads(u, reader, DeleteNode, s2, blank);
    NodeHeadersEnd(u, reader, rest, blank.(action := Some(DeleteNode)));
    NodeAtTop(u, reader, Field(u, PathHeader, path) + s1, Stripped(path), s1, blank.(action := Some(DeleteNode)), rest,
      current, dates);
  }

  lemma NodeHeadersEnd(u: Charset, reader: Tool, rest: Bytes, n: Node)
    requires Faithful(u)
    ensures NodeHeaders(u, reader, [NEWLINE] + rest, n) == Some((n, rest))
  {
    EmptyLineReads(u, rest);
  }

  /** The headers of an upsert in front of a content part that reads as `n.content`. */
  lemma UpsertReads(u: Charset, reader: Tool, n: Node, s3: Bytes, after: Bytes, current: Option<Revision>, dates: Dates)
    requires Faithful(u) && '\n' !in n.path && n.kind.Some? && n.action.Some? && n.copy == NOT_COPIED
    requires NodeHeaders(u, reader, s3, Blank(Stripped(n.path)).(kind := n.kind, action := n.action))
          == Some((SeenNode(n), after))
    ensures Parsed(u, reader, Field(u, PathHeader, n.path) + (Field(u, KindHeader, KindName(n.kind.value))
                                + (Field(u, ActionHeader, ActionName(n.action.value)) + s3)), current, dates)
         == Parsed(u, reader, after, WithNode(current, SeenNode(n)), dates)
  {
    var blank := Blank(Stripped(n.path));
    var s2 := Field(u, ActionHeader, ActionName(n.action.value)) + s3;
    var s1 := Field(u, KindHeader, KindName(n.kind.value)) + s2;
    FieldReads(u, PathHeader, n.path, s1);
    KindReads(u, reader, n.kind.value, s2, blank);
    ActionReads(u, reader, n.action.value, s3, blank.(kind := n.kind));
    NodeAtTop(u, reader, Field(u, PathHeader, n.path) + s1, Stripped(n.path), s1, SeenNode(n), after, current, dates);
  }

  lemma LeftoverSkipped(u: Charset, writer: Tool, reader: Tool, rest: Bytes, current: Option<Revision>, dates: Dates)
    requires Faithful(u)
    ensures Parsed(u, reader, Leftover(writer, rest), current, dates) == Parsed(u, reader, rest, current, dates)
  {
    if writer.WebDav? { EmptyLineAtTop(u, reader, rest, current, dates); }
  }

  /** A printed node is read back, whoever printed it and whoever reads it. */
  lemma NodeReads(
    u: Charset, writer: Tool, reader: Tool, n: Node, md5: Bytes -> string, rest: Bytes, current: Option<Revision>,
    dates: Dates)
    requires Faithful(u) && CarriedNode(u, writer, n, md5)
    ensures Parsed(u, reader, PrintedNode(u, writer, n, md5, rest), current, dates)
         == Parsed(u, reader, rest, WithNode(current, SeenNode(n)), dates)
  {
    if n.action.value.DeleteNode? {
      DeletionReads(u, reader, n.path, rest, current, dates);
    } else {
      var props := NodeProps(u, writer, n.executable);
      var seen := Blank(Stripped(n.path)).(kind := n.kind, action := n.action);
      if n.kind.value.FileNode? {
        ContentReads(u, writer, reader, props, n.content, md5, rest, seen);
        UpsertReads(u, reader, n, PrintedContent(u, writer, props, n.content, md5, rest), Leftover(writer, rest),
          current, dates);
      } else {
        DirContentReads(u, writer, reader, rest, seen);
        UpsertReads(u, reader, n, PrintedDir(u, writer, rest), Leftover(writer, rest), current, dates);
      }
      LeftoverSkipped(u, writer, reader, rest, WithNode(current, SeenNode(n)), dates);
    }
  }

  function SeenNodes(ns: seq<Node>): seq<Node> {
    if ns == [] then [] else [SeenNode(ns[0])] + SeenNodes(ns[1..])
  }

  predicate CarriedNodes(u: Charset, writer: Tool, ns: seq<Node>, md5: Bytes -> string) {
    forall i :: 0 <= i < |ns| ==> CarriedNode(u, writer, ns[i], md5)
  }

  lemma {:induction false} NodesRead(
    u: Charset, writer: Tool, reader: Tool, ns: seq<Node>, md5: Bytes -> string, rest: Bytes, r: Revision, dates: Dates)
    requires Faithful(u) && CarriedNodes(u, writer, ns, md5)
    ensures Parsed(u, reader, PrintedNodes(u, writer, ns, md5, rest), Some(r), dates)
         == Parsed(u, reader, rest, Some(r.(nodes := r.nodes + SeenNodes(ns))), dates)
  {
    if ns == [] {
      assert r.nodes + [] == r.nodes;
    } else {
      var first := r.(nodes := r.nodes + [SeenNode(ns[0])]);
      SeenNodesSplit(r.nodes, ns);
      CarriedSplits(u, writer, ns, md5);
      NodesRead(u, writer, reader, ns[1..], md5, rest, first, dates);
      OneMoreNode(u, writer, reader, ns, md5, rest,
        Parsed(u, reader, rest, Some(r.(nodes := r.nodes + SeenNodes(ns))), dates), r, dates);
    }
  }

  lemma SeenNodesSplit(before: seq<Node>, ns: seq<Node>)
    requires ns != []
    ensures before + [SeenNode(ns[0])] + SeenNodes(ns[1..]) == before + SeenNodes(ns)
  {
  }

  lemma CarriedSplits(u: Charset, writer: Tool, ns: seq<Node>, md5: Bytes -> string)
    requires CarriedNodes(u, writer, ns, md5) && ns != []
    ensures CarriedNode(u, writer, ns[0], md5) && CarriedNodes(u, writer, ns[1..], md5)
  {
  }

  lemma OneMoreNode(
    u: Charset, writer: Tool, reader: Tool, ns: seq<Node>, md5: Bytes -> string, rest: Bytes, o: Outcome, r: Revision,
    dates: Dates)
    requires Faithful(u) && ns != [] && AllPrintable(ns) && CarriedNode(u, writer, ns[0], md5)
    requires Parsed(u, reader, PrintedNodes(u, writer, ns[1..], md5, rest),
                    Some(r.(nodes := r.nodes + [SeenNode(ns[0])])), dates) == o
    ensures Parsed(u, reader, PrintedNodes(u, writer, ns, md5, rest), Some(r), dates) == o
  {
    NodeThenMore(u, writer, reader, ns[0], md5, PrintedNodes(u, writer, ns[1..], md5, rest), o, r, dates);
  }

  lemma NodeThenMore(
    u: Charset, writer: Tool, reader: Tool, n: Node, md5: Bytes -> string, more: Bytes, o: Outcome, r: Revision,
    dates: Dates)
    requires Faithful(u) && CarriedNode(u, writer, n, md5)
    requires Parsed(u, reader, more, Some(r.(nodes := r.nodes + [SeenNode(n)])), dates) == o
    ensures Parsed(u, reader, PrintedNode(u, writer, n, md5, more), Some(r), dates) == o
  {
    NodeReads(u, writer, reader, n, md5, more, Some(r), dates);
  }

  /** A revision the format can carry; author and log message may be any text. */
  predicate Carried(u: Charset, writer: Tool, r: Revision, dates: Dates, md5: Bytes -> string) {
    r.number < U64_RANGE && |RevisionProps(u, r.meta, dates)| < U64_RANGE && CarriedNodes(u, writer, r.nodes, md5)
  }

  /** What follows a revision's head, if that was read. */
  function AfterHead(
    u: Charset, reader: Tool, head: Option<(Revision, Bytes)>, current: Option<Revision>, dates: Dates): Outcome
  {
    match head
    case None => Outcome(Flushed(current), false)
    case Some((r, rest)) => After(Flushed(current), Parsed(u, reader, rest, Some(r), dates))
  }

  lemma HeadAtTop(
    u: Charset, reader: Tool, s: Bytes, number: nat, s1: Bytes, current: Option<Revision>, dates: Dates)
    requires HeaderFirst(u, s, RevisionHeader, Digits(number), s1) && Number(Digits(number)) == number
    ensures Parsed(u, reader, s, current, dates)
         == AfterHead(u, reader, RevisionHead(u, s1, number, dates), current, dates)
  {
  }

  /** A revision's first line and properties; an empty line and its nodes follow. */
  lemma RevisionStarts(
    u: Charset, reader: Tool, r: Revision, dates: Dates, nodes: Bytes, current: Option<Revision>)
    requires Faithful(u) && r.number < U64_RANGE && |RevisionProps(u, r.meta, dates)| < U64_RANGE
    ensures Parsed(u, reader, PrintedHead(u, r, dates, nodes), current, dates)
         == AfterHead(u, reader, Headed(r.number, ReadMeta(u, r.meta, dates), [NEWLINE] + nodes), current, dates)
  {
    var props := RevisionProps(u, r.meta, dates);
    var s1 := Field(u, PropLength, Digits(|props|)) + (Field(u, TotalLength, Digits(|props|))
                + ([NEWLINE] + (props + ([NEWLINE] + nodes))));
    NumberFieldReads(u, RevisionHeader, r.number, s1);
    HeadReads(u, r, dates, nodes);
    HeadAtTop(u, reader, Field(u, RevisionHeader, Digits(r.number)) + s1, r.number, s1, current, dates);
  }

  /** A revision as a reader hands it on, with the metadata it made of it. */
  function SeenWith(r: Revision, meta: Meta): Revision {
    Revision(r.number, meta, SeenNodes(r.nodes))
  }

  lemma RevisionReads(
    u: Charset, writer: Tool, reader: Tool, r: Revision, dates: Dates, md5: Bytes -> string, rest: Bytes,
    current: Option<Revision>)
    requires Faithful(u) && Carried(u, writer, r, dates, md5)
    ensures var read := ReadMeta(u, r.meta, dates);
            Parsed(u, reader, PrintedHead(u, r, dates, PrintedNodes(u, writer, r.nodes, md5, rest)), current, dates)
            == if read.None? then Outcome(Flushed(current), false)
               else After(Flushed(current), Parsed(u, reader, rest, Some(SeenWith(r, read.value)), dates))
  {
    var nodes, read := PrintedNodes(u, writer, r.nodes, md5, rest), ReadMeta(u, r.meta, dates);
    RevisionStarts(u, reader, r, dates, nodes, current);
    if read.Some? {
      var seen := Revision(r.number, read.value, []);
      EmptyLineAtTop(u, reader, nodes, Some(seen), dates);
      NodesRead(u, writer, reader, r.nodes, md5, rest, seen, dates);
      assert [] + SeenNodes(r.nodes) == SeenNodes(r.nodes);
    }
  }

  /** What a reader hands on of printed revisions: all, or those before the first it does not survive. */
  function ReadOutcome(u: Charset, rs: seq<Revision>, dates: Dates): Outcome {
    if rs == [] then Outcome([], true)
    else
      match ReadMeta(u, rs[0].meta, dates)
      case None => Outcome([], false)
      case Some(meta) => After([SeenWith(rs[0], meta)], ReadOutcome(u, rs[1..], dates))
  }

  predicate AllCarried(u: Charset, writer: Tool, rs: seq<Revision>, dates: Dates, md5: Bytes -> string) {
    forall i :: 0 <= i < |rs| ==> Carried(u, writer, rs[i], dates, md5)
  }

  lemma {:induction false} RevisionsRead(
    u: Charset, writer: Tool, reader: Tool, rs: seq<Revision>, dates: Dates, md5: Bytes -> string,
    current: Option<Revision>)
    requires Faithful(u) && AllCarried(u, writer, rs, dates, md5)
    ensures Parsed(u, reader, PrintedRevisions(u, writer, rs, dates, md5), current, dates)
         == After(Flushed(current), ReadOutcome(u, rs, dates))
    decreases |rs|
  {
    if rs == [] {
      assert Flushed(current) + [] == Flushed(current);
    } else {
      var read := ReadMeta(u, rs[0].meta, dates);
      AllCarriedSplits(u, writer, rs, dates, md5);
      if read.Some? {
        RevisionsRead(u, writer, reader, rs[1..], dates, md5, Some(SeenWith(rs[0], read.value)));
      }
      OneMoreRevision(u, writer, reader, rs, dates, md5, current);
    }
  }

  lemma AllCarriedSplits(u: Charset, writer: Tool, rs: seq<Revision>, dates: Dates, md5: Bytes -> string)
    requires AllCarried(u, writer, rs, dates, md5) && rs != []
    ensures Carried(u, writer, rs[0], dates, md5) && AllCarried(u, writer, rs[1..], dates, md5)
  {
  }

  lemma OneMoreRevision(
    u: Charset, writer: Tool, reader: Tool, rs: seq<Revision>, dates: Dates, md5: Bytes -> string,
    current: Option<Revision>)
    requires Faithful(u) && rs != [] && AllCarried(u, writer, rs, dates, md5)
    requires AllCarried(u, writer, rs[1..], dates, md5)
    requires var read := ReadMeta(u, rs[0].meta, dates);
             read.Some? ==>
               Parsed(u, reader, PrintedRevisions(u, writer, rs[1..], dates, md5), Some(SeenWith(rs[0], read.value)),
                      dates)
               == After([SeenWith(rs[0], read.value)], ReadOutcome(u, rs[1..], dates))
    ensures Parsed(u, reader, PrintedRevisions(u, writer, rs, dates, md5), current, dates)
         == After(Flushed(current), ReadOutcome(u, rs, dates))
  {
    RevisionReads(u, writer, reader, rs[0], dates, md5, PrintedRevisions(u, writer, rs[1..], dates, md5), current);
    assert Flushed(current) + [] == Flushed(current);
  }

  lemma OtherFieldAtTop(u: Charset, reader: Tool, h: Header, value: string, rest: Bytes, dates: Dates)
    requires Faithful(u) && '\n' !in value && h != RevisionHeader && h != PathHeader
    ensures Parsed(u, reader, Field(u, h, value) + rest, None, dates) == Parsed(u, reader, rest, None, dates)
  {
    FieldReads(u, h, value, rest);
  }

  /**
   * Either program reads back what either program printed: the same revisions and nodes
   * in order, with their exact contents, up to what the readers make of each of them. If
   * it does not survive a revision's properties, it has handed on all revisions before.
   */
  lemma DumpReads(u: Charset, writer: Tool, reader: Tool, version: string, uuid: Option<string>, rs: seq<Revision>,
                  dates: Dates, md5: Bytes -> string)
    requires Faithful(u) && AllCarried(u, writer, rs, dates, md5) && '\n' !in version && '\n' !in uuid.GetOr("")
    ensures Parsed(u, reader, PrintedDump(u, writer, version, uuid, rs, dates, md5), None, dates)
         == ReadOutcome(u, rs, dates)
  {
    var body := PrintedRevisions(u, writer, rs, dates, md5);
    var named := if uuid.Some? then Field(u, UuidHeader, uuid.value) + ([NEWLINE] + body) else body;
    OtherFieldAtTop(u, reader, VersionHeader, version, [NEWLINE] + named, dates);
    EmptyLineAtTop(u, reader, named, None, dates);
    if uuid.Some? {
      OtherFieldAtTop(u, reader, UuidHeader, uuid.value, [NEWLINE] + body, dates);
      EmptyLineAtTop(u, reader, body, None, dates);
    }
    RevisionsRead(u, writer, reader, rs, dates, md5, None);
    AfterNothing(ReadOutcome(u, rs, dates));
  }

  /** The revision at `i` comes with the metadata that was read. */
  function SeenRevision(u: Charset, r: Revision, dates: Dates): Revision {
    SeenWith(r, ReadMeta(u, r.meta, dates).GetOr(r.meta))
  }

  predicate Readable(u: Charset, r: Revision, dates: Dates) {
    ReadMeta(u, r.meta, dates).Some?
  }

  /** Revision by revision: those before the first unreadable one, in order. */
  lemma {:induction false} OutcomeAt(u: Charset, rs: seq<Revision>, dates: Dates, i: nat)
    requires i < |ReadOutcome(u, rs, dates).revisions|
    ensures i < |rs| && Readable(u, rs[i], dates)
    ensures ReadOutcome(u, rs, dates).revisions[i] == SeenRevision(u, rs[i], dates)
  {
    OutcomeStep(u, rs, dates);
    if i > 0 { OutcomeAt(u, rs[1..], dates, i - 1); }
  }

  lemma OutcomeStep(u: Charset, rs: seq<Revision>, dates: Dates)
    requires ReadOutcome(u, rs, dates).revisions != []
    ensures rs != [] && Readable(u, rs[0], dates)
    ensures ReadOutcome(u, rs, dates).revisions
         == [SeenRevision(u, rs[0], dates)] + ReadOutcome(u, rs[1..], dates).revisions
  {
  }

  lemma {:induction false} OutcomeEnds(u: Charset, rs: seq<Revision>, dates: Dates)
    ensures var o := ReadOutcome(u, rs, dates);
            && |o.revisions| <= |rs| && (o.complete <==> |o.revisions| == |rs|)
            && (!o.complete ==> !Readable(u, rs[|o.revisions|], dates))
  {
    if rs != [] && Readable(u, rs[0], dates) {
      OutcomeEnds(u, rs[1..], dates);
      OneMoreHandedOn(u, rs, dates, |ReadOutcome(u, rs[1..], dates).revisions|);
    }
  }

  lemma OneMoreHandedOn(u: Charset, rs: seq<Revision>, dates: Dates, n: nat)
    requires rs != [] && Readable(u, rs[0], dates) && n == |ReadOutcome(u, rs[1..], dates).revisions| < |rs|
    ensures |ReadOutcome(u, rs, dates).revisions| == n + 1
    ensures ReadOutcome(u, rs, dates).complete == ReadOutcome(u, rs[1..], dates).complete
    ensures n + 1 < |rs| ==> rs[n + 1] == rs[1..][n]
  {
  }

  /** Everything is handed on if and only if the reader survives every property block. */
  lemma CompleteIff(u: Charset, rs: seq<Revision>, dates: Dates)
    ensures ReadOutcome(u, rs, dates).complete <==> forall i :: 0 <= i < |rs| ==> Readable(u, rs[i], dates)
  {
    var o := ReadOutcome(u, rs, dates);
    OutcomeEnds(u, rs, dates);
    forall i: nat | i < |o.revisions| ensures Readable(u, rs[i], dates) { OutcomeAt(u, rs, dates, i); }
  }

  /** A path a dump carries as it is. */
  predicate PlainPath(p: Path) {
    '\n' !in p && Stripped(p) == p
  }

  /** A node that comes back as it was. */
  predicate ExactNode(n: Node) {
    Stripped(n.path) == n.path && !n.executable
  }

  /** A revision that comes back as it was: exact metadata and exact nodes. */
  predicate ExactRevision(r: Revision, dates: Dates) {
    ExactMeta(r.meta, dates) && forall i :: 0 <= i < |r.nodes| ==> ExactNode(r.nodes[i])
  }

  lemma {:induction false} SeenNodesExact(ns: seq<Node>)
    ensures SeenNodes(ns) == ns <==> forall i :: 0 <= i < |ns| ==> ExactNode(ns[i])
  {
    if ns != [] {
      SeenNodesExact(ns[1..]);
      assert ns == [ns[0]] + ns[1..];
      assert SeenNodes(ns) == ns ==> SeenNodes(ns)[0] == ns[0] && SeenNodes(ns)[1..] == ns[1..];
    }
  }

  lemma SeenRevisionExact(u: Charset, r: Revision, dates: Dates)
    requires Faithful(u) && OneLine(dates.format(r.meta.timestamp)) && |RevisionProps(u, r.meta, dates)| < U64_RANGE
    ensures Readable(u, r, dates) && SeenRevision(u, r, dates) == r <==> ExactRevision(r, dates)
  {
    SeenNodesExact(r.nodes);
    MetaExactIff(u, r.meta, dates);
  }

  /** The format string of the date has no line break. */
  predicate OneLineDates(rs: seq<Revision>, dates: Dates) {
    forall i :: 0 <= i < |rs| ==> OneLine(dates.format(rs[i].meta.timestamp))
  }

  lemma {:induction false} OutcomeExactIff(
    u: Charset, writer: Tool, rs: seq<Revision>, dates: Dates, md5: Bytes -> string)
    requires Faithful(u) && AllCarried(u, writer, rs, dates, md5) && OneLineDates(rs, dates)
    ensures ReadOutcome(u, rs, dates) == Outcome(rs, true)
            <==> forall i :: 0 <= i < |rs| ==> ExactRevision(rs[i], dates)
  {
    if rs != [] {
      AllCarriedSplits(u, writer, rs, dates, md5);
      OutcomeExactIff(u, writer, rs[1..], dates, md5);
      assert Carried(u, writer, rs[0], dates, md5);
      SeenRevisionExact(u, rs[0], dates);
      FirstOfOutcome(u, rs, dates);
      AllExactSplits(rs, dates);
    }
  }

  lemma AllExactSplits(rs: seq<Revision>, dates: Dates)
    requires rs != []
    ensures (forall i :: 0 <= i < |rs| ==> ExactRevision(rs[i], dates))
       <==> ExactRevision(rs[0], dates) && forall i :: 0 <= i < |rs[1..]| ==> ExactRevision(rs[1..][i], dates)
  {
    assert rs == [rs[0]] + rs[1..];
  }

  lemma FirstOfOutcome(u: Charset, rs: seq<Revision>, dates: Dates)
    requires rs != []
    ensures ReadOutcome(u, rs, dates) == Outcome(rs, true)
            <==> Readable(u, rs[0], dates) && SeenRevision(u, rs[0], dates) == rs[0]
                 && ReadOutcome(u, rs[1..], dates) == Outcome(rs[1..], true)
  {
    var later := ReadOutcome(u, rs[1..], dates);
    if Readable(u, rs[0], dates) {
      var first := SeenRevision(u, rs[0], dates);
      assert ([first] + later.revisions)[0] == first && ([first] + later.revisions)[1..] == later.revisions;
      assert rs == [rs[0]] + rs[1..];
    }
  }

  /**
   * The bytes either program prints are read back by either as exactly the same list if and only
   * if every author is named, authors and messages are one line each, every date is one the reader
   * takes back, no path has whitespace around it and no file is executable.
   */
  lemma ExactlyReadBackIff(
    u: Charset, writer: Tool, reader: Tool, version: string, uuid: Option<string>, rs: seq<Revision>, dates: Dates,
    md5: Bytes -> string)
    requires Faithful(u) && AllCarried(u, writer, rs, dates, md5) && OneLineDates(rs, dates)
    requires '\n' !in version && '\n' !in uuid.GetOr("")
    ensures Parsed(u, reader, PrintedDump(u, writer, version, uuid, rs, dates, md5), None, dates) == Outcome(rs, true)
            <==> forall i :: 0 <= i < |rs| ==> ExactRevision(rs[i], dates)
  {
    DumpReads(u, writer, reader, version, uuid, rs, dates, md5);
    OutcomeExactIff(u, writer, rs, dates, md5);
  }
}
