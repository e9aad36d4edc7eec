// dsvn-admin's other reader: it keeps the whole dump as one list of entries.
module DumpInMemory {
  import opened ObjectModel
  import opened DumpFormat
  import opened DumpText
  import opened Utf8
  import opened DumpParser

  /** A node with the number of the revision it came in, or a revision without its nodes. */
  datatype Entry = NodeEntry(revision: nat, node: Node) | RevisionEntry(head: Revision)

  function Pushed(e: Option<Entry>): seq<Entry> {
    if e.Some? then [e.value] else []
  }

  function Preceded(first: seq<Entry>, r: Option<seq<Entry>>): Option<seq<Entry>> {
    match r
    case Some(es) => Some(first + es)
    case None => None
  }

  /** Entries still to come; a node is pushed when the next header shows up, a revision after its nodes. */
  function Entries(
    u: Charset, s: Bytes, node: Option<Entry>, rev: Option<Entry>, number: nat, dates: Dates): Option<seq<Entry>>
    decreases |s|
  {
    if s == [] then Some(Pushed(node) + Pushed(rev))
    else
      match TextLine(u, s)
      case None => None
      case Some(line) =>
        if HeaderIn(line) == Some(RevisionHeader) then
          var n := Number(HeaderValue(line));
          match RevisionHead(u, AfterLine(s), n, dates)
          case None => None
          case Some((r, rest)) =>
            Preceded(Pushed(node) + Pushed(rev), Entries(u, rest, None, Some(RevisionEntry(r)), n, dates))
        else if HeaderIn(line) == Some(PathHeader) then
          match NodeHeaders(u, Admin, AfterLine(s), Blank(HeaderValue(line)))
          case None => None
          case Some((n, rest)) =>
            Preceded(Pushed(node), Entries(u, rest, Some(NodeEntry(number, n)), rev, number, dates))
        else Entries(u, AfterLine(s), node, rev, number, dates)
  }

  lemma PrecededTwice(a: seq<Entry>, b: seq<Entry>, r: Option<seq<Entry>>)
    ensures Preceded(a, Preceded(b, r)) == Preceded(a + b, r) && Preceded([], r) == r
  {
    if r.Some? { assert a + (b + r.value) == a + b + r.value && [] + r.value == r.value; }
  }

  /** parse_dump_file */
  method ParseDumpFile(u: Charset, input: Bytes, dates: Dates) returns (r: Option<seq<Entry>>)
    ensures r == Entries(u, input, None, None, 0, dates)
  {
    var s, entries, number: nat := input, [], 0;
    var node: Option<Entry>, rev: Option<Entry> := None, None;
    PrecededTwice([], [], Entries(u, input, None, None, 0, dates));
    while s != []
      invariant Entries(u, input, None, None, 0, dates) == Preceded(entries, Entries(u, s, node, rev, number, dates))
      decreases |s|
    {
      var line := TextLine(u, s);
      if line.None? { return None; }
      s := AfterLine(s);
      var t := line.value;
      if HeaderIn(t) == Some(RevisionHeader) {
        number := Number(HeaderValue(t));
        var head := ParseRevisionHead(u, s, number, dates);
        if head.None? { return None; }
        s := head.value.1;
        PrecededTwice(entries, Pushed(node) + Pushed(rev),
          Entries(u, s, None, Some(RevisionEntry(head.value.0)), number, dates));
        entries := entries + (Pushed(node) + Pushed(rev));
        node, rev := None, Some(RevisionEntry(head.value.0));
      } else if HeaderIn(t) == Some(PathHeader) {
        var n := ParseNodeHeaders(u, Admin, s, HeaderValue(t));
        if n.None? { return None; }
        s := n.value.1;
        PrecededTwice(entries, Pushed(node), Entries(u, s, Some(NodeEntry(number, n.value.0)), rev, number, dates));
        entries := entries + Pushed(node);
        node := Some(NodeEntry(number, n.value.0));
      }
    }
    r := Some(entries + (Pushed(node) + Pushed(rev)));
  }

  // ---------------------------------------------------------------- agreement

  function NodeEntries(number: nat, ns: seq<Node>): seq<Entry> {
    if ns == [] then [] else NodeEntries(number, ns[..|ns| - 1]) + [NodeEntry(number, ns[|ns| - 1])]
  }

  /** A streamed revision as entries. */
  function EntriesOf(r: Revision): seq<Entry> {
    NodeEntries(r.number, r.nodes) + [RevisionEntry(r.(nodes := []))]
  }

  function AllEntries(rs: seq<Revision>): seq<Entry> {
    if rs == [] then [] else EntriesOf(rs[0]) + AllEntries(rs[1..])
  }

  /** The list reader in the middle of revision `r`: `pushed` of its nodes are in the list. */
  predicate Amid(r: Revision, pushed: seq<Entry>, node: Option<Entry>, rev: Option<Entry>) {
    pushed + Pushed(node) == NodeEntries(r.number, r.nodes) && rev == Some(RevisionEntry(r.(nodes := [])))
  }

  /** What the two readers make of the same input. */
  predicate Agree(pushed: seq<Entry>, list: Option<seq<Entry>>, streamed: Outcome) {
    && (list.Some? <==> streamed.complete)
    && (list.Some? ==> pushed + list.value == AllEntries(streamed.revisions))
  }

  lemma {:induction false} ReadersAgreeAmid(
    u: Charset, s: Bytes, r: Revision, pushed: seq<Entry>, node: Option<Entry>, rev: Option<Entry>, dates: Dates)
    requires Amid(r, pushed, node, rev)
    ensures Agree(pushed, Entries(u, s, node, rev, r.number, dates), Parsed(u, Admin, s, Some(r), dates))
    decreases |s|
  {
    var line := TextLine(u, s);
    if s == [] {
      assert pushed + (Pushed(node) + Pushed(rev)) == pushed + Pushed(node) + Pushed(rev);
      assert AllEntries([r]) == EntriesOf(r) + AllEntries([]);
    } else if line.None? {
    } else if HeaderIn(line.value) == Some(RevisionHeader) {
      var head := RevisionHead(u, AfterLine(s), Number(HeaderValue(line.value)), dates);
      if head.Some? {
        var (r2, rest) := head.value;
        ReadersAgreeAmid(u, rest, r2, [], None, Some(RevisionEntry(r2)), dates);
        RevisionPushed(r, pushed, node, rev, Entries(u, rest, None, Some(RevisionEntry(r2)), r2.number, dates),
          Parsed(u, Admin, rest, Some(r2), dates));
      }
    } else if HeaderIn(line.value) == Some(PathHeader) {
      var read := NodeHeaders(u, Admin, AfterLine(s), Blank(HeaderValue(line.value)));
      if read.Some? {
        var (n, rest) := read.value;
        var r2 := r.(nodes := r.nodes + [n]);
        assert r2.nodes[..|r.nodes|] == r.nodes;
        ReadersAgreeAmid(u, rest, r2, pushed + Pushed(node), Some(NodeEntry(r.number, n)), rev, dates);
        PrecededAgrees(pushed, Pushed(node), Entries(u, rest, Some(NodeEntry(r.number, n)), rev, r.number, dates),
          Parsed(u, Admin, rest, Some(r2), dates));
      }
    } else {
      ReadersAgreeAmid(u, AfterLine(s), r, pushed, node, rev, dates);
    }
  }

  lemma PrecededAgrees(a: seq<Entry>, b: seq<Entry>, list: Option<seq<Entry>>, streamed: Outcome)
    requires Agree(a + b, list, streamed)
    ensures Agree(a, Preceded(b, list), streamed)
  {
    if list.Some? { assert a + (b + list.value) == a + b + list.value; }
  }

  /** Finishing a revision: its last node and its own entry go into the list. */
  lemma RevisionPushed(
    r: Revision, pushed: seq<Entry>, node: Option<Entry>, rev: Option<Entry>, list: Option<seq<Entry>>,
    streamed: Outcome)
    requires Amid(r, pushed, node, rev) && Agree([], list, streamed)
    ensures Agree(pushed, Preceded(Pushed(node) + Pushed(rev), list), After([r], streamed))
  {
    if list.Some? {
      assert ([r] + streamed.revisions)[1..] == streamed.revisions;
      assert [] + list.value == list.value;
      assert pushed + (Pushed(node) + Pushed(rev) + list.value) == pushed + Pushed(node) + Pushed(rev) + list.value;
    }
  }

  /** The nodes before the first revision header, which the streaming reader drops. */
  function Orphans(u: Charset, s: Bytes): seq<Entry>
    decreases |s|
  {
    if s == [] || TextLine(u, s).None? then [] else
    var line := TextLine(u, s).value;
    if HeaderIn(line) == Some(RevisionHeader) then []
    else if HeaderIn(line) == Some(PathHeader) then
      match NodeHeaders(u, Admin, AfterLine(s), Blank(HeaderValue(line)))
      case None => []
      case Some((n, rest)) => [NodeEntry(0, n)] + Orphans(u, rest)
    else Orphans(u, AfterLine(s))
  }

  lemma RevisionStarts(u: Charset, s: Bytes, node: Option<Entry>, number: nat, r: Revision, rest: Bytes, dates: Dates)
    requires s != [] && TextLine(u, s).Some? && HeaderIn(TextLine(u, s).value) == Some(RevisionHeader)
    requires Number(HeaderValue(TextLine(u, s).value)) == number
    requires RevisionHead(u, AfterLine(s), number, dates) == Some((r, rest))
    ensures var list, streamed := Entries(u, s, node, None, 0, dates), Parsed(u, Admin, s, None, dates);
            && (list.Some? <==> streamed.complete)
            && (list.Some? ==> list.value == Pushed(node) + AllEntries(streamed.revisions))
  {
    ReadersAgreeAmid(u, rest, r, [], None, Some(RevisionEntry(r)), dates);
    var list := Entries(u, rest, None, Some(RevisionEntry(r)), number, dates);
    AfterNothing(Parsed(u, Admin, rest, Some(r), dates));
    if list.Some? { assert [] + list.value == list.value && Pushed(node) + [] == Pushed(node); }
  }

  lemma {:induction false} OrphansComeFirst(u: Charset, s: Bytes, node: Option<Entry>, dates: Dates)
    ensures var list, streamed := Entries(u, s, node, None, 0, dates), Parsed(u, Admin, s, None, dates);
            && (list.Some? <==> streamed.complete)
            && (list.Some? ==> list.value == Pushed(node) + (Orphans(u, s) + AllEntries(streamed.revisions)))
    decreases |s|
  {
    var line := TextLine(u, s);
    if s == [] || line.None? {
      assert AllEntries([]) == [];
    } else if HeaderIn(line.value) == Some(RevisionHeader) {
      var head := RevisionHead(u, AfterLine(s), Number(HeaderValue(line.value)), dates);
      if head.Some? {
        RevisionStarts(u, s, node, Number(HeaderValue(line.value)), head.value.0, head.value.1, dates);
        assert [] + AllEntries(Parsed(u, Admin, s, None, dates).revisions)
            == AllEntries(Parsed(u, Admin, s, None, dates).revisions);
      }
    } else if HeaderIn(line.value) == Some(PathHeader) {
      var read := NodeHeaders(u, Admin, AfterLine(s), Blank(HeaderValue(line.value)));
      if read.Some? {
        var orphan := NodeEntry(0, read.value.0);
        OrphansComeFirst(u, read.value.1, Some(orphan), dates);
        var later := AllEntries(Parsed(u, Admin, read.value.1, None, dates).revisions);
        assert [orphan] + (Orphans(u, read.value.1) + later) == [orphan] + Orphans(u, read.value.1) + later;
      }
    } else {
      OrphansComeFirst(u, AfterLine(s), node, dates);
    }
  }

  /**
   * Both readers accept the same inputs, and agree on one exactly when no node stands
   * before the first revision header.
   */
  lemma ReadersAgreeIff(u: Charset, s: Bytes, dates: Dates)
    ensures Entries(u, s, None, None, 0, dates).Some? <==> Parsed(u, Admin, s, None, dates).complete
    ensures Parsed(u, Admin, s, None, dates).complete ==>
              (Agree([], Entries(u, s, None, None, 0, dates), Parsed(u, Admin, s, None, dates))
               <==> Orphans(u, s) == [])
  {
    OrphansComeFirst(u, s, None, dates);
    var list, rest := Entries(u, s, None, None, 0, dates), AllEntries(Parsed(u, Admin, s, None, dates).revisions);
    if list.Some? {
      assert list.value == Orphans(u, s) + rest && [] + list.value == list.value;
      assert |list.value| == |Orphans(u, s)| + |rest|;
    }
  }
}
