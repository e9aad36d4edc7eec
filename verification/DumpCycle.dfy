// Dump, parse and load in one: from one store's files through bytes to another store.
module DumpCycle {
  import opened ObjectModel
  import opened Store
  import opened Repository
  import opened DumpFormat
  import opened DumpLoad
  import opened DumpRoundTrip
  import opened Utf8
  import opened DumpParser
  import opened DumpProperties
  import opened DumpReadBack
  import opened DumpWriter

  /** Loading makes no difference between what was printed and what is read back. */
  lemma SeenNodeLoadsAlike(loader: Tool, s: Store, n: Node)
    requires PlainPath(n.path)
    ensures LoadedNode(loader, s, SeenNode(n)) == LoadedNode(loader, s, n)
    ensures Stages(loader, SeenNode(n)) == Stages(loader, n)
  {
  }

  predicate PlainPaths(ns: seq<Node>) {
    forall i :: 0 <= i < |ns| ==> PlainPath(ns[i].path)
  }

  lemma {:induction false} SeenAppend(ns: seq<Node>, n: Node)
    ensures SeenNodes(ns + [n]) == SeenNodes(ns) + [SeenNode(n)]
  {
    if ns == [] {
      assert [n][1..] == [];
    } else {
      assert (ns + [n])[1..] == ns[1..] + [n];
      SeenAppend(ns[1..], n);
    }
  }

  lemma {:induction false} SeenNodesLoadAlike(loader: Tool, s: Store, ns: seq<Node>)
    requires PlainPaths(ns)
    ensures LoadedNodes(loader, s, SeenNodes(ns)) == LoadedNodes(loader, s, ns)
    ensures AnyStages(loader, SeenNodes(ns)) == AnyStages(loader, ns)
  {
    if ns != [] {
      var before, n := ns[..|ns| - 1], ns[|ns| - 1];
      assert ns == before + [n];
      SeenAppend(before, n);
      SeenNodesLoadAlike(loader, s, before);
      LoadedNodesAppend(loader, s, SeenNodes(before), SeenNode(n));
      SeenNodeLoadsAlike(loader, LoadedNodes(loader, s, before), n);
    }
  }

  lemma SeenRevisionLoadsAlike(u: Charset, loader: Tool, s: Store, r: Revision, dates: Dates)
    requires PlainPaths(r.nodes)
    ensures LoadedRevision(loader, s, SeenRevision(u, r, dates))
         == LoadedRevision(loader, s, r.(meta := ReadMeta(u, r.meta, dates).GetOr(r.meta)))
  {
    SeenNodesLoadAlike(loader, s, r.nodes);
  }

  /** The metadata a reader ends up with, revision by revision. */
  function SeenMetas(u: Charset, f: Files, dates: Dates): nat -> Meta {
    r => if r in f.commits then ReadMeta(u, f.commits[r].meta, dates).GetOr(f.commits[r].meta)
         else Meta("unknown", "", dates.now)
  }

  /** Two records that load alike into any store. */
  ghost predicate LoadAlike(loader: Tool, a: Revision, b: Revision) {
    forall s :: LoadedRevision(loader, s, a) == LoadedRevision(loader, s, b)
  }

  lemma {:induction false} ListsLoadAlike(loader: Tool, s: Store, a: seq<Revision>, b: seq<Revision>)
    requires |a| == |b| && forall i :: 0 <= i < |a| ==> LoadAlike(loader, a[i], b[i])
    ensures LoadedAll(loader, s, a) == LoadedAll(loader, s, b)
  {
    if a != [] {
      ListsLoadAlike(loader, s, a[..|a| - 1], b[..|b| - 1]);
      assert LoadAlike(loader, a[|a| - 1], b[|b| - 1]);
    }
  }

  ghost predicate AllPlain(rs: seq<Revision>) {
    forall i :: 0 <= i < |rs| ==> PlainPaths(rs[i].nodes)
  }

  /** The last revision that is loaded when the reader hands on `n` of them; revision 0 stages nothing. */
  function LastLoaded(n: nat): nat {
    if n == 0 then 0 else n - 1
  }

  lemma OneLoadsAlike(u: Charset, tool: Tool, loader: Tool, s: Store, dates: Dates, i: nat)
    requires Sound(s) && i <= s.files.head && PlainPaths(RevisionOf(tool, s, i).nodes)
    ensures LoadAlike(loader, SeenRevision(u, RevisionOf(tool, s, i), dates),
                      RevisionOf(tool, s, i).(meta := SeenMetas(u, s.files, dates)(i)))
  {
    var r := RevisionOf(tool, s, i);
    forall d
      ensures LoadedRevision(loader, d, SeenRevision(u, r, dates))
           == LoadedRevision(loader, d, r.(meta := SeenMetas(u, s.files, dates)(i)))
    {
      SeenRevisionLoadsAlike(u, loader, d, r, dates);
    }
  }

  /** The first records that are handed on load like the store's own. */
  lemma ReadBackLoadsAlike(
    u: Charset, tool: Tool, loader: Tool, s: Store, dates: Dates, timestamp: int, read: seq<Revision>)
    requires Sound(s) && AllPlain(RevisionsOf(tool, s, 0, s.files.head))
    requires read == ReadOutcome(u, RevisionsOf(tool, s, 0, s.files.head), dates).revisions
    requires |read| <= s.files.head + 1
    ensures LoadedAll(loader, Fresh(timestamp), read)
         == Reloaded(tool, loader, s, SeenMetas(u, s.files, dates), timestamp, LastLoaded(|read|))
  {
    var rs, metas, last := RevisionsOf(tool, s, 0, s.files.head), SeenMetas(u, s.files, dates), LastLoaded(|read|);
    if |read| == 0 {
      ReloadedStart(tool, loader, s, metas, timestamp);
    } else {
      var records := DumpRoundTrip.Records(tool, s, metas, last);
      RecordsAt(tool, s, metas, last, 0);
      forall i | 0 <= i < |read| ensures LoadAlike(loader, read[i], records[i]) {
        OutcomeAt(u, rs, dates, i);
        RecordsAt(tool, s, metas, last, i);
        OneLoadsAlike(u, tool, loader, s, dates, i);
      }
      ListsLoadAlike(loader, Fresh(timestamp), read, records);
    }
  }

  /**
   * Dumping one repository and loading the bytes into a fresh one leaves exactly the store
   * that DumpThenLoadIff and AdminDumpThenLoadIff speak about, whatever the log messages
   * are; and the one up to the revision before, if the reader does not survive one.
   */
  method DumpThenLoad(
    u: Charset, writer: Tool, reader: Tool, src: Repository, dst: Repository, version: string, uuid: Option<string>,
    dates: Dates, md5: Bytes -> string, ghost timestamp: int)
    returns (complete: bool, handedOn: nat)
    requires src.Valid() && dst.Valid() && src != dst && dst.State() == Fresh(timestamp) && Faithful(u)
    requires '\n' !in version && '\n' !in uuid.GetOr("")
    requires AllCarried(u, writer, RevisionsOf(writer, src.State(), 0, src.currentRev), dates, md5)
    requires AllPlain(RevisionsOf(writer, src.State(), 0, src.currentRev))
    modifies src`treeCache, dst
    ensures src.State() == old(src.State()) && dst.Valid()
    ensures HandsOn(u, src.State(), dates, handedOn) && (complete <==> handedOn == src.currentRev + 1)
    ensures LoadedTo(u, writer, reader, src.State(), dates, timestamp, handedOn, dst.State())
    ensures complete && Honest(src.State()) && Chained(src.State().files) ==>
              RestoresIff(u, writer, src.State(), dates, dst.State())
  {
    ghost var s := src.State();
    ghost var rs := RevisionsOf(writer, s, 0, s.files.head);
    var bytes := GenerateDump(u, writer, src, version, uuid, 0, src.currentRev, dates, md5);
    var read := ParseDump(u, reader, bytes, dates);
    DumpReads(u, writer, reader, version, uuid, rs, dates, md5);
    OutcomeHandsOn(u, writer, s, dates);
    LoadRevisions(reader, dst, read.revisions);
    ReadBackLoadsAlike(u, writer, reader, s, dates, timestamp, read.revisions);
    complete, handedOn := read.complete, |read.revisions|;
    if Honest(s) && Chained(s.files) {
      DumpThenLoadIff(writer, reader, s, SeenMetas(u, s.files, dates), timestamp);
    }
  }

  /** The store that the first `n` records make of a fresh one. */
  ghost predicate LoadedTo(
    u: Charset, tool: Tool, loader: Tool, s: Store, dates: Dates, timestamp: int, n: nat, dst: Store)
  {
    && FilesOk(s.files) && LastLoaded(n) <= s.files.head
    && dst == Reloaded(tool, loader, s, SeenMetas(u, s.files, dates), timestamp, LastLoaded(n))
  }

  /** Every tree is back if and only if losses are harmless and the loaded snapshots exact. */
  ghost predicate RestoresIff(u: Charset, tool: Tool, s: Store, dates: Dates, dst: Store) {
    Sound(s) &&
    (AllRestored(tool, s.files, dst.files)
     <==> HarmlessUpTo(tool, s.files, s.files.head) && LoadedSnapshotsExact(tool, s, SeenMetas(u, s.files, dates)))
  }

  predicate ReadableAt(u: Charset, s: Store, dates: Dates, r: nat) {
    r in s.files.commits && ReadMeta(u, s.files.commits[r].meta, dates).Some?
  }

  /** The reader survives the first `n` revisions of a store's dump, and not the next if there is one. */
  ghost predicate HandsOn(u: Charset, s: Store, dates: Dates, n: nat) {
    && n <= s.files.head + 1 && (forall r: nat :: r < n ==> ReadableAt(u, s, dates, r))
    && (n <= s.files.head ==> !ReadableAt(u, s, dates, n))
  }

  lemma RecordReadable(u: Charset, tool: Tool, s: Store, dates: Dates, r: nat)
    requires Sound(s) && r <= s.files.head
    ensures Readable(u, RevisionsOf(tool, s, 0, s.files.head)[r], dates) <==> ReadableAt(u, s, dates, r)
  {
    assert RevisionsOf(tool, s, 0, s.files.head)[r] == RevisionOf(tool, s, r);
  }

  lemma OutcomeHandsOn(u: Charset, tool: Tool, s: Store, dates: Dates)
    requires Sound(s)
    ensures var o := ReadOutcome(u, RevisionsOf(tool, s, 0, s.files.head), dates);
            HandsOn(u, s, dates, |o.revisions|) && (o.complete <==> |o.revisions| == s.files.head + 1)
  {
    var rs := RevisionsOf(tool, s, 0, s.files.head);
    var n := |ReadOutcome(u, rs, dates).revisions|;
    OutcomeEnds(u, rs, dates);
    forall r: nat | r < n ensures ReadableAt(u, s, dates, r) {
      OutcomeAt(u, rs, dates, r);
      RecordReadable(u, tool, s, dates, r);
    }
    if n <= s.files.head { RecordReadable(u, tool, s, dates, n); }
  }
}
