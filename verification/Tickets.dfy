// What becomes of every single edit: each staged change is overwritten on its
// path, dropped by a rejecting hook, still waiting, or in exactly one delta.
module Tickets {
  import opened Paths
  import opened ObjectModel
  import opened Replay
  import opened Store
  import opened Runs

  datatype Fate = Waiting | Overwritten | Dropped | InDelta(rev: nat)
  datatype Ticket = Ticket(path: Path, row: Row, fate: Fate)

  /** A system and one ticket for every edit it ever accepted, oldest first. */
  datatype Tracked = Tracked(sys: System, log: seq<Ticket>)

  function EditPath(a: Step): Path
    requires a.AddFile? || a.Mkdir? || a.DeleteFile?
  {
    Trim(a.path)
  }

  function EditRow(a: Step): Row
    requires a.AddFile? || a.Mkdir? || a.DeleteFile?
  {
    match a
    case AddFile(_, d, x) => Upserted(FileEntry(d, x))
    case Mkdir(_) => Upserted(DirEntry())
    case DeleteFile(_) => Deleted
  }

  function Retire(t: Ticket, p: Path): Ticket {
    if t.fate.Waiting? && t.path == p then t.(fate := Overwritten) else t
  }

  function Decide(t: Ticket, fate: Fate): Ticket {
    if t.fate.Waiting? then t.(fate := fate) else t
  }

  /** A new edit of `p` overwrites the one that was waiting there. */
  function Edited(log: seq<Ticket>, p: Path, row: Row): seq<Ticket> {
    seq(|log|, i requires 0 <= i < |log| => Retire(log[i], p)) + [Ticket(p, row, Waiting)]
  }

  function Decided(log: seq<Ticket>, fate: Fate): seq<Ticket> {
    seq(|log|, i requires 0 <= i < |log| => Decide(log[i], fate))
  }

  function NextLog(log: seq<Ticket>, s: System, a: Step): seq<Ticket> {
    if a.AddFile? || a.Mkdir? || a.DeleteFile? then Edited(log, EditPath(a), EditRow(a))
    else if s.pending.Some? then log
    else if a.Gather? then Decided(log, InDelta(s.store.files.head + 1))
    else if a.Reject? then Decided(log, Dropped)
    else log
  }

  ghost function TrackedNext(t: Tracked, a: Step): Tracked {
    Tracked(Next(t.sys, a), NextLog(t.log, t.sys, a))
  }

  ghost function TrackedRun(t: Tracked, steps: seq<Step>): Tracked
    decreases |steps|
  {
    if steps == [] then t else TrackedRun(TrackedNext(t, steps[0]), steps[1..])
  }

  /** The change list of a revision, published or on its way. */
  function ChangesAt(s: System, r: nat): seq<TreeChange> {
    if s.pending.Some? && r == s.pending.value.rev then s.pending.value.delta.changes
    else if r in s.store.files.deltas then s.store.files.deltas[r].changes
    else []
  }

  ghost predicate NoTwin(log: seq<Ticket>) {
    forall i, j :: 0 <= i < j < |log| && log[i].fate == log[j].fate && (log[i].fate.Waiting? || log[i].fate.InDelta?)
      ==> log[i].path != log[j].path
  }

  /** The waiting tickets are exactly the pending rows. */
  ghost predicate WaitingIsStaged(log: seq<Ticket>, rows: Rows) {
    && (forall i :: 0 <= i < |log| && log[i].fate.Waiting? ==> log[i].path in rows && rows[log[i].path] == log[i].row)
    && (forall p :: p in rows ==> Ticketed(log, Waiting, p))
  }

  ghost predicate Ticketed(log: seq<Ticket>, fate: Fate, p: Path) {
    exists i :: 0 <= i < |log| && log[i].fate == fate && log[i].path == p
  }

  /** The tickets of revision `r` are exactly the changes in its delta. */
  ghost predicate DeltaIsTicketed(log: seq<Ticket>, r: nat, cs: seq<TreeChange>) {
    && (forall i :: 0 <= i < |log| && log[i].fate == InDelta(r) ==> ChangeOf(log[i].path, log[i].row) in cs)
    && (forall c :: c in cs ==> Ticketed(log, InDelta(r), c.path))
  }

  ghost predicate LogMatches(log: seq<Ticket>, s: System) {
    && NoTwin(log)
    && WaitingIsStaged(log, s.store.work.rows)
    && (forall r: nat :: 0 < r ==> DeltaIsTicketed(log, r, ChangesAt(s, r)))
  }

  ghost predicate Accounted(t: Tracked) {
    Shape(t.sys) && LogMatches(t.log, t.sys)
  }

  lemma CollectedMembers(rows: Rows, c: TreeChange)
    ensures c in Collected(rows) <==> c.path in rows && c == ChangeOf(c.path, rows[c.path])
  {
    var ks, cs := InOrder(rows.Keys), Collected(rows);
    forall i | 0 <= i < |ks| ensures ks[i] in rows && cs[i].path == ks[i] { assert ks[i] in ks; }
    if c.path in rows && c == ChangeOf(c.path, rows[c.path]) {
      assert c.path in ks;
      var i :| 0 <= i < |ks| && ks[i] == c.path;
      assert cs[i] == c;
    }
  }

  /** Tickets of revision `r` are never touched again. */
  lemma DeltaStaysTicketed(log: seq<Ticket>, log': seq<Ticket>, r: nat, cs: seq<TreeChange>)
    requires DeltaIsTicketed(log, r, cs) && |log| <= |log'|
    requires forall i :: 0 <= i < |log| && log[i].fate == InDelta(r) ==> log'[i] == log[i]
    requires forall i :: 0 <= i < |log'| && log'[i].fate == InDelta(r) ==> i < |log| && log'[i] == log[i]
    ensures DeltaIsTicketed(log', r, cs)
  {
    forall c | c in cs ensures Ticketed(log', InDelta(r), c.path) {
      assert Ticketed(log, InDelta(r), c.path);
      var i :| 0 <= i < |log| && log[i].fate == InDelta(r) && log[i].path == c.path;
      assert log'[i] == log[i];
    }
  }

  lemma EditedMatches(log: seq<Ticket>, rows: Rows, p: Path, row: Row)
    requires NoTwin(log) && WaitingIsStaged(log, rows)
    ensures NoTwin(Edited(log, p, row)) && WaitingIsStaged(Edited(log, p, row), rows[p := row])
  {
    var log', n := Edited(log, p, row), |log|;
    assert log'[n] == Ticket(p, row, Waiting);
    forall q | q in rows[p := row] ensures Ticketed(log', Waiting, q) {
      if q != p {
        assert Ticketed(log, Waiting, q);
        var i :| 0 <= i < n && log[i].fate == Waiting && log[i].path == q;
        assert log'[i] == log[i];
      }
    }
  }

  lemma DecidedMatches(log: seq<Ticket>, fate: Fate)
    requires NoTwin(log) && !fate.Waiting?
    requires forall i :: 0 <= i < |log| && fate.InDelta? ==> log[i].fate != fate
    ensures NoTwin(Decided(log, fate)) && WaitingIsStaged(Decided(log, fate), map[])
  {
  }

  /** Collecting the rows turns the waiting tickets into those of the new revision. */
  lemma NewDeltaTicketed(log: seq<Ticket>, rows: Rows, r: nat)
    requires WaitingIsStaged(log, rows)
    requires forall i :: 0 <= i < |log| ==> log[i].fate != InDelta(r)
    ensures DeltaIsTicketed(Decided(log, InDelta(r)), r, Collected(rows))
  {
    var log', cs := Decided(log, InDelta(r)), Collected(rows);
    forall i | 0 <= i < |log'| && log'[i].fate == InDelta(r) ensures ChangeOf(log'[i].path, log'[i].row) in cs {
      CollectedMembers(rows, ChangeOf(log[i].path, log[i].row));
    }
    forall c | c in cs ensures Ticketed(log', InDelta(r), c.path) {
      CollectedMembers(rows, c);
      assert Ticketed(log, Waiting, c.path);
      var i :| 0 <= i < |log| && log[i].fate == Waiting && log[i].path == c.path;
      assert log'[i].fate == InDelta(r) && log'[i].path == c.path;
    }
  }

  /** The same change lists, seen through a log that leaves decided tickets alone. */
  lemma OtherDeltasTicketed(log: seq<Ticket>, log': seq<Ticket>, s: System, s': System, r: nat)
    requires DeltaIsTicketed(log, r, ChangesAt(s, r)) && ChangesAt(s', r) == ChangesAt(s, r) && |log| <= |log'|
    requires forall i :: 0 <= i < |log| && !log[i].fate.Waiting? ==> log'[i] == log[i]
    requires forall i :: 0 <= i < |log'| && (i >= |log| || log[i].fate.Waiting?) ==> log'[i].fate != InDelta(r)
    ensures DeltaIsTicketed(log', r, ChangesAt(s', r))
  {
    DeltaStaysTicketed(log, log', r, ChangesAt(s, r));
  }

  lemma EditAccounts(log: seq<Ticket>, s: System, a: Step)
    requires LogMatches(log, s) && (a.AddFile? || a.Mkdir? || a.DeleteFile?)
    ensures LogMatches(Edited(log, EditPath(a), EditRow(a)), Next(s, a))
  {
    EditedMatches(log, s.store.work.rows, EditPath(a), EditRow(a));
    forall r: nat | 0 < r ensures DeltaIsTicketed(Edited(log, EditPath(a), EditRow(a)), r, ChangesAt(Next(s, a), r)) {
      assert DeltaIsTicketed(log, r, ChangesAt(s, r));
      OtherDeltasTicketed(log, Edited(log, EditPath(a), EditRow(a)), s, Next(s, a), r);
    }
  }

  lemma GatherAccounts(log: seq<Ticket>, s: System, a: Step)
    requires LogMatches(log, s) && Shape(s) && a.Gather? && s.pending.None?
    ensures LogMatches(Decided(log, InDelta(s.store.files.head + 1)), Next(s, a))
  {
    var nr := s.store.files.head + 1;
    assert DeltaIsTicketed(log, nr, ChangesAt(s, nr)) && ChangesAt(s, nr) == [];
    DecidedMatches(log, InDelta(nr));
    NewDeltaTicketed(log, s.store.work.rows, nr);
    forall r: nat | 0 < r ensures DeltaIsTicketed(Decided(log, InDelta(nr)), r, ChangesAt(Next(s, a), r)) {
      assert DeltaIsTicketed(log, r, ChangesAt(s, r));
      if r != nr { OtherDeltasTicketed(log, Decided(log, InDelta(nr)), s, Next(s, a), r); }
    }
  }

  lemma RejectAccounts(log: seq<Ticket>, s: System)
    requires LogMatches(log, s) && s.pending.None?
    ensures LogMatches(Decided(log, Dropped), Next(s, Reject))
  {
    DecidedMatches(log, Dropped);
    forall r: nat | 0 < r ensures DeltaIsTicketed(Decided(log, Dropped), r, ChangesAt(Next(s, Reject), r)) {
      assert DeltaIsTicketed(log, r, ChangesAt(s, r));
      OtherDeltasTicketed(log, Decided(log, Dropped), s, Next(s, Reject), r);
    }
  }

  lemma OtherAccounts(log: seq<Ticket>, s: System, a: Step)
    requires LogMatches(log, s) && (a.Publish? || a.Reopen? || ((a.Reject? || a.Gather?) && s.pending.Some?))
    ensures LogMatches(log, Next(s, a))
  {
    forall r: nat | 0 < r ensures DeltaIsTicketed(log, r, ChangesAt(Next(s, a), r)) {
      assert DeltaIsTicketed(log, r, ChangesAt(s, r));
      assert ChangesAt(Next(s, a), r) == ChangesAt(s, r);
    }
  }

  lemma StepMatches(log: seq<Ticket>, s: System, a: Step)
    requires LogMatches(log, s) && Shape(s)
    ensures LogMatches(NextLog(log, s, a), Next(s, a))
  {
    match a {
      case AddFile(_, _, _) => EditAccounts(log, s, a);
      case Mkdir(_) => EditAccounts(log, s, a);
      case DeleteFile(_) => EditAccounts(log, s, a);
      case Gather(_, _) => if s.pending.None? { GatherAccounts(log, s, a); } else { OtherAccounts(log, s, a); }
      case Reject => if s.pending.None? { RejectAccounts(log, s); } else { OtherAccounts(log, s, a); }
      case _ => OtherAccounts(log, s, a);
    }
  }

  lemma StepAccounts(t: Tracked, a: Step)
    requires Accounted(t)
    ensures Accounted(TrackedNext(t, a))
  {
    StepKeepsShape(t.sys, a);
    StepMatches(t.log, t.sys, a);
  }

  /**
   * Over every run, with any interleaving of clients, the edits and the stored
   * changes account for each other one to one.
   */
  lemma {:induction false} RunsAccountForEveryEdit(t: Tracked, steps: seq<Step>)
    requires Accounted(t)
    ensures Accounted(TrackedRun(t, steps)) && TrackedRun(t, steps).sys == Run(t.sys, steps)
    decreases |steps|
  {
    if steps != [] {
      StepAccounts(t, steps[0]);
      RunsAccountForEveryEdit(TrackedNext(t, steps[0]), steps[1..]);
    }
  }

  lemma InitialAccounted(timestamp: int)
    ensures Accounted(Tracked(Initial(timestamp), []))
  {
    InitialGood(timestamp);
  }

  /** Revisions are 0..head without gaps, each commit's parent and each delta's base the one before it. */
  lemma RevisionsAreLinked(timestamp: int, steps: seq<Step>, r: nat)
    ensures var f := Run(Initial(timestamp), steps).store.files;
            && (r in f.commits <==> r <= f.head)
            && (0 < r <= f.head ==>
                  && r - 1 in f.commits && f.commits[r].parents == [CommitId(f.commits[r - 1])]
                  && r in f.deltas && f.deltas[r].parentRev == r - 1)
  {
    InitialAccounted(timestamp);
    RunsAccountForEveryEdit(Tracked(Initial(timestamp), []), steps);
    var f := Run(Initial(timestamp), steps).store.files;
    assert 0 < r <= f.head ==> Linked(f, r);
  }
}
