// Whole runs of one repository: any number of clients stage, commit and reopen,
// and a commit is split where other clients can get in between.
module Runs {
  import opened Paths
  import opened ObjectModel
  import opened Replay
  import opened Staging
  import opened Store

  /**
   * `history[r]` is the working table as it stood when revision r was gathered.
   * `pending` is the commit that holds the commit lock but has not written its files.
   */
  datatype System = System(store: Store, pending: Option<Pending>, history: seq<Tree>)

  datatype Step =
    | AddFile(path: Path, data: Bytes, executable: bool)
    | Mkdir(path: Path)
    | DeleteFile(path: Path)
    | Gather(meta: Meta, full: bool)
    | Publish
    | Reject
    | Reopen

  function Initial(timestamp: int): System {
    System(Fresh(timestamp), None, [map[]])
  }

  /** One atomic step; a step whose lock is taken leaves the system alone. */
  ghost function Next(s: System, a: Step): System {
    match a
    case AddFile(p, d, x) => s.(store := FileAdded(s.store, p, d, x))
    case Mkdir(p) => s.(store := DirAdded(s.store, p))
    case DeleteFile(p) => s.(store := PathDeleted(s.store, p))
    case Gather(m, full) =>
      if s.pending.Some? then s
      else System(RowsTaken(s.store), Some(Gathered(s.store, m, full)), s.history + [s.store.work.tree])
    case Publish =>
      if s.pending.None? then s
      else System(s.store.(files := Published(s.store.files, s.pending.value)), None, s.history)
    case Reject => if s.pending.Some? then s else s.(store := RowsTaken(s.store))
    case Reopen => if s.pending.Some? then s else s.(store := Reopened(s.store))
  }

  ghost function Run(s: System, steps: seq<Step>): System
    decreases |steps|
  {
    if steps == [] then s else Run(Next(s, steps[0]), steps[1..])
  }

  // -------------------------------------------------- structure, always kept

  predicate Counted(f: Files, history: seq<Tree>, r: nat) {
    r < |history| && r in f.deltas && f.deltas[r].totalEntries == |history[r]|
  }

  ghost predicate CountsMatch(f: Files, history: seq<Tree>) {
    forall r: nat :: r <= f.head ==> Counted(f, history, r)
  }

  ghost predicate Shape(s: System) {
    && Honest(s.store)
    && |s.history| == s.store.files.head + (if s.pending.Some? then 2 else 1)
    && s.history[0] == map[]
    && CountsMatch(s.store.files, s.history)
    && (s.pending.Some? ==>
          var c := s.pending.value;
          && Fits(s.store.objects, s.store.files, c)
          && c.tree == s.history[c.rev] && c.delta.totalEntries == |c.tree|)
  }

  lemma StagingKeepsShape(s: System, st: Store)
    requires Shape(s) && Honest(st) && s.store.files == st.files && s.store.objects.Keys <= st.objects.Keys
    ensures Shape(s.(store := st))
  {
    if s.pending.Some? {
      assert ChangesOk(st.objects, s.pending.value.delta.changes);
      assert TreeOk(st.objects, s.pending.value.tree);
    }
  }

  lemma GatherKeepsShape(s: System, m: Meta, full: bool)
    requires Shape(s) && s.pending.None?
    ensures Shape(Next(s, Gather(m, full)))
  {
    GatheredFits(s.store, m, full);
    var s' := Next(s, Gather(m, full));
    forall r: nat | r <= s.store.files.head ensures Counted(s.store.files, s'.history, r) {
      assert Counted(s.store.files, s.history, r);
    }
  }

  lemma PublishKeepsShape(s: System)
    requires Shape(s) && s.pending.Some?
    ensures Shape(Next(s, Publish))
  {
    PublishedOk(s.store.objects, s.store.files, s.pending.value);
    var f' := Published(s.store.files, s.pending.value);
    forall r: nat | r <= f'.head ensures Counted(f', s.history, r) {
      assert r < f'.head ==> Counted(s.store.files, s.history, r);
    }
  }

  lemma StepKeepsShape(s: System, a: Step)
    requires Shape(s)
    ensures Shape(Next(s, a))
  {
    var st := s.store;
    match a {
      case AddFile(p, d, x) =>
        FileAddedSound(st, p, d, x);
        StagingKeepsShape(s, FileAdded(st, p, d, x));
      case Mkdir(p) =>
        DirAddedSound(st, p);
        StagingKeepsShape(s, DirAdded(st, p));
      case DeleteFile(p) =>
        PathDeletedSound(st, p);
        StagingKeepsShape(s, PathDeleted(st, p));
      case Gather(m, full) =>
        if s.pending.None? { GatherKeepsShape(s, m, full); }
      case Publish =>
        if s.pending.Some? { PublishKeepsShape(s); }
      case Reject =>
        GatheredFits(st, Meta("", "", 0), true);
        StagingKeepsShape(s, RowsTaken(st));
      case Reopen =>
        ReopenedSound(st);
        StagingKeepsShape(s, Reopened(st));
    }
  }

  // --------------------------------------------------------------- refinement

  /** The revision that the pending rows are relative to. */
  ghost function Base(s: System): Tree
    requires Shape(s)
  {
    s.history[|s.history| - 1]
  }

  predicate RecordedIn(f: Files, history: seq<Tree>, r: nat) {
    r < |history| && Recorded(f, r) == history[r]
  }

  ghost predicate Reproduces(f: Files, history: seq<Tree>) {
    Chained(f) && forall r: nat :: r <= f.head ==> RecordedIn(f, history, r)
  }

  /** The files reproduce the history, and the commit on its way will too. */
  ghost predicate Faithful(s: System)
    requires Shape(s)
  {
    && Reproduces(s.store.files, s.history)
    && (s.pending.Some? ==>
          ReplayAll(s.history[s.store.files.head], s.pending.value.delta.changes) == s.pending.value.tree)
  }

  ghost predicate Good(s: System) {
    Shape(s) && Faithful(s) && Agrees(Base(s), s.store.work)
  }

  /** Checked before a step is taken. */
  ghost predicate Disciplined(s: System, a: Step)
    requires Shape(s)
  {
    match a
    case AddFile(p, _, _) => InsertSafe(Base(s), s.store.work, Trim(p))
    case Mkdir(p) => InsertSafe(Base(s), s.store.work, Trim(p))
    case DeleteFile(p) => RemoveSafe(s.store.work, Trim(p))
    case Reject => s.pending.None? ==> s.store.work.tree == Base(s)
    case Reopen => s.pending.None? && s.store.work.tree == map[] ==> Base(s) == map[]
    case _ => true
  }

  /** Writing a commit reproduces its table exactly when its list replays to it. */
  lemma PublishReproducesIff(f: Files, c: Pending, history: seq<Tree>)
    requires FilesOk(f) && Reproduces(f, history) && c.rev == f.head + 1 && |history| == f.head + 2
    requires c.tree == history[f.head + 1]
    ensures Reproduces(Published(f, c), history) <==> ReplayAll(history[f.head], c.delta.changes) == c.tree
  {
    var f' := Published(f, c);
    assert RecordedIn(f, history, f.head);
    PublishedKeepsRevisions(f, c, f.head);
    if ReplayAll(history[f.head], c.delta.changes) == c.tree {
      PublishedChained(f, c);
      forall r: nat | r <= f.head + 1 ensures RecordedIn(f', history, r) {
        if r <= f.head {
          assert RecordedIn(f, history, r);
          PublishedKeepsRevisions(f, c, r);
        }
      }
    }
    if Reproduces(f', history) { assert ReplayLinked(f', c.rev) && RecordedIn(f', history, c.rev); }
  }

  lemma GatherReproduces(f: Files, history: seq<Tree>, t: Tree)
    requires Reproduces(f, history)
    ensures Reproduces(f, history + [t])
  {
    forall r: nat | r <= f.head ensures RecordedIn(f, history + [t], r) { assert RecordedIn(f, history, r); }
  }

  /** `s'` has just collected the tables of the good state `s` into a change list. */
  ghost predicate JustGathered(s: System, s': System) {
    && s.pending.None? && s'.pending.Some? && s'.store.files == s.store.files
    && s'.history == s.history + [s.store.work.tree] && s'.store.work == Tables(s.store.work.tree, map[])
    && s'.pending.value.tree == s.store.work.tree && s'.pending.value.delta.changes == Collected(s.store.work.rows)
  }

  lemma GoodWhenGathered(s: System, s': System)
    requires Good(s) && Shape(s') && JustGathered(s, s')
    ensures Good(s')
  {
    CollectReplaysIff(Base(s), s.store.work);
    GatherReproduces(s.store.files, s.history, s.store.work.tree);
    NothingStagedAgreesIff(s.store.work.tree, s.store.work.tree);
  }

  lemma GatherGood(s: System, m: Meta, full: bool)
    requires Good(s) && s.pending.None? && Shape(Next(s, Gather(m, full)))
    ensures Good(Next(s, Gather(m, full)))
  {
    GoodWhenGathered(s, Next(s, Gather(m, full)));
  }

  lemma PendingReproduces(s: System)
    requires Shape(s) && Faithful(s) && s.pending.Some?
    ensures Reproduces(Published(s.store.files, s.pending.value), s.history)
  {
    PublishReproducesIff(s.store.files, s.pending.value, s.history);
  }

  lemma GoodWhenIdle(s: System, base: Tree)
    requires Shape(s) && s.pending.None? && base == Base(s)
    requires Reproduces(s.store.files, s.history) && Agrees(base, s.store.work)
    ensures Good(s)
  {
  }

  lemma PublishGood(s: System)
    requires Good(s) && s.pending.Some? && Shape(Next(s, Publish))
    ensures Good(Next(s, Publish))
  {
    PendingReproduces(s);
    GoodWhenIdle(Next(s, Publish), Base(s));
  }

  lemma StagingGoodIff(s: System, w: Tables, objects: Objects)
    requires Good(s) && Shape(s.(store := Store(w, objects, s.store.files)))
    ensures Good(s.(store := Store(w, objects, s.store.files))) <==> Agrees(Base(s), w)
  {
  }

  /** From a good state a step leads to a good state exactly when it is disciplined. */
  lemma StepGoodIff(s: System, a: Step)
    requires Good(s)
    ensures Good(Next(s, a)) <==> Disciplined(s, a)
  {
    StepKeepsShape(s, a);
    var st, base := s.store, Base(s);
    match a {
      case AddFile(p, d, x) =>
        InsertAgreesIff(base, st.work, Trim(p), FileEntry(d, x));
        StagingGoodIff(s, FileAdded(st, p, d, x).work, FileAdded(st, p, d, x).objects);
      case Mkdir(p) =>
        InsertAgreesIff(base, st.work, Trim(p), DirEntry());
        StagingGoodIff(s, DirAdded(st, p).work, st.objects);
      case DeleteFile(p) =>
        RemoveAgreesIff(base, st.work, Trim(p));
        StagingGoodIff(s, PathDeleted(st, p).work, st.objects);
      case Gather(m, full) => if s.pending.None? { GatherGood(s, m, full); }
      case Publish => if s.pending.Some? { PublishGood(s); }
      case Reject =>
        if s.pending.None? {
          NothingStagedAgreesIff(base, st.work.tree);
          StagingGoodIff(s, RowsTaken(st).work, st.objects);
        }
      case Reopen =>
        if s.pending.None? {
          assert RecordedIn(st.files, s.history, st.files.head);
          ReopenAgreesIff(base, st.work);
          StagingGoodIff(s, Reopened(st).work, st.objects);
        }
    }
  }

  /** Refilling an emptied working table undoes the staged deletions in it but keeps their rows. */
  lemma ReopenAgreesIff(base: Tree, w: Tables)
    requires Agrees(base, w)
    ensures Agrees(base, if w.tree == map[] then w.(tree := base) else w) <==> (w.tree == map[] ==> base == map[])
  {
    if w.tree == map[] && base != map[] {
      var q :| q in base;
      assert Look(w.tree, q) == Shown(base, w.rows, q);
      assert Look(base, q) != Shown(base, w.rows, q);
    }
  }

  // ---------------------------------------------------------------- whole runs

  ghost predicate AlwaysGood(s: System, steps: seq<Step>)
    decreases |steps|
  {
    Good(s) && (steps == [] || AlwaysGood(Next(s, steps[0]), steps[1..]))
  }

  ghost predicate AlwaysDisciplined(s: System, steps: seq<Step>)
    decreases |steps|
  {
    steps == [] || (Shape(s) && Disciplined(s, steps[0]) && AlwaysDisciplined(Next(s, steps[0]), steps[1..]))
  }

  /**
   * The exact condition: along any run the files reproduce the history and the
   * pending rows explain the working table at every moment if and only if every
   * step passed its check.
   */
  lemma {:induction false} RunGoodIff(s: System, steps: seq<Step>)
    requires Good(s)
    ensures AlwaysGood(s, steps) <==> AlwaysDisciplined(s, steps)
    decreases |steps|
  {
    if steps != [] {
      StepGoodIff(s, steps[0]);
      if Disciplined(s, steps[0]) { RunGoodIff(Next(s, steps[0]), steps[1..]); }
      else { NotGoodAtStart(Next(s, steps[0]), steps[1..]); }
    }
  }

  lemma NotGoodAtStart(s: System, steps: seq<Step>)
    requires !Good(s)
    ensures !AlwaysGood(s, steps)
  {
  }

  lemma {:induction false} GoodAtEnd(s: System, steps: seq<Step>)
    requires AlwaysGood(s, steps)
    ensures Good(Run(s, steps))
    decreases |steps|
  {
    if steps != [] { GoodAtEnd(Next(s, steps[0]), steps[1..]); }
  }

  lemma InitialGood(timestamp: int)
    ensures Good(Initial(timestamp))
  {
    FreshSound(timestamp);
    NothingStagedAgreesIff(map[], map[]);
    assert Counted(Initial(timestamp).store.files, [map[]], 0);
    assert RecordedIn(Initial(timestamp).store.files, [map[]], 0);
  }

  // ------------------------------------------- what reproducing really takes

  ghost predicate AlwaysReproduces(s: System, steps: seq<Step>)
    decreases |steps|
  {
    && Shape(s) && Reproduces(s.store.files, s.history)
    && (steps == [] || AlwaysReproduces(Next(s, steps[0]), steps[1..]))
  }

  /**
   * The tables were in step at every Gather whose commit was published; `inStep` says so
   * of the commit on its way. What happens between two Gathers does not matter.
   */
  ghost predicate GatheredInStep(s: System, steps: seq<Step>, inStep: bool)
    decreases |steps|
  {
    steps == [] ||
    (Shape(s) &&
     var s', rest := Next(s, steps[0]), steps[1..];
     if steps[0].Gather? && s.pending.None? then GatheredInStep(s', rest, Agrees(Base(s), s.store.work))
     else if steps[0].Publish? && s.pending.Some? then inStep && GatheredInStep(s', rest, true)
     else GatheredInStep(s', rest, inStep))
  }

  /** `inStep` is right about the commit on its way. */
  ghost predicate Judged(s: System, inStep: bool)
    requires Shape(s)
  {
    s.pending.Some? ==>
      (inStep <==> ReplayAll(s.history[s.store.files.head], s.pending.value.delta.changes) == s.pending.value.tree)
  }

  lemma NextReproducesIff(s: System, a: Step, inStep: bool)
    requires Shape(s) && Reproduces(s.store.files, s.history) && Judged(s, inStep) && Shape(Next(s, a))
    ensures var s' := Next(s, a);
            if a.Publish? && s.pending.Some? then Reproduces(s'.store.files, s'.history) <==> inStep
            else Reproduces(s'.store.files, s'.history)
    ensures Judged(Next(s, a), if a.Gather? && s.pending.None? then Agrees(Base(s), s.store.work) else inStep)
  {
    if a.Publish? && s.pending.Some? {
      PublishReproducesIff(s.store.files, s.pending.value, s.history);
    } else if a.Gather? && s.pending.None? {
      GatherReproduces(s.store.files, s.history, s.store.work.tree);
      CollectReplaysIff(Base(s), s.store.work);
    }
  }

  /**
   * The exact condition for the answers alone: along any run the files reproduce the
   * history at every moment if and only if the tables were in step at every Gather
   * whose commit was published.
   */
  lemma {:induction false} RunReproducesIff(s: System, steps: seq<Step>, inStep: bool)
    requires Shape(s) && Reproduces(s.store.files, s.history) && Judged(s, inStep)
    ensures AlwaysReproduces(s, steps) <==> GatheredInStep(s, steps, inStep)
    decreases |steps|
  {
    if steps != [] {
      var a, s', rest := steps[0], Next(s, steps[0]), steps[1..];
      StepKeepsShape(s, a);
      NextReproducesIff(s, a, inStep);
      if a.Publish? && s.pending.Some? {
        if inStep { RunReproducesIff(s', rest, true); }
      } else {
        RunReproducesIff(s', rest, if a.Gather? && s.pending.None? then Agrees(Base(s), s.store.work) else inStep);
      }
    }
  }

  lemma {:induction false} GoodRunsReproduce(s: System, steps: seq<Step>)
    requires AlwaysGood(s, steps)
    ensures AlwaysReproduces(s, steps)
    decreases |steps|
  {
    if steps != [] { GoodRunsReproduce(Next(s, steps[0]), steps[1..]); }
  }

  lemma {:induction false} ReproducesAtEnd(s: System, steps: seq<Step>)
    requires AlwaysReproduces(s, steps)
    ensures Shape(Run(s, steps)) && Reproduces(Run(s, steps).store.files, Run(s, steps).history)
    decreases |steps|
  {
    if steps != [] { ReproducesAtEnd(Next(s, steps[0]), steps[1..]); }
  }

  /** Disciplined runs are among them. */
  lemma DisciplinedIsInStep(timestamp: int, steps: seq<Step>)
    requires AlwaysDisciplined(Initial(timestamp), steps)
    ensures GatheredInStep(Initial(timestamp), steps, true)
  {
    InitialGood(timestamp);
    RunGoodIff(Initial(timestamp), steps);
    GoodRunsReproduce(Initial(timestamp), steps);
    RunReproducesIff(Initial(timestamp), steps, true);
  }

  /** A file added, covered by a removal above it and removed itself. */
  function Detour(timestamp: int): (System, System, System) {
    var s0 := Initial(timestamp);
    var added := s0.(store := FileAdded(s0.store, "d/f", [], false));
    var covered := added.(store := PathDeleted(added.store, "d"));
    (added, covered, covered.(store := PathDeleted(covered.store, "d/f")))
  }

  lemma DetourShape(timestamp: int)
    ensures var (added, covered, back) := Detour(timestamp);
            Shape(Initial(timestamp)) && Shape(added) && Shape(covered) && Shape(back)
  {
    InitialGood(timestamp);
    StepKeepsShape(Initial(timestamp), AddFile("d/f", [], false));
    StepKeepsShape(Detour(timestamp).0, DeleteFile("d"));
    StepKeepsShape(Detour(timestamp).1, DeleteFile("d/f"));
  }

  lemma DetourIsUndisciplined(timestamp: int)
    ensures Shape(Detour(timestamp).0) && !Disciplined(Detour(timestamp).0, DeleteFile("d"))
  {
    DetourShape(timestamp);
    var rows := Detour(timestamp).0.store.work.rows;
    assert "d/f" in rows && rows["d/f"].Upserted? && Under("d", "d/f");
  }

  lemma DetourIsInStep(timestamp: int, meta: Meta)
    ensures GatheredInStep(Detour(timestamp).2, [Gather(meta, true), Publish], true)
  {
    DetourShape(timestamp);
    var back := Detour(timestamp).2;
    StepKeepsShape(back, Gather(meta, true));
    assert back.store.work.tree == map[] && Agrees(Base(back), back.store.work);
    var steps := [Gather(meta, true), Publish];
    assert steps[1..] == [Publish];
    assert GatheredInStep(Next(back, Gather(meta, true)), [Publish], true);
  }

  lemma StagedThen(s: System, a: Step, rest: seq<Step>, inStep: bool)
    requires Shape(s) && !a.Gather? && !a.Publish?
    ensures GatheredInStep(s, [a] + rest, inStep) <==> GatheredInStep(Next(s, a), rest, inStep)
    ensures AlwaysDisciplined(s, [a] + rest) <==> Disciplined(s, a) && AlwaysDisciplined(Next(s, a), rest)
  {
    assert ([a] + rest)[1..] == rest;
  }

  function DetourSteps(meta: Meta): seq<Step> {
    [AddFile("d/f", [], false)] + ([DeleteFile("d")] + ([DeleteFile("d/f")] + [Gather(meta, true), Publish]))
  }

  /** But not all of them: this run breaks the discipline, and its tables are in step again when gathered. */
  lemma DisciplineIsNotNeeded(timestamp: int, meta: Meta)
    ensures !AlwaysDisciplined(Initial(timestamp), DetourSteps(meta))
    ensures GatheredInStep(Initial(timestamp), DetourSteps(meta), true)
  {
    var (added, covered, back) := Detour(timestamp);
    var commit := [Gather(meta, true), Publish];
    DetourShape(timestamp);
    DetourIsUndisciplined(timestamp);
    DetourIsInStep(timestamp, meta);
    StagedThen(covered, DeleteFile("d/f"), commit, true);
    StagedThen(added, DeleteFile("d"), [DeleteFile("d/f")] + commit, true);
    StagedThen(Initial(timestamp), AddFile("d/f", [], false), [DeleteFile("d")] + ([DeleteFile("d/f")] + commit), true);
  }

  /** A removal above a staged file, gathered as it is. */
  function BreachSteps(meta: Meta): seq<Step> {
    [AddFile("d/f", [], false)] + ([DeleteFile("d")] + [Gather(meta, true), Publish])
  }

  /** Such a run does not reproduce its history: the removed file is back in the revision. */
  lemma BreachIsNotReproduced(timestamp: int, meta: Meta)
    ensures !GatheredInStep(Initial(timestamp), BreachSteps(meta), true)
    ensures !AlwaysReproduces(Initial(timestamp), BreachSteps(meta))
  {
    var (added, covered, back) := Detour(timestamp);
    var commit := [Gather(meta, true), Publish];
    DetourShape(timestamp);
    CoveredIsOutOfStep(timestamp);
    GatherOutOfStep(covered, meta);
    StagedThen(added, DeleteFile("d"), commit, true);
    StagedThen(Initial(timestamp), AddFile("d/f", [], false), [DeleteFile("d")] + commit, true);
    InitialGood(timestamp);
    RunReproducesIff(Initial(timestamp), BreachSteps(meta), true);
  }

  /** The table has lost the file, but its pending row is still an upsert. */
  lemma CoveredIsOutOfStep(timestamp: int)
    ensures var s := Detour(timestamp).1; Shape(s) && s.pending.None? && !Agrees(Base(s), s.store.work)
  {
    DetourShape(timestamp);
    var s := Detour(timestamp).1;
    LikeCoversSubtree("d", "d/f");
    assert "d/f" in s.store.work.rows && s.store.work.rows["d/f"].Upserted?;
    assert Look(s.store.work.tree, "d/f") == None && Shown(Base(s), s.store.work.rows, "d/f").Some?;
  }

  lemma GatherOutOfStep(s: System, meta: Meta)
    requires Shape(s) && s.pending.None? && !Agrees(Base(s), s.store.work)
    ensures !GatheredInStep(s, [Gather(meta, true), Publish], true)
  {
    var steps := [Gather(meta, true), Publish];
    StepKeepsShape(s, Gather(meta, true));
    assert steps[1..] == [Publish];
    assert !GatheredInStep(Next(s, Gather(meta, true)), [Publish], false);
  }

  /**
   * Refinement over whole runs: every revision up to the head reads back as the
   * working table of its commit, and its delta counts that table's entries.
   */
  lemma RunsRefineHistory(timestamp: int, steps: seq<Step>, r: nat)
    requires GatheredInStep(Initial(timestamp), steps, true)
    requires r <= Run(Initial(timestamp), steps).store.files.head
    ensures var s := Run(Initial(timestamp), steps);
            && r < |s.history| && Recorded(s.store.files, r) == s.history[r]
            && r in s.store.files.deltas && s.store.files.deltas[r].totalEntries == |s.history[r]|
  {
    InitialGood(timestamp);
    RunReproducesIff(Initial(timestamp), steps, true);
    ReproducesAtEnd(Initial(timestamp), steps);
    var s := Run(Initial(timestamp), steps);
    assert Counted(s.store.files, s.history, r) && RecordedIn(s.store.files, s.history, r);
  }

  ghost predicate Extends(s: System, s': System, r: nat) {
    var f, f' := s.store.files, s'.store.files;
    && f.head <= f'.head
    && Recorded(f', r) == Recorded(f, r)
    && r in f.deltas && r in f'.deltas && f'.deltas[r] == f.deltas[r]
    && r in f.commits && r in f'.commits && f'.commits[r] == f.commits[r]
    && s.history <= s'.history
  }

  lemma StepOnlyAppends(s: System, a: Step, r: nat)
    requires Shape(s) && r <= s.store.files.head
    ensures Extends(s, Next(s, a), r)
  {
    if a.Publish? && s.pending.Some? { PublishedKeepsRevisions(s.store.files, s.pending.value, r); }
  }

  /** No step of any run, disciplined or not, changes a revision, a commit or the history once there. */
  lemma {:induction false} RunsOnlyAppend(s: System, steps: seq<Step>, r: nat)
    requires Shape(s) && r <= s.store.files.head
    ensures Shape(Run(s, steps)) && Extends(s, Run(s, steps), r)
    decreases |steps|
  {
    if steps == [] {
    } else {
      StepKeepsShape(s, steps[0]);
      StepOnlyAppends(s, steps[0], r);
      RunsOnlyAppend(Next(s, steps[0]), steps[1..], r);
    }
  }
}
