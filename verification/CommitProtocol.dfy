// The WebDAV transactions: POST creates one, PUT stages into it, DELETE aborts it,
// MERGE takes it out of the map, waits for the commit lock, stages and commits.
module CommitProtocol {
  import opened Paths
  import opened ObjectModel
  import opened Replay
  import opened Staging
  import opened Store

  /** The two numbers in a transaction's name. */
  datatype TxnName = TxnName(base: nat, seqNo: nat)

  type FileMap = map<Path, Bytes>

  /** A MERGE request after it removed its transaction. */
  datatype Merge =
    | Waiting(name: TxnName, files: FileMap)
    | StagingFiles(name: TxnName, files: FileMap, todo: set<Path>)   // holds COMMIT_LOCK

  /** What became of a transaction; `Open` ones are in the map. */
  datatype Outcome = Open | Merging(request: nat) | Landed(rev: nat) | Aborted | Refused

  /**
   * The last three fields only record: each transaction's outcome, the files it held
   * when a MERGE took it, and the transaction behind each revision.
   */
  datatype Server = Server(
    txns: map<TxnName, FileMap>,
    counter: nat,
    lock: Option<nat>,
    merges: map<nat, Merge>,
    store: Store,
    outcome: map<TxnName, Outcome>,
    taken: map<TxnName, FileMap>,
    landedBy: map<nat, TxnName>)

  datatype Event =
    | Create(base: nat)
    | Put(name: TxnName, filePath: Path, data: Bytes)
    | DeleteActivity(name: TxnName)
    | TakeTxn(request: nat, name: TxnName)
    | Acquire(request: nat)
    | StageFile(request: nat, path: Path)
    | Commit(request: nat, meta: Meta)
    | HookRefuses(request: nat)

  function Start(timestamp: int): Server {
    Server(map[], 0, None, map[], Fresh(timestamp), map[], map[], map[])
  }

  predicate EndsWith(p: Path, suffix: string) {
    |suffix| <= |p| && p[|p| - |suffix|..] == suffix
  }

  predicate Contains(p: Path, part: string) {
    |part| <= |p| && (p[..|part|] == part || Contains(p[1..], part))
  }

  predicate Executable(p: Path) {
    EndsWith(p, ".sh") || Contains(p, "/bin/")
  }

  function EntryFor(p: Path, data: Bytes): TreeEntry {
    FileEntry(data, Executable(p))
  }

  predicate HoldsLock(s: Server, request: nat) {
    s.lock == Some(request) && request in s.merges && s.merges[request].StagingFiles?
  }

  /** One atomic step. A request that cannot take the step now leaves everything as it is. */
  ghost function Next(s: Server, e: Event): Server {
    match e
    case Create(base) =>
      var n := TxnName(base, s.counter);
      s.(counter := s.counter + 1, txns := s.txns[n := map[]], outcome := s.outcome[n := Open])
    case Put(n, path, data) =>
      if n in s.txns then s.(txns := s.txns[n := s.txns[n]["/" + path := data]]) else s
    case DeleteActivity(n) =>
      if n in s.txns then s.(txns := s.txns - {n}, outcome := s.outcome[n := Aborted]) else s
    case TakeTxn(q, n) =>
      if n in s.txns && q !in s.merges then
        s.(txns := s.txns - {n}, merges := s.merges[q := Waiting(n, s.txns[n])],
           outcome := s.outcome[n := Merging(q)], taken := s.taken[n := s.txns[n]])
      else s
    case Acquire(q) =>
      if s.lock.None? && q in s.merges && s.merges[q].Waiting? then
        var m := s.merges[q];
        s.(lock := Some(q), merges := s.merges[q := StagingFiles(m.name, m.files, m.files.Keys)])
      else s
    case StageFile(q, p) =>
      if HoldsLock(s, q) && p in s.merges[q].todo && p in s.merges[q].files then
        var m := s.merges[q];
        s.(store := FileAdded(s.store, p, m.files[p], Executable(p)),
           merges := s.merges[q := m.(todo := m.todo - {p})])
      else s
    case Commit(q, meta) =>
      if HoldsLock(s, q) && s.merges[q].todo == {} then
        var n, r := s.merges[q].name, s.store.files.head + 1;
        s.(store := Committed(s.store, meta, true), lock := None, merges := s.merges - {q},
           outcome := s.outcome[n := Landed(r)], landedBy := s.landedBy[r := n])
      else s
    case HookRefuses(q) =>
      if HoldsLock(s, q) && s.merges[q].todo == {} then
        s.(store := RowsTaken(s.store), lock := None, merges := s.merges - {q},
           outcome := s.outcome[s.merges[q].name := Refused])
      else s
  }

  ghost function Run(s: Server, es: seq<Event>): Server
    decreases |es|
  {
    if es == [] then s else Run(Next(s, es[0]), es[1..])
  }

  // -------------------------------------------------------------- invariant

  /** Row `q` carries one of the files in `done` that end up there. */
  predicate RowFrom(files: FileMap, done: set<Path>, q: Path, row: Row) {
    exists f :: f in done && f in files && Trim(f) == q && row == Upserted(EntryFor(f, files[f]))
  }

  /** The rows are the files in `done` and nothing else. */
  ghost predicate RowsAre(rows: Rows, files: FileMap, done: set<Path>) {
    && (forall q :: q in rows ==> RowFrom(files, done, q, rows[q]))
    && (forall f :: f in done ==> Trim(f) in rows)
  }

  /** A change list with exactly one upsert for each path the files end up at. */
  ghost predicate Holds(cs: seq<TreeChange>, files: FileMap) {
    && PathSorted(cs)
    && (forall c :: c in cs ==> c.Upsert? && RowFrom(files, files.Keys, c.path, Upserted(c.entry)))
    && (forall f :: f in files ==> exists i :: 0 <= i < |cs| && cs[i].path == Trim(f))
  }

  ghost predicate LandedOk(s: Server, r: nat) {
    && r in s.landedBy && r in s.store.files.deltas
    && var n := s.landedBy[r];
       && n in s.outcome && s.outcome[n] == Landed(r) && n in s.taken
       && Holds(s.store.files.deltas[r].changes, s.taken[n])
  }

  ghost predicate AllLanded(s: Server) {
    forall r: nat :: 0 < r <= s.store.files.head ==> LandedOk(s, r)
  }

  ghost predicate NamesOk(s: Server) {
    && (forall n :: n in s.txns <==> n in s.outcome && s.outcome[n].Open?)
    && (forall n :: n in s.outcome ==> n.seqNo < s.counter)
    && (forall q :: q in s.merges ==> MergeOk(s, q))
  }

  predicate MergeOk(s: Server, q: nat) {
    q in s.merges &&
    var m := s.merges[q];
    && m.name in s.outcome && s.outcome[m.name] == Merging(q)
    && m.name in s.taken && s.taken[m.name] == m.files
    && (m.StagingFiles? ==> m.todo <= m.files.Keys && s.lock == Some(q))
  }

  /** The tables hold what the lock holder has staged so far, and nothing when the lock is free. */
  ghost predicate TablesOk(s: Server) {
    match s.lock
    case None => s.store.work.rows == map[]
    case Some(q) =>
      && q in s.merges && s.merges[q].StagingFiles?
      && RowsAre(s.store.work.rows, s.merges[q].files, s.merges[q].files.Keys - s.merges[q].todo)
  }

  ghost predicate Inv(s: Server) {
    Sound(s.store) && NamesOk(s) && TablesOk(s) && AllLanded(s)
  }

  lemma StartInv(timestamp: int)
    ensures Inv(Start(timestamp))
  {
    FreshSound(timestamp);
  }

  lemma CollectedHolds(rows: Rows, files: FileMap)
    requires RowsAre(rows, files, files.Keys)
    ensures Holds(Collected(rows), files)
  {
    CollectedRoundTrip(rows);
    var ks, cs := InOrder(rows.Keys), Collected(rows);
    forall i | 0 <= i < |ks| ensures ks[i] in rows && cs[i] == ChangeOf(ks[i], rows[ks[i]]) { assert ks[i] in ks; }
    forall c | c in cs ensures c.Upsert? && RowFrom(files, files.Keys, c.path, Upserted(c.entry)) {
      var i :| 0 <= i < |cs| && cs[i] == c;
      assert RowFrom(files, files.Keys, ks[i], rows[ks[i]]);
    }
    forall f | f in files ensures exists i :: 0 <= i < |cs| && cs[i].path == Trim(f) {
      assert Trim(f) in ks;
      var i :| 0 <= i < |ks| && ks[i] == Trim(f);
      assert cs[i].path == Trim(f);
    }
  }

  lemma StagedRowsAre(rows: Rows, files: FileMap, done: set<Path>, p: Path)
    requires RowsAre(rows, files, done) && p in files
    ensures RowsAre(rows[Trim(p) := Upserted(EntryFor(p, files[p]))], files, done + {p})
  {
    var rows' := rows[Trim(p) := Upserted(EntryFor(p, files[p]))];
    forall q | q in rows' ensures RowFrom(files, done + {p}, q, rows'[q]) {
      if q == Trim(p) {
        assert p in done + {p};
      } else {
        assert RowFrom(files, done, q, rows[q]);
        var f :| f in done && f in files && Trim(f) == q && rows[q] == Upserted(EntryFor(f, files[f]));
        assert f in done + {p};
      }
    }
  }

  /** Events that leave the store alone keep every landed revision. */
  lemma MapEventKeepsLanded(s: Server, e: Event)
    requires NamesOk(s) && OnMaps(e) && AllLanded(s)
    ensures Next(s, e).store == s.store && AllLanded(Next(s, e))
  {
    var s' := Next(s, e);
    forall r: nat | 0 < r <= s.store.files.head ensures LandedOk(s', r) { assert LandedOk(s, r); }
  }

  predicate OnMaps(e: Event) {
    e.Create? || e.Put? || e.DeleteActivity? || e.TakeTxn? || e.Acquire?
  }

  lemma MapEventKeepsNames(s: Server, e: Event)
    requires NamesOk(s) && OnMaps(e)
    ensures NamesOk(Next(s, e))
  {
    var s' := Next(s, e);
    if s' != s {
      forall q | q in s'.merges ensures MergeOk(s', q) { assert q in s.merges ==> MergeOk(s, q); }
    }
  }

  lemma MapEventKeepsTables(s: Server, e: Event)
    requires NamesOk(s) && TablesOk(s) && OnMaps(e)
    ensures TablesOk(Next(s, e))
  {
    var s' := Next(s, e);
    if e.Acquire? && s' != s {
      assert s'.merges[e.request].files.Keys - s'.merges[e.request].todo == {};
    }
  }

  lemma MapEventKeeps(s: Server, e: Event)
    requires Inv(s) && OnMaps(e)
    ensures Inv(Next(s, e))
  {
    MapEventKeepsNames(s, e);
    MapEventKeepsTables(s, e);
    MapEventKeepsLanded(s, e);
  }

  lemma StageFileKeepsTables(s: Server, e: Event)
    requires TablesOk(s) && e.StageFile?
    ensures TablesOk(Next(s, e))
  {
    var s', q := Next(s, e), e.request;
    if HoldsLock(s, q) && e.path in s.merges[q].todo && e.path in s.merges[q].files {
      var m := s.merges[q];
      StagedRowsAre(s.store.work.rows, m.files, m.files.Keys - m.todo, e.path);
      assert m.files.Keys - (m.todo - {e.path}) == m.files.Keys - m.todo + {e.path};
    }
  }

  lemma StageFileKeepsNames(s: Server, e: Event)
    requires NamesOk(s) && e.StageFile?
    ensures NamesOk(Next(s, e))
  {
    if Next(s, e) != s {
      var m := s.merges[e.request];
      FewerFilesKeepNames(s, Next(s, e), e.request, m.todo - {e.path});
    }
  }

  lemma FewerFilesKeepNames(s: Server, s': Server, q: nat, todo: set<Path>)
    requires NamesOk(s) && HoldsLock(s, q) && todo <= s.merges[q].todo
    requires s' == s.(store := s'.store, merges := s.merges[q := s.merges[q].(todo := todo)])
    ensures NamesOk(s')
  {
    assert MergeOk(s, q);
    forall k | k in s'.merges ensures MergeOk(s', k) { assert MergeOk(s, k); }
  }

  lemma StageFileKeepsLanded(s: Server, e: Event)
    requires AllLanded(s) && e.StageFile?
    ensures AllLanded(Next(s, e))
  {
    var s' := Next(s, e);
    forall r: nat | 0 < r <= s'.store.files.head ensures LandedOk(s', r) { assert LandedOk(s, r); }
  }

  lemma StageFileKeeps(s: Server, e: Event)
    requires Inv(s) && e.StageFile?
    ensures Inv(Next(s, e))
  {
    var q := e.request;
    StageFileKeepsTables(s, e);
    StageFileKeepsNames(s, e);
    StageFileKeepsLanded(s, e);
    if Next(s, e) != s { FileAddedSound(s.store, e.path, s.merges[q].files[e.path], Executable(e.path)); }
  }

  lemma ReleaseKeepsNames(s: Server, q: nat, o: Outcome, s': Server)
    requires NamesOk(s) && HoldsLock(s, q) && !o.Open?
    requires s'.txns == s.txns && s'.counter == s.counter && s'.lock == None && s'.taken == s.taken
    requires s'.merges == s.merges - {q} && s'.outcome == s.outcome[s.merges[q].name := o]
    ensures NamesOk(s')
  {
    assert MergeOk(s, q);
    forall k | k in s'.merges ensures MergeOk(s', k) { assert MergeOk(s, k); }
  }

  lemma CommitLands(s: Server, e: Event)
    requires Inv(s) && e.Commit? && HoldsLock(s, e.request) && s.merges[e.request].todo == {}
    ensures AllLanded(Next(s, e))
  {
    var s', m, head := Next(s, e), s.merges[e.request], s.store.files.head;
    assert MergeOk(s, e.request);
    assert m.files.Keys - m.todo == m.files.Keys;
    CollectedHolds(s.store.work.rows, m.files);
    forall r: nat | 0 < r <= head + 1 ensures LandedOk(s', r) {
      if r <= head { assert LandedOk(s, r); }
    }
  }

  lemma CommitKeeps(s: Server, e: Event)
    requires Inv(s) && e.Commit?
    ensures Inv(Next(s, e))
  {
    if Next(s, e) != s {
      CommitLands(s, e);
      CommittedSound(s.store, e.meta, true);
      assert MergeOk(s, e.request);
      ReleaseKeepsNames(s, e.request, Landed(s.store.files.head + 1), Next(s, e));
    }
  }

  lemma RefuseKeepsLanded(s: Server, e: Event)
    requires NamesOk(s) && AllLanded(s) && e.HookRefuses?
    ensures AllLanded(Next(s, e))
  {
    var s', q := Next(s, e), e.request;
    if s' != s {
      assert MergeOk(s, q);
      forall r: nat | 0 < r <= s'.store.files.head ensures LandedOk(s', r) { assert LandedOk(s, r); }
    }
  }

  lemma RefuseKeeps(s: Server, e: Event)
    requires Inv(s) && e.HookRefuses?
    ensures Inv(Next(s, e))
  {
    RefuseKeepsLanded(s, e);
    if Next(s, e) != s {
      assert MergeOk(s, e.request);
      ReleaseKeepsNames(s, e.request, Refused, Next(s, e));
      GatheredFits(s.store, Meta("", "", 0), true);
    }
  }

  lemma EventKeepsInv(s: Server, e: Event)
    requires Inv(s)
    ensures Inv(Next(s, e))
  {
    match e {
      case StageFile(_, _) => StageFileKeeps(s, e);
      case Commit(_, _) => CommitKeeps(s, e);
      case HookRefuses(_) => RefuseKeeps(s, e);
      case _ => MapEventKeeps(s, e);
    }
  }

  /**
   * Under every interleaving of requests, each revision holds exactly the files of
   * one transaction as it was when its MERGE took it.
   */
  lemma {:induction false} CommitsAreAtomic(s: Server, es: seq<Event>)
    requires Inv(s)
    ensures Inv(Run(s, es))
    decreases |es|
  {
    if es != [] {
      EventKeepsInv(s, es[0]);
      CommitsAreAtomic(Next(s, es[0]), es[1..]);
    }
  }

  predicate Settled(o: Outcome) {
    o.Landed? || o.Aborted? || o.Refused?
  }

  lemma OutcomeStaysOnce(s: Server, e: Event, n: TxnName)
    requires NamesOk(s) && n in s.outcome && Settled(s.outcome[n])
    ensures n in Next(s, e).outcome && Next(s, e).outcome[n] == s.outcome[n]
  {
    match e
    case Commit(q, _) => assert q in s.merges ==> MergeOk(s, q);
    case HookRefuses(q) => assert q in s.merges ==> MergeOk(s, q);
    case _ =>
  }

  /** A transaction commits at most once, and never after it was deleted. */
  lemma {:induction false} OutcomeStays(s: Server, es: seq<Event>, n: TxnName)
    requires Inv(s) && n in s.outcome && Settled(s.outcome[n])
    ensures n in Run(s, es).outcome && Run(s, es).outcome[n] == s.outcome[n]
    decreases |es|
  {
    if es != [] {
      EventKeepsInv(s, es[0]);
      OutcomeStaysOnce(s, es[0], n);
      OutcomeStays(Next(s, es[0]), es[1..], n);
    }
  }

  /** Different revisions come from different transactions. */
  lemma OneRevisionPerTransaction(s: Server, r: nat, k: nat)
    requires Inv(s) && 0 < r <= s.store.files.head && 0 < k <= s.store.files.head
    ensures r in s.landedBy && k in s.landedBy && (s.landedBy[r] == s.landedBy[k] ==> r == k)
  {
    assert LandedOk(s, r) && LandedOk(s, k);
  }

  /** With distinct normalised paths: one upsert per staged file, carrying that file. */
  lemma NormalisedFilesLand(cs: seq<TreeChange>, files: FileMap, f: Path)
    requires Holds(cs, files) && f in files
    requires forall g :: g in files && Trim(g) == Trim(f) ==> g == f
    ensures Upsert(Trim(f), EntryFor(f, files[f])) in cs
  {
    var i :| 0 <= i < |cs| && cs[i].path == Trim(f);
    assert cs[i] in cs;
    assert RowFrom(files, files.Keys, cs[i].path, Upserted(cs[i].entry));
  }

  // ------------------------------------------------- what readers see of it

  /** The pending rows explain the working table, and the files replay. */
  ghost predicate InStep(s: Server) {
    Inv(s) && Chained(s.store.files) && Agrees(Recorded(s.store.files, s.store.files.head), s.store.work)
  }

  lemma StagingStaysInStep(s: Server, e: Event)
    requires InStep(s) && e.StageFile? && Next(s, e) != s
    ensures Next(s, e).store.files == s.store.files
    ensures Agrees(Recorded(s.store.files, s.store.files.head), Next(s, e).store.work)
  {
    var m, p := s.merges[e.request], Trim(e.path);
    if p in s.store.work.rows {
      assert RowFrom(m.files, m.files.Keys - m.todo, p, s.store.work.rows[p]);
    }
    InsertAgreesIff(Recorded(s.store.files, s.store.files.head), s.store.work, p, EntryFor(e.path, m.files[e.path]));
  }

  lemma EventKeepsInStep(s: Server, e: Event)
    requires InStep(s) && !e.HookRefuses?
    ensures InStep(Next(s, e))
  {
    EventKeepsInv(s, e);
    if e.StageFile? {
      if Next(s, e) != s { StagingStaysInStep(s, e); }
    } else {
      StoreChanges(s, e);
      if e.Commit? { CommitStaysInStep(s.store, e.meta); }
    }
  }

  /** Besides staging and refusing only a commit changes the store. */
  lemma StoreChanges(s: Server, e: Event)
    requires !e.HookRefuses? && !e.StageFile?
    ensures Next(s, e).store == s.store || (e.Commit? && Next(s, e).store == Committed(s.store, e.meta, true))
  {
  }

  lemma CommitStaysInStep(st: Store, meta: Meta)
    requires Sound(st) && Chained(st.files) && Agrees(Recorded(st.files, st.files.head), st.work)
    ensures var st' := Committed(st, meta, true);
            Chained(st'.files) && Agrees(Recorded(st'.files, st'.files.head), st'.work)
  {
    CollectReplaysIff(Recorded(st.files, st.files.head), st.work);
    GatheredFits(st, meta, true);
    PublishedChained(st.files, Gathered(st, meta, true));
    NothingStagedAgreesIff(st.work.tree, st.work.tree);
  }

  lemma {:induction false} RunsStayInStep(s: Server, es: seq<Event>)
    requires InStep(s) && forall i :: 0 <= i < |es| ==> !es[i].HookRefuses?
    ensures InStep(Run(s, es))
    decreases |es|
  {
    if es != [] {
      EventKeepsInStep(s, es[0]);
      RunsStayInStep(Next(s, es[0]), es[1..]);
    }
  }

  lemma StartInStep(timestamp: int)
    ensures InStep(Start(timestamp))
  {
    StartInv(timestamp);
    NothingStagedAgreesIff(map[], map[]);
  }

  /** A refusal that takes place when the staged files are all in the head's tree already. */
  ghost predicate HarmlessRefusal(s: Server, e: Event) {
    e.HookRefuses? && Next(s, e) != s ==> s.store.work.tree == Recorded(s.store.files, s.store.files.head)
  }

  /** A refusing hook drops the pending rows but leaves the table: exactly a harmless one keeps them in step. */
  lemma EventInStepIff(s: Server, e: Event)
    requires InStep(s)
    ensures InStep(Next(s, e)) <==> HarmlessRefusal(s, e)
  {
    if e.HookRefuses? {
      EventKeepsInv(s, e);
      if Next(s, e) != s { RefusalTakesRows(s, e); }
    } else {
      EventKeepsInStep(s, e);
    }
  }

  lemma RefusalTakesRows(s: Server, e: Event)
    requires e.HookRefuses? && Next(s, e) != s
    ensures Next(s, e).store == RowsTaken(s.store)
    ensures var base := Recorded(s.store.files, s.store.files.head);
            Agrees(base, Next(s, e).store.work) <==> s.store.work.tree == base
  {
    NothingStagedAgreesIff(Recorded(s.store.files, s.store.files.head), s.store.work.tree);
  }

  ghost predicate AlwaysInStep(s: Server, es: seq<Event>)
    decreases |es|
  {
    InStep(s) && (es == [] || AlwaysInStep(Next(s, es[0]), es[1..]))
  }

  ghost predicate RefusalsHarmless(s: Server, es: seq<Event>)
    decreases |es|
  {
    es == [] || (HarmlessRefusal(s, es[0]) && RefusalsHarmless(Next(s, es[0]), es[1..]))
  }

  /** With refusing hooks: in step at every moment if and only if every refusal was harmless. */
  lemma {:induction false} RunsInStepIff(s: Server, es: seq<Event>)
    requires InStep(s)
    ensures AlwaysInStep(s, es) <==> RefusalsHarmless(s, es)
    decreases |es|
  {
    if es != [] {
      EventInStepIff(s, es[0]);
      if HarmlessRefusal(s, es[0]) { RunsInStepIff(Next(s, es[0]), es[1..]); }
    }
  }

  /**
   * Without rejecting hooks revision r shows revision r - 1 with the transaction's
   * files laid over it: a path is new exactly when one of them ends up there.
   */
  lemma LandedTree(s: Server, r: nat, q: Path)
    requires InStep(s) && 0 < r <= s.store.files.head
    ensures LandedOk(s, r)
    ensures var files := s.taken[s.landedBy[r]];
            var before, after := Recorded(s.store.files, r - 1), Recorded(s.store.files, r);
            if exists f :: f in files && Trim(f) == q
            then q in after && RowFrom(files, files.Keys, q, Upserted(after[q]))
            else Look(after, q) == Look(before, q)
  {
    assert LandedOk(s, r) && ReplayLinked(s.store.files, r);
    var cs, files := s.store.files.deltas[r].changes, s.taken[s.landedBy[r]];
    ReplayIsPointwise(Recorded(s.store.files, r - 1), cs, q);
    RowsOfKeys(cs);
    var rows := RowsOf(cs);
    forall p | p in rows ensures rows[p].Upserted? && RowFrom(files, files.Keys, p, rows[p]) {
      var i :| 0 <= i < |cs| && cs[i].path == p;
      OwnRow(cs, i);
      assert cs[i] in cs;
    }
    if f :| f in files && Trim(f) == q {
      var i :| 0 <= i < |cs| && cs[i].path == Trim(f);
    }
  }
}
