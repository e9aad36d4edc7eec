// RemotePull: batches of revisions over HTTP, replayed into a local repository.
module RemotePull {
  import opened ObjectModel
  import opened Store
  import opened Repository
  import opened Replication
  import opened SyncSession

  const MAX_DELTA_RANGE: nat := 500
  const BATCH_SIZE: nat := 100

  // ----------------------------------------------------------------- server

  datatype RevisionSummary = RevisionSummary(rev: nat, meta: Meta, changeCount: nat)

  /** How many revisions of from..=last there are. */
  function Existing(from: nat, last: nat, head: nat): nat {
    if from > last || from > head then 0 else if last <= head then last + 1 - from else head + 1 - from
  }

  predicate Summarises(f: Files, rev: nat, s: RevisionSummary) {
    rev in f.commits && rev in f.deltas && s == RevisionSummary(rev, f.commits[rev].meta, |f.deltas[rev].changes|)
  }

  /** GET /sync/revs: revisions that do not exist are skipped. */
  method HandleRevs(repo: Repository, from: nat, last: nat) returns (r: Result<seq<RevisionSummary>>)
    requires repo.Valid()
    ensures r.Err? <==> from > last
    ensures r.Ok? ==> |r.value| == Existing(from, last, repo.currentRev)
    ensures r.Ok? ==> forall i :: 0 <= i < |r.value| ==> Summarises(repo.State().files, from + i, r.value[i])
  {
    if from > last { return Err(RevisionNotFound(from)); }
    var summaries: seq<RevisionSummary> := [];
    var rev := from;
    while rev <= last
      invariant from <= rev <= last + 1
      invariant |summaries| == if rev == from then 0 else Existing(from, rev - 1, repo.currentRev)
      invariant forall i :: 0 <= i < |summaries| ==> Summarises(repo.State().files, from + i, summaries[i])
    {
      if rev in repo.commits {
        var changeCount := if rev in repo.deltas then |repo.deltas[rev].changes| else 0;
        summaries := summaries + [RevisionSummary(rev, repo.commits[rev].meta, changeCount)];
      }
      rev := rev + 1;
    }
    r := Ok(summaries);
  }

  /** GET /sync/delta */
  method HandleDelta(repo: Repository, from: nat, last: nat) returns (r: Result<seq<RevisionData>>)
    requires repo.Valid()
    ensures from <= last <= repo.currentRev && last - from + 1 <= MAX_DELTA_RANGE ==>
              r == Ok(Extracts(repo.State(), from, last))
    ensures from > last || last - from + 1 > MAX_DELTA_RANGE || last > repo.currentRev ==> r.Err?
  {
    if from > last || last - from + 1 > MAX_DELTA_RANGE { return Err(RevisionNotFound(from)); }
    var revisions: seq<RevisionData> := [];
    var rev := from;
    while rev <= last
      invariant from <= rev <= last + 1 && |revisions| == rev - from
      invariant rev == from || rev <= repo.currentRev + 1
      invariant forall i :: 0 <= i < |revisions| ==> revisions[i] == Extract(repo.State(), from + i)
    {
      var data := ExtractRevisionData(repo, rev);
      if data.Err? { return Err(data.error); }
      revisions := revisions + [data.value];
      rev := rev + 1;
    }
    assert rev > from ==> revisions == Extracts(repo.State(), from, last);
    r := Ok(revisions);
  }

  // ------------------------------------------------------------ one revision

  /** Unlike the local tool the pull leaves out a file whose object was not sent. */
  function PulledChange(s: Store, c: TreeChange, list: ObjectList): Store {
    match c
    case Delete(path) => PathDeleted(s, path)
    case Upsert(path, entry) =>
      if entry.kind.TreeKind? then DirAdded(s, path)
      else
        match FindObject(list, entry.id)
        case Some(data) => FileAdded(s, path, data, entry.mode == EXEC_MODE)
        case None => s
  }

  function PulledChanges(s: Store, cs: seq<TreeChange>, list: ObjectList): Store {
    if cs == [] then s else PulledChange(PulledChanges(s, cs[..|cs| - 1], list), cs[|cs| - 1], list)
  }

  /** One pulled revision: the pull ignores allow_empty and commits every revision. */
  ghost function PulledRevision(dst: Store, d: RevisionData): Store {
    var staged := PulledChanges(dst.(objects := ObjectsStored(dst.objects, d.objects)), d.delta.changes, d.objects);
    Committed(staged, d.meta, false)
  }

  ghost function PulledAll(dst: Store, ds: seq<RevisionData>): Store {
    if ds == [] then dst else PulledRevision(PulledAll(dst, ds[..|ds| - 1]), ds[|ds| - 1])
  }

  method PullChanges(dest: Repository, changes: seq<TreeChange>, list: ObjectList)
    requires dest.Valid()
    modifies dest
    ensures dest.Valid() && dest.State() == PulledChanges(old(dest.State()), changes, list)
  {
    ghost var s := dest.State();
    var i := 0;
    while i < |changes|
      invariant 0 <= i <= |changes| && dest.Valid() && dest.State() == PulledChanges(s, changes[..i], list)
    {
      assert changes[..i + 1][..i] == changes[..i];
      match changes[i] {
        case Upsert(path, entry) =>
          if entry.kind.BlobKind? {
            var found := FindObject(list, entry.id);
            if found.Some? { var _ := dest.AddFile(path, found.value, entry.mode == EXEC_MODE); }
          } else {
            dest.Mkdir(path);
          }
        case Delete(path) => dest.DeleteFile(path);
      }
      i := i + 1;
    }
    assert changes[..i] == changes;
  }

  method PullRevision(dest: Repository, d: RevisionData) returns (r: Result<nat>)
    requires dest.Valid()
    modifies dest
    ensures dest.Valid()
    ensures d.contentHash != DigestOf(d.objects) ==>
              r == Err(HashMismatch(d.revision)) && dest.State() == old(dest.State())
    ensures d.contentHash == DigestOf(d.objects) ==>
              r == Ok(old(dest.currentRev) + 1) && dest.State() == PulledRevision(old(dest.State()), d)
  {
    if DigestOf(d.objects) != d.contentHash { return Err(HashMismatch(d.revision)); }
    StoreObjects(dest, d.objects);
    ghost var s := dest.State();
    PullChanges(dest, d.delta.changes, d.objects);
    PulledChangesKeepFiles(s, d.delta.changes, d.objects);
    r := dest.CommitSync(d.meta, true);
  }

  lemma {:induction false} PulledChangesKeepFiles(s: Store, cs: seq<TreeChange>, list: ObjectList)
    ensures PulledChanges(s, cs, list).files == s.files
  {
    if cs != [] { PulledChangesKeepFiles(s, cs[..|cs| - 1], list); }
  }

  // ---------------------------------------------------------------- batches

  /** The list arrived as it was sent. */
  predicate Unharmed(d: RevisionData) {
    d.contentHash == DigestOf(d.objects)
  }

  /** The first revision whose list was changed on the way, or the length. */
  function FirstBad(ds: seq<RevisionData>): (k: nat)
    ensures k <= |ds| && forall i :: 0 <= i < k ==> Unharmed(ds[i])
    ensures k < |ds| ==> !Unharmed(ds[k])
  {
    if ds == [] || !Unharmed(ds[0]) then 0
    else
      var k := FirstBad(ds[1..]);
      assert forall i :: 0 < i < |ds| ==> ds[i] == ds[1..][i - 1];
      k + 1
  }

  /** The first `i` revisions of the batch are in. */
  ghost predicate BatchTo(start: Store, ds: seq<RevisionData>, i: nat, now: Store) {
    i <= |ds| && now == PulledAll(start, ds[..i])
  }

  lemma BatchStep(start: Store, ds: seq<RevisionData>, i: nat, now: Store)
    requires i < |ds| && BatchTo(start, ds, i, now)
    ensures BatchTo(start, ds, i + 1, PulledRevision(now, ds[i]))
  {
    assert ds[..i + 1][..i] == ds[..i];
  }

  lemma StopsAtTheBad(ds: seq<RevisionData>, i: nat)
    requires i < |ds| && i <= FirstBad(ds)
    ensures Unharmed(ds[i]) <==> i < FirstBad(ds)
  {
  }

  method PullNext(dest: Repository, ghost start: Store, batch: seq<RevisionData>, i: nat) returns (r: Result<nat>)
    requires dest.Valid() && i < |batch| && i <= FirstBad(batch) && BatchTo(start, batch, i, dest.State())
    modifies dest
    ensures dest.Valid()
    ensures r.Ok? ==> i < FirstBad(batch) && BatchTo(start, batch, i + 1, dest.State())
    ensures r.Err? ==> BatchPulled(start, batch, Err(r.error), dest.State())
  {
    BatchStep(start, batch, i, dest.State());
    StopsAtTheBad(batch, i);
    r := PullRevision(dest, batch[i]);
  }

  /** Revisions before the first bad one are committed and stay. */
  ghost predicate BatchPulled(start: Store, batch: seq<RevisionData>, r: Result<nat>, now: Store) {
    && BatchTo(start, batch, FirstBad(batch), now)
    && r == if FirstBad(batch) < |batch| then Err(HashMismatch(batch[FirstBad(batch)].revision)) else Ok(|batch|)
  }

  method PullBatch(dest: Repository, batch: seq<RevisionData>) returns (r: Result<nat>)
    requires dest.Valid()
    modifies dest
    ensures dest.Valid() && BatchPulled(old(dest.State()), batch, r, dest.State())
  {
    ghost var start := dest.State();
    assert batch[..0] == [];
    var i := 0;
    while i < |batch|
      invariant 0 <= i <= FirstBad(batch) && dest.Valid() && BatchTo(start, batch, i, dest.State())
    {
      r := PullNext(dest, start, batch, i);
      if r.Err? { return; }
      i := i + 1;
    }
    r := Ok(|batch|);
  }

  /** `now` is the store `start` after pulling revisions from..=last. */
  ghost predicate PulledTo(source: Store, start: Store, from: nat, last: nat, now: Store)
    requires FilesOk(source.files) && 0 < from <= last + 1 && last <= source.files.head
  {
    now == PulledAll(start, Extracts(source, from, last))
  }

  /** Every revision from..next-1 is in, and nothing else. */
  ghost predicate PulledBefore(source: Store, start: Store, from: nat, next: nat, now: Store) {
    && FilesOk(source.files) && 0 < from <= next <= source.files.head + 1
    && PulledTo(source, start, from, next - 1, now)
  }

  lemma NothingPulledYet(source: Store, start: Store, from: nat)
    requires FilesOk(source.files) && 0 < from <= source.files.head
    ensures PulledBefore(source, start, from, from, start)
  {
  }

  lemma {:induction false} PulledConcat(dst: Store, a: seq<RevisionData>, b: seq<RevisionData>)
    ensures PulledAll(dst, a + b) == PulledAll(PulledAll(dst, a), b)
    decreases |b|
  {
    if b == [] {
      assert a + b == a;
    } else {
      assert (a + b)[..|a + b| - 1] == a + b[..|b| - 1];
      PulledConcat(dst, a, b[..|b| - 1]);
    }
  }

  lemma PulledFurther(source: Store, start: Store, half: Store, from: nat, current: nat, last: nat)
    requires FilesOk(source.files) && 0 < from <= current <= last + 1 && last <= source.files.head
    requires PulledTo(source, start, from, current - 1, half)
    ensures PulledTo(source, start, from, last, PulledAll(half, Extracts(source, current, last)))
  {
    PulledConcat(start, Extracts(source, from, current - 1), Extracts(source, current, last));
    ExtractsConcat(source, from, current, last);
  }

  lemma ExtractsConcat(source: Store, from: nat, current: nat, last: nat)
    requires FilesOk(source.files) && 0 < from <= current <= last + 1 && last <= source.files.head
    ensures Extracts(source, from, current - 1) + Extracts(source, current, last) == Extracts(source, from, last)
  {
  }

  lemma ExtractsAreGood(source: Store, from: nat, last: nat, ds: seq<RevisionData>)
    requires FilesOk(source.files) && 0 < from <= last + 1 && last <= source.files.head
    requires ds == Extracts(source, from, last)
    ensures FirstBad(ds) == |ds|
  {
    if FirstBad(ds) < |ds| { ExtractIsUnharmed(source, from, last, FirstBad(ds)); }
  }

  lemma ExtractIsUnharmed(source: Store, from: nat, last: nat, i: nat)
    requires FilesOk(source.files) && 0 < from <= last + 1 && last <= source.files.head && i < last + 1 - from
    ensures Unharmed(Extracts(source, from, last)[i])
  {
    assert Extracts(source, from, last)[i] == Extract(source, from + i);
  }

  lemma WholeBatchPulled(
    source: Store, start: Store, half: Store, from: nat, current: nat, last: nat, batch: seq<RevisionData>,
    r: Result<nat>, now: Store)
    requires PulledBefore(source, start, from, current, half) && current <= last + 1 && last <= source.files.head
    requires batch == Extracts(source, current, last) && BatchPulled(half, batch, r, now)
    ensures PulledBefore(source, start, from, last + 1, now) && r == Ok(|batch|)
  {
    ExtractsAreGood(source, current, last, batch);
    assert batch[..|batch|] == batch;
    PulledFurther(source, start, half, from, current, last);
  }

  /** One request to the server; `start` is the destination before revision `from` was pulled. */
  method PullOneBatch(
    server: Repository, dest: Repository, ghost start: Store, ghost from: nat, current: nat, last: nat)
    returns (r: Result<nat>)
    requires server.Valid() && dest.Valid() && server != dest
    requires 0 < from <= current <= last <= server.currentRev && last - current + 1 <= BATCH_SIZE
    requires PulledBefore(server.State(), start, from, current, dest.State())
    modifies dest
    ensures dest.Valid() && r == Ok(last + 1 - current)
    ensures PulledBefore(server.State(), start, from, last + 1, dest.State())
  {
    ghost var src, half := server.State(), dest.State();
    var batch := HandleDelta(server, current, last);
    r := PullBatch(dest, batch.value);
    WholeBatchPulled(src, start, half, from, current, last, batch.value, r, dest.State());
  }

  function BatchEnd(current: nat, head: nat): (last: nat)
    requires current <= head
    ensures current <= last <= head && last - current + 1 <= BATCH_SIZE
  {
    if current + BATCH_SIZE - 1 <= head then current + BATCH_SIZE - 1 else head
  }

  /** One turn of the loop: ask for the list, then for the data, then save a checkpoint. None ends the loop. */
  method PullAndCheckpoint(
    server: Repository, dest: Repository, state: SyncState, ghost start: Store, ghost from: nat, current: nat,
    head: nat)
    returns (next: Option<nat>)
    requires server.Valid() && dest.Valid() && server != dest && 0 < from <= current <= head <= server.currentRev
    requires PulledBefore(server.State(), start, from, current, dest.State())
    modifies dest, state`checkpointRev
    ensures dest.Valid() && next.Some? && current < next.value <= head + 1
    ensures PulledBefore(server.State(), start, from, next.value, dest.State())
  {
    var batchEnd := BatchEnd(current, head);
    var summaries := HandleRevs(server, current, batchEnd);
    if summaries.value == [] { return None; }
    var pulled := PullOneBatch(server, dest, start, from, current, batchEnd);
    state.SetCheckpoint(batchEnd);
    next := Some(batchEnd + 1);
  }

  /** Batches of at most 100 cover from..=head once each; the server answers each one. */
  method PullRange(
    server: Repository, dest: Repository, state: SyncState, from: nat, head: nat)
    returns (revisions: nat)
    requires server.Valid() && dest.Valid() && server != dest && 0 < from <= head <= server.currentRev
    modifies dest, state`checkpointRev
    ensures dest.Valid() && revisions == head + 1 - from
    ensures PulledBefore(server.State(), old(dest.State()), from, head + 1, dest.State())
  {
    ghost var d, src := dest.State(), server.State();
    NothingPulledYet(src, d, from);
    revisions := 0;
    var current := from;
    while current <= head
      invariant from <= current <= head + 1 && revisions == current - from
      invariant dest.Valid() && PulledBefore(src, d, from, current, dest.State())
    {
      var next := PullAndCheckpoint(server, dest, state, d, from, current, head);
      if next.None? { break; }
      revisions := revisions + (next.value - current);
      current := next.value;
    }
  }

  // ------------------------------------------------------------- whole pulls

  /** What a pull answers and leaves, starting after revision `start`. */
  ghost predicate Pulled(r: Result<SyncResult>, server: Store, before: Store, after: Store, start: nat) {
    FilesOk(server.files) &&
    if start >= server.files.head then r == Ok(SyncResult(0, 0, 0, true)) && after == before
    else
      && r == Ok(SyncResult(start + 1, server.files.head, server.files.head - start, false))
      && PulledTo(server, before, start + 1, server.files.head, after)
  }

  /** The part of a pull after the checks. */
  method PullNew(server: Repository, dest: Repository, state: SyncState) returns (r: Result<SyncResult>)
    requires server.Valid() && dest.Valid() && server != dest
    modifies dest, state
    ensures dest.Valid()
    ensures Pulled(r, server.State(), old(dest.State()), dest.State(), old(state.EffectiveStartRev()))
    ensures r != Ok(SyncResult(0, 0, 0, true)) ==> state.Completed(server.currentRev)
  {
    var from := state.EffectiveStartRev() + 1;
    var head := server.currentRev;
    if from > head { return Ok(SyncResult(0, 0, 0, true)); }
    state.BeginSync(head);
    var revisions := PullRange(server, dest, state, from, head);
    state.CompleteSync(head);
    r := Ok(SyncResult(from, head, revisions, false));
  }

  method PullChecked(server: Repository, serverUuid: string, dest: Repository, state: SyncState?)
    returns (r: Result<SyncResult>)
    requires server.Valid() && dest.Valid() && server != dest
    modifies dest, state
    ensures dest.Valid()
    ensures state == null ==> r == Err(NotInitialized) && dest.State() == old(dest.State())
    ensures state != null && state.sourceUuid != serverUuid ==>
              r == Err(SourceMismatch) && dest.State() == old(dest.State())
    ensures state != null && state.sourceUuid == serverUuid ==>
              && Pulled(r, server.State(), old(dest.State()), dest.State(), old(state.EffectiveStartRev()))
              && (r != Ok(SyncResult(0, 0, 0, true)) ==> state.Completed(server.currentRev))
  {
    if state == null { return Err(NotInitialized); }
    if state.sourceUuid != serverUuid { return Err(SourceMismatch); }
    r := PullNew(server, dest, state);
  }

  /** RemotePull::pull, uninterrupted; the destination is reopened before anything is checked. */
  method Pull(
    server: Repository, serverUuid: string, dest: Repository, state: SyncState?)
    returns (r: Result<SyncResult>)
    requires server.Valid() && dest.Valid() && server != dest
    modifies dest, state
    ensures dest.Valid()
    ensures state == null ==> r == Err(NotInitialized) && dest.State() == Reopened(old(dest.State()))
    ensures state != null && state.sourceUuid != serverUuid ==>
              r == Err(SourceMismatch) && dest.State() == Reopened(old(dest.State()))
    ensures state != null && state.sourceUuid == serverUuid ==>
              && Pulled(r, server.State(), Reopened(old(dest.State())), dest.State(), old(state.EffectiveStartRev()))
              && (r != Ok(SyncResult(0, 0, 0, true)) ==> state.Completed(server.currentRev))
  {
    dest.Reopen();
    r := PullChecked(server, serverUuid, dest, state);
  }

  // ------------------------------------------- a pull and a sync are the same

  lemma {:induction false} PulledIsStaged(s: Store, cs: seq<TreeChange>, list: ObjectList)
    requires Carries(list, cs)
    ensures PulledChanges(s, cs, list) == StageAll(s, cs, list)
  {
    if cs != [] { PulledIsStaged(s, cs[..|cs| - 1], list); }
  }

  /** From an honest server a pull leaves what a sync that allows empty commits leaves. */
  lemma {:induction false} PullIsSync(source: Store, start: Store, from: nat, last: nat)
    requires Honest(source) && 0 < from <= last + 1 && last <= source.files.head
    ensures PulledTo(source, start, from, last, Synced(source, start, from, last, true))
    decreases last
  {
    if from <= last {
      PullIsSync(source, start, from, last - 1);
      SyncedStep(source, start, from, last, true);
      OneMorePulled(source, start, Synced(source, start, from, last - 1, true), from, last);
    }
  }

  lemma OneMorePulled(source: Store, start: Store, half: Store, from: nat, last: nat)
    requires Honest(source) && 0 < from <= last <= source.files.head && PulledTo(source, start, from, last - 1, half)
    ensures PulledTo(source, start, from, last, Applied(half, Extract(source, last), true))
  {
    PulledLast(source, half, last);
    PulledFurther(source, start, half, from, last, last);
  }

  lemma PulledLast(source: Store, half: Store, last: nat)
    requires Honest(source) && 0 < last <= source.files.head
    ensures PulledAll(half, Extracts(source, last, last)) == Applied(half, Extract(source, last), true)
  {
    assert Extracts(source, last, last) == [Extract(source, last)];
    PulledOne(half, Extract(source, last));
    ExtractCarries(source, last);
    PulledIsApplied(half, Extract(source, last));
  }

  lemma PulledOne(dst: Store, d: RevisionData)
    ensures PulledAll(dst, [d]) == PulledRevision(dst, d)
  {
    assert [d][..0] == [];
  }

  lemma PulledIsApplied(dst: Store, d: RevisionData)
    requires Carries(d.objects, d.delta.changes)
    ensures PulledRevision(dst, d) == Applied(dst, d, true)
  {
    PulledIsStaged(dst.(objects := ObjectsStored(dst.objects, d.objects)), d.delta.changes, d.objects);
  }
}
