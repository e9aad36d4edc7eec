// A source that goes on committing while it is pulled from or synced.
module LiveSources {
  import opened Store
  import opened Runs
  import opened Replication
  import opened RemotePull
  import opened MirroredRuns

  /** What clients do before the next request. */
  function NextSteps(between: seq<seq<Step>>): seq<Step> {
    if between == [] then [] else between[0]
  }

  function LaterSteps(between: seq<seq<Step>>): seq<seq<Step>> {
    if between == [] then [] else between[1..]
  }

  lemma RunKeepsShape(s: System, steps: seq<Step>)
    requires Shape(s)
    ensures Shape(Run(s, steps)) && Grown(s.store, Run(s, steps).store)
  {
    RunsOnlyAppend(s, steps, 0);
    RunsGrow(s, steps);
  }

  /** A pull of current..=head whose server runs `between` its answers. */
  ghost function PulledLive(s: System, dst: Store, current: nat, head: nat, between: seq<seq<Step>>): Store
    requires Shape(s) && 0 < current <= head + 1 && head <= s.store.files.head
    decreases head + 1 - current
  {
    if current > head then dst
    else
      var last := BatchEnd(current, head);
      RunKeepsShape(s, NextSteps(between));
      PulledLive(Run(s, NextSteps(between)), PulledAll(dst, Extracts(s.store, current, last)), last + 1, head,
        LaterSteps(between))
  }

  /** A sync of rev..=head whose source runs `between` the revisions. */
  ghost function SyncedLive(
    s: System, dst: Store, rev: nat, head: nat, allowEmpty: bool, between: seq<seq<Step>>): Store
    requires Shape(s) && 0 < rev <= head + 1 && head <= s.store.files.head
    decreases head + 1 - rev
  {
    if rev > head then dst
    else
      RunKeepsShape(s, NextSteps(between));
      SyncedLive(Run(s, NextSteps(between)), Applied(dst, Extract(s.store, rev), allowEmpty), rev + 1, head, allowEmpty,
        LaterSteps(between))
  }

  /** What is extracted of a revision does not change when the source grows. */
  lemma ExtractStays(earlier: Store, later: Store, rev: nat)
    requires Grown(earlier, later) && rev <= earlier.files.head
    ensures Extract(earlier, rev) == Extract(later, rev)
  {
    assert SameRevision(earlier.files, later.files, rev);
    BlobsOfGrown(earlier.objects, later.objects, earlier.files.deltas[rev].changes);
  }

  lemma ExtractsStay(earlier: Store, later: Store, from: nat, last: nat)
    requires Grown(earlier, later) && 0 < from <= last + 1 && last <= earlier.files.head
    ensures Extracts(earlier, from, last) == Extracts(later, from, last)
  {
    forall rev: nat | from <= rev <= last ensures Extract(earlier, rev) == Extract(later, rev) {
      ExtractStays(earlier, later, rev);
    }
  }

  /** A pull from a server that goes on committing leaves what a pull of the server at its start leaves. */
  lemma {:induction false} LivePullIsPull(s: System, dst: Store, current: nat, head: nat, between: seq<seq<Step>>)
    requires Shape(s) && 0 < current <= head + 1 && head <= s.store.files.head
    ensures PulledLive(s, dst, current, head, between) == PulledAll(dst, Extracts(s.store, current, head))
    decreases head + 1 - current
  {
    if current <= head {
      var s', last := Run(s, NextSteps(between)), BatchEnd(current, head);
      var now := PulledAll(dst, Extracts(s.store, current, last));
      RunKeepsShape(s, NextSteps(between));
      LivePullIsPull(s', now, last + 1, head, LaterSteps(between));
      ExtractsStay(s.store, s'.store, last + 1, head);
      PulledConcat(dst, Extracts(s.store, current, last), Extracts(s.store, last + 1, head));
      ExtractsConcat(s.store, current, last + 1, head);
    }
  }

  /** The same for a sync, which extracts one revision at a time. */
  lemma {:induction false} LiveSyncIsSync(
    s: System, dst: Store, rev: nat, head: nat, allowEmpty: bool, between: seq<seq<Step>>)
    requires Shape(s) && 0 < rev <= head + 1 && head <= s.store.files.head
    ensures SyncedLive(s, dst, rev, head, allowEmpty, between) == Synced(s.store, dst, rev, head, allowEmpty)
    decreases head + 1 - rev
  {
    if rev <= head {
      var s', now := Run(s, NextSteps(between)), Applied(dst, Extract(s.store, rev), allowEmpty);
      RunKeepsShape(s, NextSteps(between));
      LiveSyncIsSync(s', now, rev + 1, head, allowEmpty, LaterSteps(between));
      ExtractsStay(s.store, s'.store, rev + 1, head);
      FirstSynced(s.store, dst, rev, allowEmpty);
      SyncSplit(s.store, dst, now, rev, rev + 1, head, allowEmpty);
    } else {
      SyncedNothing(s.store, dst, rev, allowEmpty);
    }
  }

  lemma FirstSynced(src: Store, dst: Store, rev: nat, allowEmpty: bool)
    requires FilesOk(src.files) && 0 < rev <= src.files.head
    ensures Synced(src, dst, rev, rev, allowEmpty) == Applied(dst, Extract(src, rev), allowEmpty)
  {
    SyncedStep(src, dst, rev, rev, allowEmpty);
    SyncedNothing(src, dst, rev, allowEmpty);
  }
}
