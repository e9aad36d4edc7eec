// Many readers inside get_tree_at_rev at once. Every lock acquisition on the tree
// cache is one step; between two steps any other reader or a commit may run.
module Readers {
  import opened ObjectModel
  import opened Replay
  import opened Store
  import opened TreeCache

  type Chain = seq<(nat, DeltaTree)>

  datatype Reader =
    | Asked(rev: nat)                                         // first lookup
    | Loaded(rev: nat)                                        // has the snapshot of rev, will put it
    | Walking(rev: nat, cur: nat, chain: Chain)               // loop head of the walk back
    | AtBase(rev: nat, cur: nat, chain: Chain)                // second lookup of the base
    | BaseLoaded(rev: nat, cur: nat, chain: Chain)            // has the base snapshot, will put it
    | Replaying(rev: nat, at: nat, tree: Tree, chain: Chain)  // next delta, then put
    | Done(rev: nat, tree: Tree)
    | Failed(error: Error)

  datatype World = World(files: Files, cache: Cache, readers: map<nat, Reader>)

  datatype Event = Ask(id: nat, rev: nat) | Move(id: nat) | Publish(commit: Pending)

  /** The reader's next step; the cache comes first in the pair. */
  function Advance(f: Files, c: Cache, r: Reader): (Cache, Reader) {
    match r
    case Asked(rev) =>
      if rev == 0 then (c, Done(0, map[]))
      else if Lookup(c, rev).Some? then (Touched(c, rev), Done(rev, Lookup(c, rev).value))
      else if rev in f.snapshots then (c, Loaded(rev))
      else (c, Walking(rev, rev, []))
    case Loaded(rev) =>
      if rev in f.snapshots then (Put(c, rev, f.snapshots[rev]), Done(rev, f.snapshots[rev]))
      else (c, Failed(RevisionNotFound(rev)))
    case Walking(rev, cur, chain) =>
      if cur == 0 then (c, AtBase(rev, cur, chain))
      else if Lookup(c, cur).Some? then (Touched(c, cur), AtBase(rev, cur, chain))
      else if cur in f.snapshots then (c, AtBase(rev, cur, chain))
      else if cur in f.deltas then (c, Walking(rev, f.deltas[cur].parentRev, chain + [(cur, f.deltas[cur])]))
      else (c, Failed(RevisionNotFound(rev)))
    case AtBase(rev, cur, chain) =>
      if cur == 0 then (c, Replaying(rev, 0, map[], chain))
      else if Lookup(c, cur).Some? then (Touched(c, cur), Replaying(rev, cur, Lookup(c, cur).value, chain))
      else if cur in f.snapshots then (c, BaseLoaded(rev, cur, chain))
      else (c, Failed(NoBaseTree(cur)))
    case BaseLoaded(rev, cur, chain) =>
      if cur in f.snapshots then (Put(c, cur, f.snapshots[cur]), Replaying(rev, cur, f.snapshots[cur], chain))
      else (c, Failed(NoBaseTree(cur)))
    case Replaying(rev, at, tree, chain) =>
      if chain == [] then (c, Done(rev, tree))
      else
        var (dr, d) := chain[|chain| - 1];
        var t := ReplayAll(tree, d.changes);
        (Put(c, dr, t), Replaying(rev, dr, t, chain[..|chain| - 1]))
    case _ => (c, r)
  }

  function Next(w: World, e: Event): World {
    match e
    case Ask(id, rev) => w.(readers := w.readers[id := Asked(rev)])
    case Publish(p) => w.(files := Published(w.files, p))
    case Move(id) =>
      if id !in w.readers then w
      else
        var (c, r) := Advance(w.files, w.cache, w.readers[id]);
        w.(cache := c, readers := w.readers[id := r])
  }

  function Run(w: World, es: seq<Event>): World
    decreases |es|
  {
    if es == [] then w else Run(Next(w, es[0]), es[1..])
  }

  /** Commits that take part keep the files in order (see Store.Fits). */
  ghost predicate Sequenced(w: World, es: seq<Event>)
    decreases |es|
  {
    es == [] ||
    ((es[0].Publish? ==> FilesOk(Published(w.files, es[0].commit)) && es[0].commit.rev == w.files.head + 1)
     && Sequenced(Next(w, es[0]), es[1..]))
  }

  ghost predicate ReaderOk(f: Files, r: Reader) {
    match r
    case Asked(_) => true
    case Loaded(rev) => 0 < rev && rev in f.snapshots
    case Walking(rev, cur, chain) => cur + |chain| == rev && DeltasDown(f, chain, rev)
    case AtBase(rev, cur, chain) => cur + |chain| == rev && rev <= f.head && DeltasDown(f, chain, rev)
    case BaseLoaded(rev, cur, chain) =>
      0 < cur && cur in f.snapshots && cur + |chain| == rev && rev <= f.head && DeltasDown(f, chain, rev)
    case Replaying(rev, at, tree, chain) =>
      at + |chain| == rev && rev <= f.head && tree == Recorded(f, at) && DeltasDown(f, chain, rev)
    case Done(rev, tree) => rev <= f.head && tree == Recorded(f, rev)
    case Failed(_) => true
  }

  ghost predicate WorldOk(w: World) {
    && FilesOk(w.files) && Bounded(w.cache) && Correct(w.cache, w.files)
    && forall id :: id in w.readers ==> ReaderOk(w.files, w.readers[id])
  }

  lemma LookupOk(f: Files, c: Cache, k: nat)
    requires Bounded(c) && Correct(c, f)
    ensures Bounded(Touched(c, k)) && Correct(Touched(c, k), f)
    ensures Lookup(c, k).Some? ==> 0 < k <= f.head && Lookup(c, k).value == Recorded(f, k)
  {
    LookupFinds(c, k);
    TouchedKeeps(c, k, f);
  }

  lemma ReplayAdvanceOk(f: Files, c: Cache, r: Reader)
    requires FilesOk(f) && Bounded(c) && Correct(c, f) && ReaderOk(f, r) && r.Replaying?
    ensures var (c', r') := Advance(f, c, r);
            Bounded(c') && Correct(c', f) && ReaderOk(f, r')
  {
    if r.chain != [] {
      var dr := r.chain[|r.chain| - 1].0;
      assert dr == r.at + 1 && Recorded(f, dr) == ReplayAll(r.tree, f.deltas[dr].changes);
      PutKeeps(c, dr, f);
    }
  }

  lemma AdvanceOk(f: Files, c: Cache, r: Reader)
    requires FilesOk(f) && Bounded(c) && Correct(c, f) && ReaderOk(f, r)
    ensures var (c', r') := Advance(f, c, r);
            Bounded(c') && Correct(c', f) && ReaderOk(f, r')
  {
    match r {
      case Asked(rev) => LookupOk(f, c, rev);
      case Loaded(rev) => PutKeeps(c, rev, f);
      case Walking(rev, cur, chain) =>
        LookupOk(f, c, cur);
        if cur != 0 && cur in f.deltas { assert Linked(f, cur); }
        if chain != [] { assert chain[0].0 == rev; }
      case AtBase(rev, cur, chain) => LookupOk(f, c, cur);
      case BaseLoaded(rev, cur, chain) => PutKeeps(c, cur, f);
      case Replaying(_, _, _, _) => ReplayAdvanceOk(f, c, r);
      case _ =>
    }
  }

  lemma ReaderOkAfterPublish(f: Files, p: Pending, r: Reader)
    requires FilesOk(f) && FilesOk(Published(f, p)) && p.rev == f.head + 1 && ReaderOk(f, r)
    ensures ReaderOk(Published(f, p), r)
  {
    match r {
      case Replaying(_, at, _, _) => PublishedKeepsRevisions(f, p, at);
      case Done(rev, _) => PublishedKeepsRevisions(f, p, rev);
      case _ =>
    }
  }

  lemma NextOk(w: World, e: Event)
    requires WorldOk(w)
    requires e.Publish? ==> FilesOk(Published(w.files, e.commit)) && e.commit.rev == w.files.head + 1
    ensures WorldOk(Next(w, e))
  {
    match e {
      case Ask(id, rev) =>
      case Publish(p) =>
        CorrectAfterPublish(w.cache, w.files, p);
        forall id | id in w.readers ensures ReaderOk(Published(w.files, p), w.readers[id]) {
          ReaderOkAfterPublish(w.files, p, w.readers[id]);
        }
      case Move(id) => if id in w.readers { AdvanceOk(w.files, w.cache, w.readers[id]); }
    }
  }

  /**
   * Whatever the schedule, every answer is the tree on record, and the cache holds
   * at most 64 trees, each the right one.
   */
  lemma {:induction false} ReadersNeverWrong(w: World, es: seq<Event>)
    requires WorldOk(w) && Sequenced(w, es)
    ensures WorldOk(Run(w, es))
    decreases |es|
  {
    if es != [] {
      NextOk(w, es[0]);
      ReadersNeverWrong(Next(w, es[0]), es[1..]);
    }
  }

  // ------------------------------------------------- how long a reader takes

  /** The deltas a reader has loaded are at most rev mod 1000. */
  predicate LoadsFew(r: Reader) {
    match r
    case Walking(rev, _, chain) => |chain| <= rev % 1000
    case AtBase(rev, _, chain) => |chain| <= rev % 1000
    case BaseLoaded(rev, _, chain) => |chain| <= rev % 1000
    case Replaying(rev, _, _, chain) => |chain| <= rev % 1000
    case _ => true
  }

  lemma ChainIsShort(f: Files, chain: Chain, rev: nat)
    requires FilesOk(f) && DeltasDown(f, chain, rev) && |chain| <= rev
    ensures |chain| <= rev % 1000
  {
    if rev % 1000 < |chain| { NoSnapshotInChain(f, chain, rev, rev % 1000); }
  }

  lemma NoSnapshotInChain(f: Files, chain: Chain, rev: nat, i: nat)
    requires FilesOk(f) && DeltasDown(f, chain, rev) && i < |chain| <= rev
    ensures (rev - i) % 1000 != 0
  {
    assert chain[i].0 == rev - i && chain[i].0 in f.deltas && chain[i].0 !in f.snapshots;
  }

  lemma OkLoadsFew(f: Files, r: Reader)
    requires FilesOk(f) && ReaderOk(f, r)
    ensures LoadsFew(r)
  {
    match r {
      case Walking(rev, _, chain) => ChainIsShort(f, chain, rev);
      case AtBase(rev, _, chain) => ChainIsShort(f, chain, rev);
      case BaseLoaded(rev, _, chain) => ChainIsShort(f, chain, rev);
      case Replaying(rev, at, _, chain) => ChainIsShort(f, chain, rev);
      case _ =>
    }
  }

  /** Whatever the schedule, no reader ever holds more than rev mod 1000 deltas. */
  lemma ReadersLoadFew(w: World, es: seq<Event>, id: nat)
    requires WorldOk(w) && Sequenced(w, es) && id in Run(w, es).readers
    ensures LoadsFew(Run(w, es).readers[id])
  {
    ReadersNeverWrong(w, es);
    OkLoadsFew(Run(w, es).files, Run(w, es).readers[id]);
  }

  predicate Finished(r: Reader) {
    r.Done? || r.Failed?
  }

  /** An upper bound for the steps a reader still takes. */
  function Rank(r: Reader): nat {
    match r
    case Asked(rev) => 2 * (rev % 1000) + 6
    case Loaded(_) => 1
    case Walking(_, cur, chain) => 2 * (cur % 1000) + |chain| + 5
    case AtBase(_, _, chain) => |chain| + 3
    case BaseLoaded(_, _, chain) => |chain| + 2
    case Replaying(_, _, _, chain) => |chain| + 1
    case _ => 0
  }

  lemma AdvanceFalls(f: Files, c: Cache, r: Reader)
    requires FilesOk(f) && ReaderOk(f, r) && !Finished(r)
    ensures Rank(Advance(f, c, r).1) < Rank(r)
  {
    if r.Walking? { WalkFalls(f, c, r.rev, r.cur, r.chain); }
  }

  lemma WalkFalls(f: Files, c: Cache, rev: nat, cur: nat, chain: Chain)
    requires FilesOk(f)
    ensures Rank(Advance(f, c, Walking(rev, cur, chain)).1) < Rank(Walking(rev, cur, chain))
  {
    if cur in f.deltas && cur !in f.snapshots && cur > 0 {
      assert Linked(f, cur) && !SnapshotDue(cur);
      FallsByOne(cur);
    }
  }

  lemma FallsByOne(n: nat)
    requires n % 1000 != 0
    ensures (n - 1) % 1000 == n % 1000 - 1
  {
  }

  function Moves(es: seq<Event>, id: nat): nat {
    if es == [] then 0 else (if es[0] == Move(id) then 1 else 0) + Moves(es[1..], id)
  }

  predicate NotAskedAgain(es: seq<Event>, id: nat) {
    forall i :: 0 <= i < |es| ==> !es[i].Ask? || es[i].id != id
  }

  /** Every step of a reader brings it closer to an answer or an error, whatever happens in between. */
  lemma {:induction false} StepsCount(w: World, es: seq<Event>, id: nat)
    requires WorldOk(w) && Sequenced(w, es) && id in w.readers && NotAskedAgain(es, id)
    ensures id in Run(w, es).readers
    ensures Finished(Run(w, es).readers[id]) || Rank(Run(w, es).readers[id]) + Moves(es, id) <= Rank(w.readers[id])
    decreases |es|
  {
    if es != [] {
      var w' := Next(w, es[0]);
      NextOk(w, es[0]);
      StepCounts(w, es[0], id);
      assert forall i :: 0 <= i < |es[1..]| ==> es[1..][i] == es[i + 1];
      StepsCount(w', es[1..], id);
    }
  }

  lemma StepCounts(w: World, e: Event, id: nat)
    requires WorldOk(w) && id in w.readers && (e.Ask? ==> e.id != id)
    ensures id in Next(w, e).readers
    ensures var r, r' := w.readers[id], Next(w, e).readers[id];
            if e == Move(id) && !Finished(r) then Rank(r') < Rank(r) else r' == r
  {
    if e == Move(id) && !Finished(w.readers[id]) { AdvanceFalls(w.files, w.cache, w.readers[id]); }
  }

  lemma {:induction false} FinishedStays(w: World, es: seq<Event>, id: nat)
    requires id in w.readers && Finished(w.readers[id]) && NotAskedAgain(es, id)
    ensures id in Run(w, es).readers && Finished(Run(w, es).readers[id])
    decreases |es|
  {
    if es != [] {
      assert forall i :: 0 <= i < |es[1..]| ==> es[1..][i] == es[i + 1];
      FinishedStays(Next(w, es[0]), es[1..], id);
    }
  }

  /** A question is answered after at most 2 * (rev mod 1000) + 6 steps of its reader, on any schedule. */
  lemma EveryReaderFinishes(w: World, es: seq<Event>, id: nat, rev: nat)
    requires WorldOk(w) && Sequenced(w, es) && id in w.readers && w.readers[id] == Asked(rev)
    requires NotAskedAgain(es, id) && Moves(es, id) >= 2 * (rev % 1000) + 6
    ensures id in Run(w, es).readers && Finished(Run(w, es).readers[id])
  {
    StepsCount(w, es, id);
  }

  // ------------------------------------------------------ the vanishing base

  /** The base that the first lookup saw is still there for the second. */
  predicate BaseThere(w: World, r: Reader) {
    match r
    case AtBase(_, cur, _) => cur == 0 || Lookup(w.cache, cur).Some? || cur in w.files.snapshots
    case Failed(e) => !e.NoBaseTree?
    case _ => true
  }

  predicate OnlyReader(es: seq<Event>, id: nat) {
    forall i :: 0 <= i < |es| ==> es[i].Publish? || es[i].id == id
  }

  /** A reader that has the cache to itself never loses its base. */
  lemma {:induction false} LoneReaderNeverFails(w: World, es: seq<Event>, id: nat)
    requires WorldOk(w) && Sequenced(w, es) && OnlyReader(es, id)
    requires id in w.readers ==> BaseThere(w, w.readers[id])
    ensures id in Run(w, es).readers ==> BaseThere(Run(w, es), Run(w, es).readers[id])
    decreases |es|
  {
    if es != [] {
      var w' := Next(w, es[0]);
      NextOk(w, es[0]);
      if es[0].Move? && id in w.readers && w.readers[id].Walking? {
        LookupTouched(w.cache, w.readers[id].cur, w.readers[id].cur);
      }
      assert id in w'.readers ==> BaseThere(w', w'.readers[id]);
      assert forall i :: 0 <= i < |es[1..]| ==> es[1..][i] == es[i + 1];
      LoneReaderNeverFails(w', es[1..], id);
    }
  }

  lemma {:induction false} RunAppend(w: World, es: seq<Event>, e: Event)
    ensures Run(w, es + [e]) == Next(Run(w, es), e)
    decreases |es|
  {
    if es == [] {
      assert [e][1..] == [];
    } else {
      assert (es + [e])[1..] == es[1..] + [e];
      RunAppend(Next(w, es[0]), es[1..], e);
    }
  }

  lemma {:induction false} WithoutPrefix(c: Cache, k: nat, n: nat)
    requires n <= |c| && forall i :: 0 <= i < n ==> c[i].0 != k
    ensures n <= |Without(c, k)| && Without(c, k)[..n] == c[..n]
  {
    if n > 0 { WithoutPrefix(c[1..], k, n - 1); }
  }

  /** The front of the cache holds only revisions from the last `n` puts above `lo`. */
  predicate Recent(c: Cache, lo: nat, n: nat) {
    && (forall i :: 0 <= i < |c| && i < n ==> lo < c[i].0 <= lo + n)
    && (n <= |c| || |c| == CAPACITY)
  }

  lemma PutRecent(c: Cache, lo: nat, n: nat, t: Tree)
    requires Bounded(c) && Recent(c, lo, n)
    ensures Recent(Put(c, lo + n + 1, t), lo, n + 1)
  {
    var k, m := lo + n + 1, if n <= |c| then n else |c|;
    WithoutPrefix(c, k, m);
    var rest := Without(c, k);
    var all := [(k, t)] + rest;
    forall i | 0 <= i < |all| && i <= n && i <= m ensures lo < all[i].0 <= k {
      if i > 0 { assert all[i] == rest[i - 1] == rest[..m][i - 1] == c[..m][i - 1]; }
    }
  }

  predicate OthersSame(w: World, w': World, id: nat) {
    && w'.files == w.files && w'.readers.Keys == w.readers.Keys
    && forall j :: j in w.readers && j != id ==> w'.readers[j] == w.readers[j]
  }

  /** Reader `id` still has `n` deltas to replay and has put `m` trees above `lo`. */
  ghost predicate Busy(w: World, id: nat, lo: nat, m: nat, n: nat) {
    && WorldOk(w) && id in w.readers && w.readers[id].Replaying?
    && n <= |w.readers[id].chain| && w.readers[id].at == lo + m && Recent(w.cache, lo, m)
  }

  lemma ReplayMove(w: World, id: nat, lo: nat, m: nat, n: nat)
    requires Busy(w, id, lo, m, n) && n > 0
    ensures Busy(Next(w, Move(id)), id, lo, m + 1, n - 1) && OthersSame(w, Next(w, Move(id)), id)
  {
    NextOk(w, Move(id));
    var r := w.readers[id];
    var (dr, d) := r.chain[|r.chain| - 1];
    assert dr == r.at + 1;
    PutRecent(w.cache, lo, m, ReplayAll(r.tree, d.changes));
  }

  /** `n` replay steps of one reader fill the front of the cache with the trees it rebuilt. */
  lemma {:induction false} ReplayFillsCache(w: World, id: nat, lo: nat, m: nat, n: nat)
    requires Busy(w, id, lo, m, n)
    ensures Busy(Run(w, seq(n, _ => Move(id))), id, lo, m + n, 0)
    ensures OthersSame(w, Run(w, seq(n, _ => Move(id))), id)
    decreases n
  {
    if n > 0 {
      ReplayMove(w, id, lo, m, n);
      ReplayFillsCache(Next(w, Move(id)), id, lo, m + 1, n - 1);
      RunsOneMove(w, id, n);
    }
  }

  lemma RunsOneMove(w: World, id: nat, n: nat)
    requires n > 0
    ensures Run(w, seq(n, _ => Move(id))) == Run(Next(w, Move(id)), seq(n - 1, _ => Move(id)))
  {
    var es := seq(n, _ => Move(id));
    assert es[0] == Move(id) && es[1..] == seq(n - 1, _ => Move(id));
  }

  /**
   * With a second reader the base can vanish between the two lookups: 64 replayed
   * deltas above it are enough, and the first reader then fails.
   */
  lemma BaseCanVanish(w: World, a: nat, b: nat)
    requires WorldOk(w) && a in w.readers && b in w.readers && a != b
    requires w.readers[a].AtBase? && 0 < w.readers[a].cur && w.readers[a].cur !in w.files.snapshots
    requires w.readers[b].Replaying? && CAPACITY <= |w.readers[b].chain| && w.readers[a].cur <= w.readers[b].at
    ensures var es := seq(CAPACITY, _ => Move(b)) + [Move(a)];
            a in Run(w, es).readers && Run(w, es).readers[a] == Failed(NoBaseTree(w.readers[a].cur))
  {
    ReplayFillsCache(w, b, w.readers[b].at, 0, CAPACITY);
    RunAppend(w, seq(CAPACITY, _ => Move(b)), Move(a));
    var v := Run(w, seq(CAPACITY, _ => Move(b)));
    LookupFinds(v.cache, w.readers[a].cur);
  }

  // ------------------------------------------------- exactly when it vanishes

  /** Every reader's base is there. */
  ghost predicate AllBasesThere(w: World) {
    forall id :: id in w.readers ==> BaseThere(w, w.readers[id])
  }

  lemma AdvanceGrowsCache(f: Files, c: Cache, r: Reader)
    requires FilesOk(f) && f.head <= CAPACITY && Bounded(c) && Correct(c, f) && ReaderOk(f, r)
    ensures Grows(c, Advance(f, c, r).0)
  {
    match r {
      case Asked(rev) => TouchedGrows(c, rev);
      case Loaded(rev) => PutGrows(c, rev, f.snapshots[rev], f);
      case Walking(_, cur, _) => TouchedGrows(c, cur);
      case AtBase(_, cur, _) => TouchedGrows(c, cur);
      case BaseLoaded(_, cur, _) => PutGrows(c, cur, f.snapshots[cur], f);
      case Replaying(_, at, tree, chain) =>
        if chain != [] {
          var (dr, d) := chain[|chain| - 1];
          PutGrows(c, dr, ReplayAll(tree, d.changes), f);
        }
      case _ =>
    }
  }

  lemma AdvanceFindsBase(w: World, id: nat)
    requires WorldOk(w) && id in w.readers && BaseThere(w, w.readers[id])
    ensures BaseThere(Next(w, Move(id)), Next(w, Move(id)).readers[id])
  {
    if w.readers[id].Walking? { LookupTouched(w.cache, w.readers[id].cur, w.readers[id].cur); }
  }

  lemma FewRevisionsStep(w: World, e: Event)
    requires WorldOk(w) && AllBasesThere(w) && w.files.head <= CAPACITY
    ensures AllBasesThere(Next(w, e))
  {
    if e.Move? && e.id in w.readers {
      AdvanceGrowsCache(w.files, w.cache, w.readers[e.id]);
      AdvanceFindsBase(w, e.id);
    }
    var w' := Next(w, e);
    forall id | id in w'.readers ensures BaseThere(w', w'.readers[id]) {
      if id in w.readers { assert BaseThere(w, w.readers[id]); }
    }
  }

  lemma {:induction false} HeadGrows(w: World, es: seq<Event>)
    requires Sequenced(w, es)
    ensures w.files.head <= Run(w, es).files.head
    decreases |es|
  {
    if es != [] { HeadGrows(Next(w, es[0]), es[1..]); }
  }

  /** With no more than 64 revisions in the end no reader ever loses its base, on any schedule. */
  lemma {:induction false} FewRevisionsNeverFail(w: World, es: seq<Event>)
    requires WorldOk(w) && Sequenced(w, es) && AllBasesThere(w) && Run(w, es).files.head <= CAPACITY
    ensures AllBasesThere(Run(w, es))
    decreases |es|
  {
    if es != [] {
      HeadGrows(w, es);
      NextOk(w, es[0]);
      FewRevisionsStep(w, es[0]);
      FewRevisionsNeverFail(Next(w, es[0]), es[1..]);
    }
  }

  predicate OnlyReads(es: seq<Event>) {
    forall i :: 0 <= i < |es| ==> !es[i].Publish?
  }

  ghost predicate LeadsTo(w: World, es: seq<Event>, w': World) {
    OnlyReads(es) && Run(w, es) == w'
  }

  ghost predicate Reaches(w: World, w': World) {
    exists es :: LeadsTo(w, es, w')
  }

  lemma {:induction false} RunConcat(w: World, a: seq<Event>, b: seq<Event>)
    ensures Run(w, a + b) == Run(Run(w, a), b)
    decreases |a|
  {
    if a == [] {
      assert a + b == b;
    } else {
      assert (a + b)[0] == a[0] && (a + b)[1..] == a[1..] + b;
      RunConcat(Next(w, a[0]), a[1..], b);
    }
  }

  lemma ReachesBy(w: World, v: World, e: Event)
    requires Reaches(w, v) && !e.Publish?
    ensures Reaches(w, Next(v, e))
  {
    var es :| LeadsTo(w, es, v);
    RunAppend(w, es, e);
    assert LeadsTo(w, es + [e], Next(v, e));
  }

  /** An idle world: nobody reads, nothing is cached. */
  function IdleWorld(f: Files): World {
    World(f, [], map[])
  }

  /** `id` walks back from `rev` with `m` deltas loaded; only revision 1 is cached. */
  ghost predicate Walks(w: World, id: nat, rev: nat, m: nat) {
    && WorldOk(w) && w.cache == [(1, Recorded(w.files, 1))] && id in w.readers && w.readers[id].Walking?
    && w.readers[id].rev == rev && w.readers[id].cur + m == rev && |w.readers[id].chain| == m
  }

  lemma WalkStep(w: World, id: nat, rev: nat, m: nat)
    requires Walks(w, id, rev, m) && m + 1 < rev <= w.files.head && rev < 1000
    ensures Walks(Next(w, Move(id)), id, rev, m + 1) && OthersSame(w, Next(w, Move(id)), id)
  {
    NextOk(w, Move(id));
    var cur := w.readers[id].cur;
    assert Linked(w.files, cur) && w.cache[1..] == [];
    assert Lookup(w.cache, cur) == None;
  }

  /** Down to revision 1, which is cached. */
  lemma {:induction false} WalkToOne(w0: World, w: World, id: nat, rev: nat, m: nat) returns (w': World)
    requires Reaches(w0, w) && Walks(w, id, rev, m) && m < rev <= w.files.head && rev < 1000
    ensures Reaches(w0, w') && Walks(w', id, rev, rev - 1) && OthersSame(w, w', id)
    decreases rev - m
  {
    if m + 1 == rev {
      w' := w;
    } else {
      WalkStep(w, id, rev, m);
      ReachesBy(w0, w, Move(id));
      w' := WalkToOne(w0, Next(w, Move(id)), id, rev, m + 1);
    }
  }

  /** A reader that asks for `rev` gets to the second look-up of revision 1. */
  lemma AskToBase(w0: World, w: World, id: nat, rev: nat) returns (w': World)
    requires Reaches(w0, w) && WorldOk(w) && w.cache == [(1, Recorded(w.files, 1))]
    requires 1 < rev <= w.files.head && rev < 1000
    ensures Reaches(w0, w') && WorldOk(w') && w'.files == w.files && w'.cache == w.cache && id in w'.readers
    ensures w'.readers[id].AtBase? && w'.readers[id].cur == 1 && |w'.readers[id].chain| == rev - 1
    ensures forall j :: j in w.readers && j != id ==> j in w'.readers && w'.readers[j] == w.readers[j]
  {
    var asked := Next(w, Ask(id, rev));
    NextOk(w, Ask(id, rev));
    ReachesBy(w0, w, Ask(id, rev));
    assert w.cache[1..] == [] && Lookup(w.cache, rev) == None;
    var walking := Next(asked, Move(id));
    NextOk(asked, Move(id));
    ReachesBy(w0, asked, Move(id));
    var low := WalkToOne(w0, walking, id, rev, 0);
    assert Lookup(low.cache, 1).Some?;
    w' := Next(low, Move(id));
    NextOk(low, Move(id));
    ReachesBy(w0, low, Move(id));
    assert Touched(low.cache, 1) == low.cache;
  }

  /** One reader caches revision 1. */
  lemma WarmUp(f: Files, b: nat) returns (w: World)
    requires FilesOk(f) && 0 < f.head
    ensures Reaches(IdleWorld(f), w) && WorldOk(w) && w.files == f && w.cache == [(1, Recorded(f, 1))]
    ensures w.readers.Keys == {b}
  {
    var w0 := IdleWorld(f);
    assert LeadsTo(w0, [], w0) && Linked(f, 1);
    w := Next(w0, Ask(b, 1));
    ReachesBy(w0, w0, Ask(b, 1));
    var i := 0;
    while i < 5
      invariant 0 <= i <= 5 && Reaches(w0, w) && WorldOk(w) && w.files == f && w.readers.Keys == {b}
      invariant i < 5 ==> w.cache == []
      invariant i == 0 ==> w.readers[b] == Asked(1)
      invariant i == 1 ==> w.readers[b] == Walking(1, 1, [])
      invariant i == 2 ==> w.readers[b] == Walking(1, 0, [(1, f.deltas[1])])
      invariant i == 3 ==> w.readers[b] == AtBase(1, 0, [(1, f.deltas[1])])
      invariant i == 4 ==> w.readers[b] == Replaying(1, 0, map[], [(1, f.deltas[1])])
      invariant i == 5 ==> w.cache == [(1, Recorded(f, 1))]
    {
      NextOk(w, Move(b));
      ReachesBy(w0, w, Move(b));
      w := Next(w, Move(b));
      i := i + 1;
    }
  }

  ghost predicate Fails(f: Files, es: seq<Event>, a: nat) {
    var readers := Run(IdleWorld(f), es).readers;
    OnlyReads(es) && a in readers && readers[a].Failed? && readers[a].error.NoBaseTree?
  }

  /** With more than 64 revisions two readers can make one of them fail, from an idle world. */
  lemma ManyRevisionsCanFail(f: Files, a: nat, b: nat) returns (es: seq<Event>)
    requires FilesOk(f) && CAPACITY < f.head && a != b
    ensures Fails(f, es, a)
  {
    var w0 := IdleWorld(f);
    var warm := WarmUp(f, b);
    var first := AskToBase(w0, warm, a, CAPACITY + 1);
    var both := AskToBase(w0, first, b, CAPACITY + 1);
    assert Lookup(both.cache, 1).Some?;
    var w := Next(both, Move(b));
    NextOk(both, Move(b));
    ReachesBy(w0, both, Move(b));
    BaseCanVanish(w, a, b);
    var start :| LeadsTo(w0, start, w);
    var finish := seq(CAPACITY, _ => Move(b)) + [Move(a)];
    RunConcat(w0, start, finish);
    es := start + finish;
  }

  /**
   * Starting idle, some schedule of two readers makes one of them lose its base if and
   * only if there are more revisions than the cache has places.
   */
  lemma BaseCanVanishIff(f: Files, a: nat, b: nat)
    requires FilesOk(f) && a != b
    ensures (exists es :: Fails(f, es, a)) <==> f.head > CAPACITY
  {
    if f.head > CAPACITY {
      var es := ManyRevisionsCanFail(f, a, b);
    } else {
      forall es ensures !Fails(f, es, a) { if OnlyReads(es) { FewRevisionsReadWell(f, es); } }
    }
  }

  lemma FewRevisionsReadWell(f: Files, es: seq<Event>)
    requires FilesOk(f) && f.head <= CAPACITY && OnlyReads(es)
    ensures AllBasesThere(Run(IdleWorld(f), es))
  {
    ReadsAreSequenced(IdleWorld(f), es);
    ReadsKeepFiles(IdleWorld(f), es);
    FewRevisionsNeverFail(IdleWorld(f), es);
  }

  lemma {:induction false} ReadsAreSequenced(w: World, es: seq<Event>)
    requires OnlyReads(es)
    ensures Sequenced(w, es)
    decreases |es|
  {
    if es != [] { ReadsAreSequenced(Next(w, es[0]), es[1..]); }
  }

  lemma {:induction false} ReadsKeepFiles(w: World, es: seq<Event>)
    requires OnlyReads(es)
    ensures Run(w, es).files == w.files
    decreases |es|
  {
    if es != [] { ReadsKeepFiles(Next(w, es[0]), es[1..]); }
  }
}
