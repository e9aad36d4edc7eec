// get-deleted-rev: in which revision did a path go away?
module DeletedRev {
  import opened Paths
  import opened ObjectModel
  import opened Replay
  import opened Store
  import opened Repository

  /** The change deletes `q` or a directory above it. */
  predicate TakesAway(c: TreeChange, q: Path) {
    c.Delete? && (c.path == q || Under(c.path, q))
  }

  predicate PutsBack(c: TreeChange, q: Path) {
    c.Upsert? && c.path == q
  }

  predicate TakenAwayAt(f: Files, q: Path, rev: nat) {
    rev in f.deltas && exists i :: 0 <= i < |f.deltas[rev].changes| && TakesAway(f.deltas[rev].changes[i], q)
  }

  predicate UpsertedAt(f: Files, q: Path, rev: nat) {
    rev in f.deltas && exists i :: 0 <= i < |f.deltas[rev].changes| && PutsBack(f.deltas[rev].changes[i], q)
  }

  /** `d` is the first revision in peg+1..=last that takes `q` away, or 0 if there is none. */
  predicate FirstTakenAway(f: Files, q: Path, peg: nat, last: int, d: nat) {
    && (forall r: nat :: peg < r <= last && (d == 0 || r < d) ==> !TakenAwayAt(f, q, r))
    && (d != 0 ==> peg < d <= last && TakenAwayAt(f, q, d))
  }

  function LastSearched(end: Option<nat>, head: nat): nat {
    if end.GetOr(head) <= head then end.GetOr(head) else head
  }

  /** handle_get_deleted_rev_report, after the request was parsed. */
  method SearchDeletedRev(
    repo: Repository, queryPath: Path, pegRev: Option<nat>, endRev: Option<nat>)
    returns (deleted: nat)
    requires repo.Valid()
    ensures FirstTakenAway(repo.State().files, Trim(queryPath), pegRev.GetOr(repo.currentRev),
                           LastSearched(endRev, repo.currentRev), deleted)
  {
    var q, peg := Trim(queryPath), pegRev.GetOr(repo.currentRev);
    var end := endRev.GetOr(repo.currentRev);
    var last := if end <= repo.currentRev then end else repo.currentRev;
    deleted := 0;
    var rev := peg + 1;
    while rev <= last
      invariant peg < rev
      invariant forall r: nat :: peg < r <= last && r < rev ==> !TakenAwayAt(repo.State().files, q, r)
    {
      var changes, i := repo.deltas[rev].changes, 0;
      while i < |changes|
        invariant 0 <= i <= |changes|
        invariant forall j :: 0 <= j < i ==> !TakesAway(changes[j], q)
      {
        match changes[i] {
          case Delete(path) =>
            if path == q || path + "/" <= q { return rev; }
          case Upsert(_, _) =>
        }
        i := i + 1;
      }
      rev := rev + 1;
    }
  }

  /** What one stored change list does to a path that was there before it. */
  lemma PresentAfter(f: Files, q: Path, r: nat)
    requires FilesOk(f) && Chained(f) && 0 < r <= f.head
    requires q in Recorded(f, r - 1)
    ensures q in Recorded(f, r) <==> !TakenAwayAt(f, q, r) || UpsertedAt(f, q, r)
  {
    assert ReplayLinked(f, r) && Linked(f, r);
    var cs := f.deltas[r].changes;
    var rows := RowsOf(cs);
    ReplayIsPointwise(Recorded(f, r - 1), cs, q);
    RowsTell(cs, q);
  }

  /** The rows of a sorted list say what its changes do to a path. */
  lemma RowsTell(cs: seq<TreeChange>, q: Path)
    requires PathSorted(cs)
    ensures var rows := RowsOf(cs);
            && (q in rows && rows[q].Upserted? <==> exists i :: 0 <= i < |cs| && PutsBack(cs[i], q))
            && ((q in rows && rows[q].Deleted?) || Covered(rows, q)
                <==> exists i :: 0 <= i < |cs| && TakesAway(cs[i], q))
  {
    var rows := RowsOf(cs);
    RowsOfKeys(cs);
    forall i | 0 <= i < |cs| ensures cs[i].path in rows && rows[cs[i].path] == RowOf(cs[i]) { OwnRow(cs, i); }
    if q in rows {
      var i :| 0 <= i < |cs| && cs[i].path == q;
      assert if rows[q].Deleted? then TakesAway(cs[i], q) else PutsBack(cs[i], q);
    }
    if Covered(rows, q) {
      var p :| p in rows && rows[p].Deleted? && Under(p, q);
      var i :| 0 <= i < |cs| && cs[i].path == p;
      assert TakesAway(cs[i], q);
    }
  }

  /**
   * For a path that exists at the peg revision the search tells its history: the path
   * is there in every revision before the reported one, or through the end when it
   * reports 0; and the reported revision lacks it unless that revision puts it back.
   */
  lemma SearchTellsHistory(f: Files, q: Path, peg: nat, last: nat, d: nat)
    requires FilesOk(f) && Chained(f) && last <= f.head && q in Recorded(f, peg)
    requires FirstTakenAway(f, q, peg, last, d)
    ensures forall r: nat :: peg <= r && (if d == 0 then r <= last else r < d) ==> q in Recorded(f, r)
    ensures d != 0 ==> (q in Recorded(f, d) <==> UpsertedAt(f, q, d))
  {
    var bound: int := if d == 0 then last else d - 1;
    forall r: nat | peg <= r <= bound ensures q in Recorded(f, r) { PresentThrough(f, q, peg, bound, r); }
    if d != 0 { PresentAfter(f, q, d); }
  }

  lemma {:induction false} PresentThrough(f: Files, q: Path, peg: nat, bound: int, r: nat)
    requires FilesOk(f) && Chained(f) && bound <= f.head && q in Recorded(f, peg)
    requires forall k: nat :: peg < k <= bound ==> !TakenAwayAt(f, q, k)
    requires peg <= r <= bound
    ensures q in Recorded(f, r)
  {
    if peg < r {
      PresentThrough(f, q, peg, bound, r - 1);
      PresentAfter(f, q, r);
    }
  }

  /** And nothing is missed: a path that is gone somewhere in the range is reported by then. */
  lemma GoneIsReported(f: Files, q: Path, peg: nat, last: nat, d: nat, r: nat)
    requires FilesOk(f) && Chained(f) && last <= f.head && q in Recorded(f, peg)
    requires FirstTakenAway(f, q, peg, last, d)
    requires peg < r <= last && q !in Recorded(f, r)
    ensures peg < d <= r
  {
    SearchTellsHistory(f, q, peg, last, d);
  }
}
