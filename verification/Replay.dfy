// Replaying a stored change list, step by step and pointwise.
module Replay {
  import opened Paths
  import opened ObjectModel

  /** A row of the pending_changes table; the path is the row's key. */
  datatype Row = Upserted(entry: TreeEntry) | Deleted
  type Rows = map<Path, Row>

  /** The entries left when `p` and everything below it go away. */
  function Prune(t: Tree, p: Path): Tree {
    map q | q in t && q != p && !Under(p, q) :: t[q]
  }

  function Apply(t: Tree, c: TreeChange): Tree {
    match c
    case Upsert(p, e) => t[p := e]
    case Delete(p) => Prune(t, p)
  }

  /** Applying a change list front to back. */
  function ReplayAll(t: Tree, cs: seq<TreeChange>): Tree {
    if cs == [] then t else Apply(ReplayAll(t, cs[..|cs| - 1]), cs[|cs| - 1])
  }

  lemma ReplayStep(t: Tree, cs: seq<TreeChange>, i: nat)
    requires i < |cs|
    ensures ReplayAll(t, cs[..i + 1]) == Apply(ReplayAll(t, cs[..i]), cs[i])
  {
    assert cs[..i + 1][..i] == cs[..i];
  }

  ghost predicate PathSorted(cs: seq<TreeChange>) {
    forall i, j :: 0 <= i < j < |cs| ==> Less(cs[i].path, cs[j].path)
  }

  // ------------------------------------------------------- pointwise form

  function RowOf(c: TreeChange): Row {
    match c
    case Upsert(_, e) => Upserted(e)
    case Delete(_) => Deleted
  }

  function ChangeOf(p: Path, r: Row): TreeChange {
    match r
    case Upserted(e) => Upsert(p, e)
    case Deleted => Delete(p)
  }

  /** A change list as a table with one row per path; a later change wins. */
  function RowsOf(cs: seq<TreeChange>): Rows {
    if cs == [] then map[] else RowsOf(cs[..|cs| - 1])[cs[|cs| - 1].path := RowOf(cs[|cs| - 1])]
  }

  /** Some strict ancestor of `q` is deleted. */
  ghost predicate Covered(rows: Rows, q: Path) {
    exists p :: p in rows && rows[p].Deleted? && Under(p, q)
  }

  /** What path `q` holds after the rows take effect on `base`. */
  ghost function Shown(base: Tree, rows: Rows, q: Path): Option<TreeEntry> {
    if q in rows then (if rows[q].Upserted? then Some(rows[q].entry) else None)
    else if Covered(rows, q) then None
    else Look(base, q)
  }

  lemma {:induction false} RowsOfKeys(cs: seq<TreeChange>)
    ensures forall p :: p in RowsOf(cs) <==> exists i :: 0 <= i < |cs| && cs[i].path == p
  {
    if cs != [] {
      var n := |cs| - 1;
      RowsOfKeys(cs[..n]);
      forall p ensures p in RowsOf(cs) <==> exists i :: 0 <= i < |cs| && cs[i].path == p {
        if p in RowsOf(cs[..n]) { var i :| 0 <= i < n && cs[..n][i].path == p; assert cs[i].path == p; }
        if i :| 0 <= i < |cs| && cs[i].path == p { if i < n { assert cs[..n][i].path == p; } }
      }
    }
  }

  lemma RowsOfAppend(cs: seq<TreeChange>, c: TreeChange)
    ensures RowsOf(cs + [c]) == RowsOf(cs)[c.path := RowOf(c)]
  {
    assert (cs + [c])[..|cs|] == cs;
  }

  /** In a sorted list a path and everything above it come before anything added later. */
  lemma NothingComesAfter(cs: seq<TreeChange>, c: TreeChange, q: Path)
    requires PathSorted(cs + [c]) && (q == c.path || Under(c.path, q))
    ensures q !in RowsOf(cs)
  {
    RowsOfKeys(cs);
    if q in RowsOf(cs) {
      var i :| 0 <= i < |cs| && cs[i].path == q;
      assert Less((cs + [c])[i].path, (cs + [c])[|cs|].path);
      if q != c.path {
        AncestorSortsFirst(c.path, q);
        LessTransitive(q, c.path, q);
      }
      LessIrreflexive(q);
    }
  }

  lemma CoveredAppend(rows: Rows, p: Path, r: Row, q: Path)
    requires p !in rows
    ensures Covered(rows[p := r], q) <==> Covered(rows, q) || (r.Deleted? && Under(p, q))
  {
    var rows' := rows[p := r];
    if Covered(rows, q) {
      var a :| a in rows && rows[a].Deleted? && Under(a, q);
      assert a in rows' && rows'[a] == rows[a];
    }
    if Covered(rows', q) { var a :| a in rows' && rows'[a].Deleted? && Under(a, q); assert a != p ==> a in rows; }
    if r.Deleted? && Under(p, q) { assert p in rows'; }
  }

  /**
   * The pointwise form of replay: in a path-sorted list each path takes its own
   * change, else vanishes under a deleted ancestor, else keeps its base value.
   */
  lemma {:induction false} ReplayIsPointwise(t: Tree, cs: seq<TreeChange>, q: Path)
    requires PathSorted(cs)
    ensures Look(ReplayAll(t, cs), q) == Shown(t, RowsOf(cs), q)
  {
    if cs != [] {
      var n := |cs| - 1;
      var c, before := cs[n], cs[..n];
      assert cs == before + [c];
      ReplayIsPointwise(t, before, q);
      RowsOfAppend(before, c);
      NothingComesAfter(before, c, c.path);
      CoveredAppend(RowsOf(before), c.path, RowOf(c), q);
      if Under(c.path, q) { NothingComesAfter(before, c, q); }
    }
  }

  // ------------------------------------------------- collecting the table

  /** conn_collect_pending's list: the rows in path order. */
  ghost function Collected(rows: Rows): (cs: seq<TreeChange>) {
    var ks := InOrder(rows.Keys);
    seq(|ks|, i requires 0 <= i < |ks| => assert ks[i] in ks; ChangeOf(ks[i], rows[ks[i]]))
  }

  lemma CollectedAt(rows: Rows, i: nat)
    requires i < |Collected(rows)|
    ensures i < |InOrder(rows.Keys)| && InOrder(rows.Keys)[i] in rows
    ensures Collected(rows)[i] == ChangeOf(InOrder(rows.Keys)[i], rows[InOrder(rows.Keys)[i]])
  {
    assert InOrder(rows.Keys)[i] in InOrder(rows.Keys);
  }

  lemma {:induction false} RowsOfPrefix(rows: Rows, ks: seq<Path>, cs: seq<TreeChange>, p: Path)
    requires Ascending(ks) && |cs| == |ks|
    requires forall i :: 0 <= i < |ks| ==> ks[i] in rows && cs[i] == ChangeOf(ks[i], rows[ks[i]])
    ensures p in RowsOf(cs) <==> p in ks
    ensures p in RowsOf(cs) ==> p in rows && RowsOf(cs)[p] == rows[p]
  {
    if cs != [] {
      var n := |cs| - 1;
      RowsOfPrefix(rows, ks[..n], cs[..n], p);
      assert ks == ks[..n] + [ks[n]];
    }
  }

  /** Collecting loses nothing: the sorted list and the table determine each other. */
  lemma CollectedRoundTrip(rows: Rows)
    ensures PathSorted(Collected(rows))
    ensures RowsOf(Collected(rows)) == rows
  {
    var ks, cs := InOrder(rows.Keys), Collected(rows);
    forall i | 0 <= i < |ks| ensures ks[i] in rows && cs[i].path == ks[i] { assert ks[i] in ks; }
    forall p ensures p in RowsOf(cs) <==> p in rows { RowsOfPrefix(rows, ks, cs, p); }
    forall p | p in rows ensures RowsOf(cs)[p] == rows[p] { RowsOfPrefix(rows, ks, cs, p); }
  }

  /** A sorted list staged into an empty table is collected unchanged. */
  lemma SortedListCollectedBack(cs: seq<TreeChange>)
    requires PathSorted(cs)
    ensures Collected(RowsOf(cs)) == cs
  {
    var rows := RowsOf(cs);
    var ks := seq(|cs|, i requires 0 <= i < |cs| => cs[i].path);
    RowsOfKeys(cs);
    assert Orders(ks, rows.Keys) by {
      forall k ensures k in ks <==> k in rows.Keys {
        if k in rows { var i :| 0 <= i < |cs| && cs[i].path == k; assert ks[i] == k; }
      }
    }
    OrderUnique(ks, InOrder(rows.Keys), rows.Keys);
    forall i | 0 <= i < |cs| ensures ChangeOf(ks[i], rows[ks[i]]) == cs[i] { OwnRow(cs, i); }
  }

  lemma {:induction false} OwnRow(cs: seq<TreeChange>, i: nat)
    requires PathSorted(cs) && i < |cs|
    ensures cs[i].path in RowsOf(cs) && RowsOf(cs)[cs[i].path] == RowOf(cs[i])
  {
    var n := |cs| - 1;
    if i < n {
      OwnRow(cs[..n], i);
      assert Less(cs[i].path, cs[n].path);
      LessIrreflexive(cs[n].path);
    }
  }

  /** Replaying the collected table is its pointwise effect. */
  lemma ReplayCollected(base: Tree, rows: Rows, q: Path)
    ensures Look(ReplayAll(base, Collected(rows)), q) == Shown(base, rows, q)
  {
    CollectedRoundTrip(rows);
    ReplayIsPointwise(base, Collected(rows), q);
  }
}
