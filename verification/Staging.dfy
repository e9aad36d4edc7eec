// The two SQL tables a client edits, and exactly when an edit keeps them in step.
module Staging {
  import opened Paths
  import opened ObjectModel
  import opened Replay

  /** tree_entries and pending_changes. */
  datatype Tables = Tables(tree: Tree, rows: Rows)

  /** conn_tree_insert */
  function Inserted(w: Tables, p: Path, e: TreeEntry): Tables {
    Tables(w.tree[p := e], w.rows[p := Upserted(e)])
  }

  /** conn_tree_remove: one pending row for `p`, but every LIKE-matched working row goes. */
  function Removed(w: Tables, p: Path): Tables {
    Tables(map q | q in w.tree && q != p && !LikeBelow(p, q) :: w.tree[q], w.rows[p := Deleted])
  }

  /** The working table is what the pending rows make of the base revision. */
  ghost predicate Agrees(base: Tree, w: Tables) {
    forall q :: Look(w.tree, q) == Shown(base, w.rows, q)
  }

  /** `q` would come back if the staged deletion of `p` were replaced by an upsert of `p` alone. */
  ghost predicate Revives(base: Tree, w: Tables, p: Path, q: Path) {
    q in base && Under(p, q) && q !in w.rows && !Covered(w.rows - {p}, q)
  }

  ghost predicate InsertSafe(base: Tree, w: Tables, p: Path) {
    p in w.rows && w.rows[p].Deleted? ==> forall q :: !Revives(base, w, p, q)
  }

  ghost predicate RemoveSafe(w: Tables, p: Path) {
    && (forall q :: q in w.rows && Under(p, q) ==> w.rows[q].Deleted?)
    && (forall q :: q in w.tree && LikeBelow(p, q) ==> q == p || Under(p, q))
  }

  lemma CoveredSplit(rows: Rows, p: Path, q: Path)
    requires p in rows
    ensures Covered(rows, q) <==> Covered(rows - {p}, q) || (rows[p].Deleted? && Under(p, q))
  {
    if Covered(rows, q) {
      var a :| a in rows && rows[a].Deleted? && Under(a, q);
      if a != p { assert a in rows - {p}; }
    }
    if Covered(rows - {p}, q) { var a :| a in rows - {p} && (rows - {p})[a].Deleted? && Under(a, q); assert a in rows; }
  }

  lemma CoveredWithout(rows: Rows, p: Path, q: Path)
    requires p !in rows || !rows[p].Deleted?
    ensures Covered(rows, q) <==> Covered(rows - {p}, q)
  {
    if p in rows { CoveredSplit(rows, p, q); } else { assert rows - {p} == rows; }
  }

  /** How one new row for `p` changes what another path shows. */
  lemma ShownAfter(base: Tree, rows: Rows, p: Path, r: Row, q: Path)
    requires q != p
    ensures Shown(base, rows[p := r], q) ==
            if q in rows then Shown(base, rows, q)
            else if Covered(rows - {p}, q) || (r.Deleted? && Under(p, q)) then None
            else Look(base, q)
  {
    var rows' := rows[p := r];
    assert rows' - {p} == rows - {p};
    CoveredSplit(rows', p, q);
  }

  /** An insert keeps the tables in step exactly when it revives nothing. */
  lemma InsertAgreesIff(base: Tree, w: Tables, p: Path, e: TreeEntry)
    requires Agrees(base, w)
    ensures Agrees(base, Inserted(w, p, e)) <==> InsertSafe(base, w, p)
  {
    var w' := Inserted(w, p, e);
    var deleted := p in w.rows && w.rows[p].Deleted?;
    forall q ensures (Look(w'.tree, q) == Shown(base, w'.rows, q)) <==> !(deleted && Revives(base, w, p, q)) {
      assert Look(w.tree, q) == Shown(base, w.rows, q);
      LessIrreflexive(q);
      if Under(p, q) { AncestorSortsFirst(p, q); }
      if q != p {
        ShownAfter(base, w.rows, p, Upserted(e), q);
        if deleted { CoveredSplit(w.rows, p, q); } else { CoveredWithout(w.rows, p, q); }
      }
    }
  }

  /**
   * A remove keeps them in step exactly when no upsert is staged below the path
   * and LIKE matches only real descendants.
   */
  lemma RemoveAgreesIff(base: Tree, w: Tables, p: Path)
    requires Agrees(base, w)
    ensures Agrees(base, Removed(w, p)) <==> RemoveSafe(w, p)
  {
    var w' := Removed(w, p);
    forall q ensures (Look(w'.tree, q) == Shown(base, w'.rows, q)) <==>
        !(q in w.rows && Under(p, q) && w.rows[q].Upserted?) &&
        !(q in w.tree && LikeBelow(p, q) && q != p && !Under(p, q))
    {
      assert Look(w.tree, q) == Shown(base, w.rows, q);
      LessIrreflexive(q);
      if Under(p, q) { AncestorSortsFirst(p, q); LikeCoversSubtree(p, q); }
      if q != p {
        ShownAfter(base, w.rows, p, Deleted, q);
        if p in w.rows { CoveredSplit(w.rows, p, q); } else { CoveredWithout(w.rows, p, q); }
      }
    }
  }

  /** The collected list replays to the working table exactly when the tables are in step. */
  lemma CollectReplaysIff(base: Tree, w: Tables)
    ensures ReplayAll(base, Collected(w.rows)) == w.tree <==> Agrees(base, w)
  {
    var t := ReplayAll(base, Collected(w.rows));
    forall q ensures Look(t, q) == Shown(base, w.rows, q) { ReplayCollected(base, w.rows, q); }
    if Agrees(base, w) {
      forall q ensures Look(t, q) == Look(w.tree, q) { assert Look(w.tree, q) == Shown(base, w.rows, q); }
      SameTreeIsEqual(t, w.tree);
    }
  }

  /** With nothing staged, in step means equal. */
  lemma NothingStagedAgreesIff(base: Tree, t: Tree)
    ensures Agrees(base, Tables(t, map[])) <==> t == base
  {
    if Agrees(base, Tables(t, map[])) {
      forall q ensures Look(t, q) == Look(base, q) {
        assert Look(Tables(t, map[]).tree, q) == Shown(base, map[], q);
      }
      SameTreeIsEqual(t, base);
    }
  }
}
