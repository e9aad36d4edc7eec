// Repository paths as the SQL tables see them: their order, the subtree
// relation and the LIKE operator used to delete a subtree.
module Paths {

  type Path = string

  /** `q` lies strictly below directory `p`. */
  predicate Under(p: Path, q: Path) {
    p + "/" <= q
  }

  /** Leading slashes are dropped before a path reaches a table. */
  function Trim(p: Path): (r: Path)
    ensures r == [] || r[0] != '/'
    ensures p == [] || p[0] != '/' ==> r == p
  {
    if p != [] && p[0] == '/' then Trim(p[1..]) else p
  }

  predicate Trimmed(p: Path) {
    p == [] || p[0] != '/'
  }

  // ---------------------------------------------------------------- order

  /** Strict binary (code point) order: the BINARY collation of ORDER BY path. */
  predicate Less(a: Path, b: Path) {
    b != [] && (a == [] || a[0] < b[0] || (a[0] == b[0] && Less(a[1..], b[1..])))
  }

  lemma {:induction false} LessIrreflexive(a: Path)
    ensures !Less(a, a)
  {
    if a != [] { LessIrreflexive(a[1..]); }
  }

  lemma {:induction false} LessTransitive(a: Path, b: Path, c: Path)
    requires Less(a, b) && Less(b, c)
    ensures Less(a, c)
  {
    if a != [] && a[0] == b[0] == c[0] { LessTransitive(a[1..], b[1..], c[1..]); }
  }

  lemma {:induction false} LessTotal(a: Path, b: Path)
    ensures a == b || Less(a, b) || Less(b, a)
  {
    if a != [] && b != [] && a[0] == b[0] {
      LessTotal(a[1..], b[1..]);
      assert a == [a[0]] + a[1..] && b == [b[0]] + b[1..];
    }
  }

  /** A directory sorts before everything below it. */
  lemma {:induction false} AncestorSortsFirst(p: Path, q: Path)
    requires Under(p, q)
    ensures Less(p, q)
  {
    if p != [] {
      assert (p + "/")[0] == p[0] && (p + "/")[1..] == p[1..] + "/";
      AncestorSortsFirst(p[1..], q[1..]);
    }
  }

  ghost predicate Ascending(ks: seq<Path>) {
    forall i, j :: 0 <= i < j < |ks| ==> Less(ks[i], ks[j])
  }

  /** `ks` lists the set `s` once each in path order: what SELECT ... ORDER BY path returns. */
  ghost predicate Orders(ks: seq<Path>, s: set<Path>) {
    Ascending(ks) && (forall k :: k in ks <==> k in s)
  }

  /** Inserting one key into an ascending list. */
  function Place(ks: seq<Path>, k: Path): seq<Path> {
    if ks == [] || Less(k, ks[0]) then [k] + ks else [ks[0]] + Place(ks[1..], k)
  }

  lemma {:induction false} PlaceOrders(ks: seq<Path>, s: set<Path>, k: Path)
    requires Orders(ks, s) && k !in s
    ensures Orders(Place(ks, k), s + {k})
  {
    if ks == [] {
    } else if Less(k, ks[0]) {
      var r := Place(ks, k);
      forall j | 0 < j < |r| ensures Less(k, r[j]) {
        if j > 1 { LessTransitive(k, ks[0], ks[j - 1]); }
      }
    } else {
      var h, t := ks[0], ks[1..];
      LessTotal(k, h);
      LessIrreflexive(h);
      assert h in ks && h in s;
      forall x ensures x in t <==> x in s - {h} {
        if x in t { var i :| 0 <= i < |t| && t[i] == x; assert x == ks[i + 1]; assert Less(h, x); }
        if x in s - {h} { assert x in ks; }
      }
      PlaceOrders(t, s - {h}, k);
      var r := Place(t, k);
      forall j | 0 <= j < |r| ensures Less(h, r[j]) {
        assert r[j] in r;
        if r[j] != k { var i :| 0 <= i < |t| && t[i] == r[j]; assert ks[i + 1] == r[j]; }
      }
    }
  }

  /** The rows of a table in path order. */
  ghost function InOrder(s: set<Path>): (ks: seq<Path>)
    ensures Orders(ks, s)
  {
    if s == {} then [] else
      var k :| k in s;
      PlaceOrders(InOrder(s - {k}), s - {k}, k);
      assert s == s - {k} + {k};
      Place(InOrder(s - {k}), k)
  }

  /** Only one list orders a set, so a query's answer does not depend on the plan. */
  lemma {:induction false} OrderUnique(a: seq<Path>, b: seq<Path>, s: set<Path>)
    requires Orders(a, s) && Orders(b, s)
    ensures a == b
  {
    if a != [] { assert a[0] in a && a[0] in b; }
    if b != [] { assert b[0] in b && b[0] in a; }
    if a != [] {
      FirstIsLeast(a, s, b[0]);
      FirstIsLeast(b, s, a[0]);
      if Less(a[0], b[0]) && Less(b[0], a[0]) { LessTransitive(a[0], b[0], a[0]); LessIrreflexive(a[0]); }
      OrderTail(a, s);
      OrderTail(b, s);
      OrderUnique(a[1..], b[1..], s - {a[0]});
    }
  }

  lemma FirstIsLeast(a: seq<Path>, s: set<Path>, k: Path)
    requires Orders(a, s) && a != [] && k in s
    ensures k == a[0] || Less(a[0], k)
  {
    var i :| 0 <= i < |a| && a[i] == k;
  }

  lemma OrderTail(a: seq<Path>, s: set<Path>)
    requires Orders(a, s) && a != []
    ensures Orders(a[1..], s - {a[0]})
  {
    LessIrreflexive(a[0]);
    forall k ensures k in a[1..] <==> k in s - {a[0]} {
      if k in a[1..] { var i :| 0 <= i < |a[1..]| && a[1..][i] == k; assert a[i + 1] == k; assert Less(a[0], k); }
      if k in s - {a[0]} { assert k in a; }
    }
  }

  // ----------------------------------------------------------------- LIKE

  /** LIKE folds the ASCII letters only. */
  function Fold(c: char): char {
    if 'A' <= c <= 'Z' then c - 'A' + 'a' else c
  }

  /** SQL LIKE without an ESCAPE clause: % is any string, _ any character. */
  predicate Like(pat: string, s: string)
    decreases |pat| + |s|
  {
    if pat == [] then s == []
    else if pat[0] == '%' then Like(pat[1..], s) || (s != [] && Like(pat, s[1..]))
    else s != [] && (pat[0] == '_' || Fold(pat[0]) == Fold(s[0])) && Like(pat[1..], s[1..])
  }

  /** The pattern with which a directory's contents are deleted. */
  predicate LikeBelow(p: Path, q: Path) {
    Like(p + "/%", q)
  }

  lemma {:induction false} PercentMatchesAll(s: string)
    ensures Like("%", s)
  {
    if s != [] { PercentMatchesAll(s[1..]); }
    assert "%"[1..] == "";
  }

  /** LIKE never misses a real descendant; it may match more (see LikeOvermatches). */
  lemma {:induction false} LikeCoversSubtree(p: Path, q: Path)
    requires Under(p, q)
    ensures LikeBelow(p, q)
    decreases |p|
  {
    var pat := p + "/%";
    if p == [] {
      assert pat == "/%" && pat[1..] == "%";
      PercentMatchesAll(q[1..]);
    } else {
      assert (p + "/")[0] == p[0] && (p + "/")[1..] == p[1..] + "/";
      assert pat[1..] == p[1..] + "/%";
      LikeCoversSubtree(p[1..], q[1..]);
      if p[0] == '%' {
        assert Like(pat[1..], q[1..]);
        assert Like(pat, q[1..]);
      }
    }
  }

  /** The underscore and the letter case of a directory name reach unrelated rows. */
  lemma LikeOvermatches()
    ensures LikeBelow("a_b", "axb/f") && !Under("a_b", "axb/f")
    ensures LikeBelow("doc", "Doc/f") && !Under("doc", "Doc/f")
  {
    PercentMatchesAll("f");
    assert Like("/%", "/f") by { assert "/%"[1..] == "%"; assert "/f"[1..] == "f"; }
    assert Like("b/%", "b/f") by { assert "b/%"[1..] == "/%"; assert "b/f"[1..] == "/f"; }
    assert Like("_b/%", "xb/f") by { assert "_b/%"[1..] == "b/%"; assert "xb/f"[1..] == "b/f"; }
    assert Like("a_b/%", "axb/f") by { assert "a_b/%"[1..] == "_b/%"; assert "axb/f"[1..] == "xb/f"; }
    assert "a_b" + "/%" == "a_b/%";
    assert Like("c/%", "c/f") by { assert "c/%"[1..] == "/%"; assert "c/f"[1..] == "/f"; }
    assert Like("oc/%", "oc/f") by { assert "oc/%"[1..] == "c/%"; assert "oc/f"[1..] == "c/f"; }
    assert Like("doc/%", "Doc/f") by { assert "doc/%"[1..] == "oc/%"; assert "Doc/f"[1..] == "oc/f"; }
    assert "doc" + "/%" == "doc/%";
    assert ("a_b" + "/")[1] != "axb/f"[1];
    assert ("doc" + "/")[0] != "Doc/f"[0];
  }
}
