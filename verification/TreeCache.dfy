// The bounded cache of reconstructed trees, least recently used last.
module TreeCache {
  import opened ObjectModel
  import opened Store

  const CAPACITY: nat := 64

  /** Most recently used first. */
  type Cache = seq<(nat, Tree)>

  function Lookup(c: Cache, k: nat): Option<Tree> {
    if c == [] then None else if c[0].0 == k then Some(c[0].1) else Lookup(c[1..], k)
  }

  function Without(c: Cache, k: nat): (r: Cache)
    ensures |r| <= |c|
  {
    if c == [] then [] else if c[0].0 == k then Without(c[1..], k) else [c[0]] + Without(c[1..], k)
  }

  /** A successful get moves the entry to the front. */
  function Touched(c: Cache, k: nat): Cache {
    match Lookup(c, k)
    case Some(t) => [(k, t)] + Without(c, k)
    case None => c
  }

  function Capped(c: Cache): Cache {
    if |c| <= CAPACITY then c else c[..CAPACITY]
  }

  /** put replaces or inserts at the front and evicts from the back. */
  function Put(c: Cache, k: nat, t: Tree): Cache {
    Capped([(k, t)] + Without(c, k))
  }

  predicate Distinct(c: Cache) {
    forall i, j :: 0 <= i < j < |c| ==> c[i].0 != c[j].0
  }

  predicate Bounded(c: Cache) {
    |c| <= CAPACITY && Distinct(c)
  }

  /** Every cached tree is the one on record. */
  predicate Correct(c: Cache, f: Files) {
    forall i :: 0 <= i < |c| ==> 0 < c[i].0 <= f.head && c[i].1 == Recorded(f, c[i].0)
  }

  lemma {:induction false} LookupFinds(c: Cache, k: nat)
    ensures Lookup(c, k).Some? ==> exists i :: 0 <= i < |c| && c[i] == (k, Lookup(c, k).value)
    ensures Lookup(c, k).None? ==> forall i :: 0 <= i < |c| ==> c[i].0 != k
  {
    if c != [] && c[0].0 != k {
      LookupFinds(c[1..], k);
      if Lookup(c, k).Some? {
        var i :| 0 <= i < |c[1..]| && c[1..][i] == (k, Lookup(c, k).value);
        assert c[i + 1] == (k, Lookup(c, k).value);
      } else {
        forall i | 0 <= i < |c| ensures c[i].0 != k { if i > 0 { assert c[i] == c[1..][i - 1]; } }
      }
    }
  }

  lemma {:induction false} WithoutMembers(c: Cache, k: nat)
    ensures forall e :: e in Without(c, k) <==> e in c && e.0 != k
  {
    if c != [] { WithoutMembers(c[1..], k); }
  }

  lemma {:induction false} WithoutDistinct(c: Cache, k: nat)
    requires Distinct(c)
    ensures Distinct(Without(c, k))
    ensures (exists e :: e in c && e.0 == k) ==> |Without(c, k)| < |c|
  {
    if c != [] {
      WithoutDistinct(c[1..], k);
      WithoutMembers(c[1..], k);
      var r := Without(c[1..], k);
      if c[0].0 != k {
        forall j | 0 <= j < |r| ensures r[j].0 != c[0].0 {
          assert r[j] in c[1..];
          var i :| 0 <= i < |c[1..]| && c[1..][i] == r[j];
          assert c[i + 1] == r[j];
        }
      }
    }
  }

  lemma {:induction false} LookupWithout(c: Cache, k: nat, j: nat)
    ensures Lookup(Without(c, k), j) == if j == k then None else Lookup(c, j)
  {
    if c != [] { LookupWithout(c[1..], k, j); }
  }

  lemma {:induction false} LookupPrefix(c: Cache, n: nat, j: nat)
    requires n <= |c|
    ensures Lookup(c[..n], j).Some? ==> Lookup(c[..n], j) == Lookup(c, j)
  {
    if n > 0 && c[0].0 != j {
      assert c[..n][1..] == c[1..][..n - 1];
      LookupPrefix(c[1..], n - 1, j);
    }
  }

  /** Looking something up changes the order only. */
  lemma LookupTouched(c: Cache, k: nat, j: nat)
    ensures Lookup(Touched(c, k), j) == Lookup(c, j)
  {
    if Lookup(c, k).Some? {
      assert Touched(c, k)[1..] == Without(c, k);
      LookupWithout(c, k, j);
    }
  }

  lemma TouchedKeeps(c: Cache, k: nat, f: Files)
    requires Bounded(c) && Correct(c, f)
    ensures Bounded(Touched(c, k)) && Correct(Touched(c, k), f)
  {
    LookupFinds(c, k);
    if Lookup(c, k).Some? {
      var e := (k, Lookup(c, k).value);
      assert e in c;
      WithoutDistinct(c, k);
      WithoutMembers(c, k);
      var r := Touched(c, k);
      forall i | 0 <= i < |r| ensures r[i] in c && (i > 0 ==> r[i].0 != k) {
        if i > 0 { assert r[i] in Without(c, k); }
      }
    }
  }

  lemma LookupPut(c: Cache, k: nat, t: Tree, j: nat)
    ensures Lookup(Put(c, k, t), k) == Some(t)
    ensures j != k && Lookup(Put(c, k, t), j).Some? ==> Lookup(Put(c, k, t), j) == Lookup(c, j)
  {
    var all := [(k, t)] + Without(c, k);
    assert all[1..] == Without(c, k);
    LookupWithout(c, k, j);
    if |all| > CAPACITY { LookupPrefix(all, CAPACITY, j); }
  }

  /** Caching the right tree keeps the cache right and bounded; the rest stays or is evicted. */
  lemma PutKeeps(c: Cache, k: nat, f: Files)
    requires Bounded(c) && Correct(c, f) && 0 < k <= f.head
    ensures Bounded(Put(c, k, Recorded(f, k))) && Correct(Put(c, k, Recorded(f, k)), f)
  {
    var all := [(k, Recorded(f, k))] + Without(c, k);
    WithoutDistinct(c, k);
    WithoutMembers(c, k);
    forall i | 0 < i < |all| ensures all[i] in c && all[i].0 != k { assert all[i] in Without(c, k); }
  }

  lemma {:induction false} WithoutOne(c: Cache, k: nat)
    requires Distinct(c)
    ensures |Without(c, k)| + 1 >= |c|
  {
    if c != [] {
      WithoutOne(c[1..], k);
      if c[0].0 == k { WithoutAbsent(c[1..], k); }
    }
  }

  lemma {:induction false} WithoutAbsent(c: Cache, k: nat)
    requires forall i :: 0 <= i < |c| ==> c[i].0 != k
    ensures Without(c, k) == c
  {
    if c != [] { WithoutAbsent(c[1..], k); }
  }

  /** Distinct keys from 1..n: at most n entries. */
  lemma {:induction false} AtMostOneEach(c: Cache, n: nat)
    requires Distinct(c) && forall i :: 0 <= i < |c| ==> 0 < c[i].0 <= n
    ensures |c| <= n
    decreases n
  {
    if c != [] {
      assert c[0].0 <= n;
      var rest := Without(c, n);
      WithoutOne(c, n);
      WithoutDistinct(c, n);
      WithoutMembers(c, n);
      forall i | 0 <= i < |rest| ensures 0 < rest[i].0 <= n - 1 { assert rest[i] in rest; }
      AtMostOneEach(rest, n - 1);
    }
  }

  /** Everything that `a` finds, `b` finds. */
  ghost predicate Grows(a: Cache, b: Cache) {
    forall j :: Lookup(a, j).Some? ==> Lookup(b, j).Some?
  }

  lemma TouchedGrows(c: Cache, k: nat)
    ensures Grows(c, Touched(c, k))
  {
    forall j ensures Lookup(Touched(c, k), j) == Lookup(c, j) { LookupTouched(c, k, j); }
  }

  /** While there are no more revisions than places, nothing is evicted. */
  lemma PutGrows(c: Cache, k: nat, t: Tree, f: Files)
    requires Bounded(c) && Correct(c, f) && 0 < k <= f.head <= CAPACITY
    ensures Grows(c, Put(c, k, t))
  {
    var all := [(k, t)] + Without(c, k);
    WithoutDistinct(c, k);
    WithoutMembers(c, k);
    forall i | 0 < i < |all| ensures all[i] in c && all[i].0 != k { assert all[i] in Without(c, k); }
    AtMostOneEach(all, f.head);
    assert Put(c, k, t) == all && all[1..] == Without(c, k);
    forall j | Lookup(c, j).Some? ensures Lookup(all, j).Some? { LookupWithout(c, k, j); }
  }

  /** More revisions do not invalidate what is cached. */
  lemma CorrectAfterPublish(c: Cache, f: Files, p: Pending)
    requires Correct(c, f) && p.rev > f.head
    ensures Correct(c, Published(f, p))
  {
    forall i | 0 <= i < |c| ensures c[i].1 == Recorded(Published(f, p), c[i].0) {
      PublishedKeepsRevisions(f, p, c[i].0);
    }
  }
}
