// The byte string behind a revision's content hash.
module ContentHash {
  import opened ObjectModel
  import opened ByteFields

  type RawObjects = seq<(RawId, Bytes)>

  function Entry(o: (RawId, Bytes)): Bytes {
    o.0 + LittleEndian(|o.1|, 8) + o.1
  }

  /** Everything the hasher is fed, in order. */
  function Fed(objects: RawObjects): Bytes {
    if objects == [] then [] else Entry(objects[0]) + Fed(objects[1..])
  }

  /** Lengths that a u64 holds. */
  predicate Addressable(objects: RawObjects) {
    forall i :: 0 <= i < |objects| ==> |objects[i].1| < 0x1_0000_0000_0000_0000
  }

  lemma {:induction false} FedAppends(objects: RawObjects, o: (RawId, Bytes))
    ensures Fed(objects + [o]) == Fed(objects) + o.0 + LittleEndian(|o.1|, 8) + o.1
  {
    if objects != [] {
      assert (objects + [o])[1..] == objects[1..] + [o];
      FedAppends(objects[1..], o);
    }
  }

  /** compute_content_hash; `sha256` is the hash of a whole byte string. */
  method ComputeContentHash<D>(objects: RawObjects, sha256: Bytes -> D) returns (digest: D)
    ensures digest == sha256(Fed(objects))
  {
    var hasher: Bytes := [];
    var i := 0;
    while i < |objects|
      invariant 0 <= i <= |objects| && hasher == Fed(objects[..i])
    {
      FedAppends(objects[..i], objects[i]);
      assert objects[..i + 1] == objects[..i] + [objects[i]];
      var (id, data) := objects[i];
      hasher := hasher + id;
      hasher := hasher + LittleEndian(|data|, 8);
      hasher := hasher + data;
      i := i + 1;
    }
    assert objects[..i] == objects;
    digest := sha256(hasher);
  }

  method VerifyContentHash<D(==)>(objects: RawObjects, expected: D, sha256: Bytes -> D) returns (ok: bool)
    ensures ok <==> sha256(Fed(objects)) == expected
  {
    var computed := ComputeContentHash(objects, sha256);
    ok := computed == expected;
  }

  lemma EntryDelimits(a: (RawId, Bytes), restA: Bytes, b: (RawId, Bytes), restB: Bytes)
    requires |a.1| < 0x1_0000_0000_0000_0000 && |b.1| < 0x1_0000_0000_0000_0000
    requires Entry(a) + restA == Entry(b) + restB
    ensures a == b && restA == restB
  {
    var s := Entry(a) + restA;
    assert s[..32] == a.0 && s[..32] == b.0;
    assert s[32..40] == LittleEndian(|a.1|, 8) && s[32..40] == LittleEndian(|b.1|, 8);
    WordRanges();
    LittleEndianKeepsIff(|a.1|, 8);
    LittleEndianKeepsIff(|b.1|, 8);
    assert s[40..40 + |a.1|] == a.1 && s[40..40 + |b.1|] == b.1;
    assert s[40 + |a.1|..] == restA && s[40 + |b.1|..] == restB;
  }

  /** The byte string determines the object list. */
  lemma {:induction false} FedIsInjective(a: RawObjects, b: RawObjects)
    requires Addressable(a) && Addressable(b) && Fed(a) == Fed(b)
    ensures a == b
  {
    if a != [] && b != [] {
      EntryDelimits(a[0], Fed(a[1..]), b[0], Fed(b[1..]));
      FedIsInjective(a[1..], b[1..]);
      assert a == [a[0]] + a[1..] && b == [b[0]] + b[1..];
    }
  }

  predicate Same<D(==)>(sha256: Bytes -> D, a: Bytes, b: Bytes) {
    sha256(a) == sha256(b)
  }

  /** With a collision-free hash the check accepts exactly the list that was sent. */
  lemma AcceptsOnlyWhatWasSent<D>(sha256: Bytes -> D, sent: RawObjects, received: RawObjects)
    requires forall x, y :: Same(sha256, x, y) ==> x == y
    requires Addressable(sent) && Addressable(received)
    ensures sha256(Fed(received)) == sha256(Fed(sent)) <==> received == sent
  {
    if Same(sha256, Fed(received), Fed(sent)) { FedIsInjective(received, sent); }
  }
}
