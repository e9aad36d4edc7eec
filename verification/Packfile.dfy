// Packfiles: header, then one record per object with its compressed data.
module Packfile {
  import opened ObjectModel
  import opened ByteFields

  const PACK_VERSION: nat := 2

  /** The compressor, whatever it is. */
  datatype Codec = Codec(encode: Bytes -> Bytes, decode: Bytes -> Option<Bytes>)

  ghost predicate Lossless(c: Codec) {
    forall data :: c.decode(c.encode(data)) == Some(data)
  }

  type Item = (RawId, Bytes)

  datatype PackEntry = PackEntry(id: RawId, offset: nat, size: nat)

  function Record(c: Codec, o: Item): (r: Bytes)
    ensures |r| == 41 + |c.encode(o.1)|
  {
    [1] + LittleEndian(|o.1|, 4) + o.0 + LittleEndian(|c.encode(o.1)|, 4) + c.encode(o.1)
  }

  function Records(c: Codec, items: seq<Item>): Bytes {
    if items == [] then [] else Records(c, items[..|items| - 1]) + Record(c, items[|items| - 1])
  }

  function Header(count: nat): (r: Bytes)
    ensures |r| == 8
  {
    LittleEndian(PACK_VERSION, 4) + LittleEndian(count, 4)
  }

  /** Where the record of item `k` starts. */
  function OffsetOf(c: Codec, items: seq<Item>, k: nat): nat
    requires k <= |items|
  {
    8 + |Records(c, items[..k])|
  }

  function Index(c: Codec, items: seq<Item>): seq<PackEntry> {
    seq(|items|, k requires 0 <= k < |items| => PackEntry(items[k].0, OffsetOf(c, items, k), |items[k].1|))
  }

  ghost predicate Lists(items: seq<Item>, id: RawId) {
    exists k :: 0 <= k < |items| && items[k].0 == id
  }

  /** `items` is some order of the map's entries for the ids in `ids`. */
  ghost predicate OrderOf(items: seq<Item>, objects: map<RawId, Bytes>, ids: set<RawId>) {
    && (forall k :: 0 <= k < |items| ==>
          items[k].0 in ids && items[k].0 in objects && objects[items[k].0] == items[k].1)
    && (forall i, k :: 0 <= i < k < |items| ==> items[i].0 != items[k].0)
    && (forall id :: id in ids ==> Lists(items, id))
  }

  /** The file and the index that write produces if it iterates the map in this order. */
  ghost predicate IsPackInOrder(
    c: Codec, items: seq<Item>, objects: map<RawId, Bytes>, file: Bytes, entries: seq<PackEntry>) {
    OrderOf(items, objects, objects.Keys) && file == PackOf(c, items) && entries == Index(c, items)
  }

  ghost predicate IsPack(c: Codec, objects: map<RawId, Bytes>, file: Bytes, entries: seq<PackEntry>) {
    exists items :: IsPackInOrder(c, items, objects, file, entries)
  }

  class PackWriter {
    var objects: map<RawId, Bytes>

    constructor ()
      ensures objects == map[]
    {
      objects := map[];
    }

    method AddObject(id: RawId, data: Bytes)
      modifies this
      ensures objects == old(objects)[id := data]
    {
      objects := objects[id := data];
    }

    /** The file that write produces, for the order in which the hash map happens to be iterated. */
    method Write(c: Codec) returns (file: Bytes, entries: seq<PackEntry>)
      ensures IsPack(c, objects, file, entries)
    {
      file := LittleEndian(PACK_VERSION, 4);
      file := file + LittleEndian(|objects|, 4);
      entries := [];
      ghost var items: seq<Item> := [];
      ghost var head := file;
      var rest := objects.Keys;
      ghost var written: set<RawId> := {};
      while rest != {}
        invariant rest + written == objects.Keys && rest !! written
        invariant OrderOf(items, objects, written)
        invariant Wrote(c, head, items, file, entries)
        decreases |rest|
      {
        var id :| id in rest;
        var data := objects[id];
        WroteOneMore(c, head, items, file, entries, (id, data));
        OrderGrows(items, objects, written, id);
        var entryStart := |file|;
        file := WriteRecord(c, file, id, data);
        entries := entries + [PackEntry(id, entryStart, |data|)];
        items := items + [(id, data)];
        rest, written := rest - {id}, written + {id};
      }
      assert written == objects.Keys;
      OrderCounts(items, objects, objects.Keys);
      assert IsPackInOrder(c, items, objects, file, entries);
    }
  }

  method WriteRecord(c: Codec, before: Bytes, id: RawId, data: Bytes) returns (file: Bytes)
    ensures file == before + Record(c, (id, data))
  {
    file := before + [1];
    file := file + LittleEndian(|data|, 4);
    file := file + id;
    var compressed := c.encode(data);
    file := file + LittleEndian(|compressed|, 4);
    file := file + compressed;
    assert before + Record(c, (id, data))
        == before + [1] + LittleEndian(|data|, 4) + id + LittleEndian(|compressed|, 4) + compressed;
  }

  lemma OrderGrows(items: seq<Item>, objects: map<RawId, Bytes>, ids: set<RawId>, id: RawId)
    requires OrderOf(items, objects, ids) && id !in ids && id in objects
    ensures OrderOf(items + [(id, objects[id])], objects, ids + {id})
  {
    var items' := items + [(id, objects[id])];
    forall i | i in ids + {id} ensures Lists(items', i) {
      if i == id {
        assert items'[|items|].0 == id;
      } else {
        assert Lists(items, i);
        var k :| 0 <= k < |items| && items[k].0 == i;
        assert items'[k].0 == i;
      }
    }
  }

  /** What is on disk and in the index after the records of `items`. */
  ghost predicate Wrote(c: Codec, head: Bytes, items: seq<Item>, file: Bytes, entries: seq<PackEntry>) {
    |head| == 8 && file == head + Records(c, items) && entries == Index(c, items)
  }

  lemma WroteOneMore(c: Codec, head: Bytes, items: seq<Item>, file: Bytes, entries: seq<PackEntry>, o: Item)
    requires Wrote(c, head, items, file, entries)
    ensures Wrote(c, head, items + [o], file + Record(c, o), entries + [PackEntry(o.0, |file|, |o.1|)])
  {
    var all := items + [o];
    assert all[..|items|] == items;
    assert head + (Records(c, items) + Record(c, o)) == head + Records(c, items) + Record(c, o);
    forall k | 0 <= k < |items| ensures OffsetOf(c, all, k) == OffsetOf(c, items, k) { assert all[..k] == items[..k]; }
  }

  // ----------------------------------------------------------------- reader

  /** A record's four fields at `pos`: the object's size, its id and the compressed length. */
  function FieldsAt(data: Bytes, pos: nat): Option<(nat, RawId, nat)> {
    if pos + 41 > |data| then None
    else Some((FromLittleEndian(data[pos + 1..pos + 5]), data[pos + 5..pos + 37],
               FromLittleEndian(data[pos + 37..pos + 41])))
  }

  /** The `count` records from `pos` on. */
  function Scanned(data: Bytes, pos: nat, count: nat): Result<seq<PackEntry>>
    decreases count
  {
    if count == 0 then Ok([])
    else
      match FieldsAt(data, pos)
      case None => Err(OutOfBounds)
      case Some((size, id, length)) =>
        match Scanned(data, pos + 41 + length, count - 1)
        case Err(e) => Err(e)
        case Ok(more) => Ok([PackEntry(id, pos, size)] + more)
  }

  function Opened(data: Bytes): Result<seq<PackEntry>> {
    if |data| < 4 then Err(OutOfBounds)
    else if FromLittleEndian(data[..4]) != PACK_VERSION then Err(UnknownVersion(FromLittleEndian(data[..4])))
    else if |data| < 8 then Err(OutOfBounds)
    else Scanned(data, 8, FromLittleEndian(data[4..8]))
  }

  /** The object whose record starts at `offset`. */
  function ObjectAt(c: Codec, data: Bytes, offset: nat): Result<Option<Bytes>> {
    match FieldsAt(data, offset)
    case None => Err(OutOfBounds)
    case Some((_, _, length)) =>
      if offset + 41 + length > |data| then Err(OutOfBounds)
      else if c.decode(data[offset + 41..offset + 41 + length]).None? then Err(DecodeFailed)
      else Ok(c.decode(data[offset + 41..offset + 41 + length]))
  }

  class PackReader {
    const entries: seq<PackEntry>
    const data: Bytes

    constructor (entries: seq<PackEntry>, data: Bytes)
      ensures this.entries == entries && this.data == data
    {
      this.entries, this.data := entries, data;
    }

    method GetObject(c: Codec, id: RawId) returns (r: Result<Option<Bytes>>)
      ensures (forall k :: 0 <= k < |entries| ==> entries[k].id != id) ==> r == Ok(None)
      ensures forall k :: 0 <= k < |entries| && entries[k].id == id && (forall i :: 0 <= i < k ==> entries[i].id != id)
                ==> r == ObjectAt(c, data, entries[k].offset)
    {
      var i := 0;
      while i < |entries| && entries[i].id != id
        invariant 0 <= i <= |entries| && forall k :: 0 <= k < i ==> entries[k].id != id
      {
        i := i + 1;
      }
      if i == |entries| { return Ok(None); }
      r := ReadObject(c, data, entries[i].offset);
    }
  }

  /** The second half of get_object: past the type, the size and the id to the compressed data. */
  method ReadObject(c: Codec, data: Bytes, offset: nat) returns (r: Result<Option<Bytes>>)
    ensures r == ObjectAt(c, data, offset)
  {
    var pos := offset + 1 + 4 + 32;
    if pos + 4 > |data| { return Err(OutOfBounds); }
    var compressedSize := FromLittleEndian(data[pos..pos + 4]);
    pos := pos + 4;
    if pos + compressedSize > |data| { return Err(OutOfBounds); }
    var decompressed := c.decode(data[pos..pos + compressedSize]);
    if decompressed.None? { return Err(DecodeFailed); }
    r := Ok(decompressed);
  }

  /** The parsing half of PackReader::open. */
  method ScanEntries(data: Bytes) returns (r: Result<seq<PackEntry>>)
    ensures r == Opened(data)
  {
    if |data| < 4 { return Err(OutOfBounds); }
    var version := FromLittleEndian(data[..4]);
    if version != PACK_VERSION { return Err(UnknownVersion(version)); }
    if |data| < 8 { return Err(OutOfBounds); }
    var count := FromLittleEndian(data[4..8]);
    var pos: nat, entries: seq<PackEntry>, i: nat := 8, [], 0;
    ContinuedNothing(Opened(data));
    while i < count
      invariant 0 <= i <= count
      invariant Opened(data) == Continued(entries, Scanned(data, pos, count - i))
    {
      var start := pos;
      if pos + 41 > |data| { return Err(OutOfBounds); }
      pos := pos + 1;
      var size := FromLittleEndian(data[pos..pos + 4]);
      pos := pos + 4;
      var id := data[pos..pos + 32];
      pos := pos + 32;
      var compressedSize := FromLittleEndian(data[pos..pos + 4]);
      pos := pos + 4 + compressedSize;
      assert FieldsAt(data, start) == Some((size, id, compressedSize));
      ContinuedStep(entries, PackEntry(id, start, size), Scanned(data, pos, count - i - 1));
      entries := entries + [PackEntry(id, start, size)];
      i := i + 1;
    }
    assert entries + [] == entries;
    r := Ok(entries);
  }

  function Continued(entries: seq<PackEntry>, r: Result<seq<PackEntry>>): Result<seq<PackEntry>> {
    match r
    case Ok(more) => Ok(entries + more)
    case Err(e) => Err(e)
  }

  lemma ContinuedNothing(r: Result<seq<PackEntry>>)
    ensures Continued([], r) == r
  {
    if r.Ok? { assert [] + r.value == r.value; }
  }

  lemma ContinuedStep(entries: seq<PackEntry>, e: PackEntry, r: Result<seq<PackEntry>>)
    ensures Continued(entries, Continued([e], r)) == Continued(entries + [e], r)
  {
    if r.Ok? { assert entries + ([e] + r.value) == entries + [e] + r.value; }
  }

  method Open(data: Bytes) returns (r: Result<PackReader>)
    ensures r.Ok? <==> Opened(data).Ok?
    ensures r.Ok? ==> r.value.entries == Opened(data).value && r.value.data == data
    ensures r.Err? ==> r.error == Opened(data).error
  {
    var entries := ScanEntries(data);
    if entries.Err? { return Err(entries.error); }
    var reader := new PackReader(entries.value, data);
    r := Ok(reader);
  }

  // -------------------------------------------------------------- round trip

  function PackOf(c: Codec, items: seq<Item>): Bytes {
    Header(|items|) + Records(c, items)
  }

  /** Everything a u32 field must hold fits. */
  predicate Fits(c: Codec, items: seq<Item>) {
    && |items| < 0x1_0000_0000
    && forall k :: 0 <= k < |items| ==> |c.encode(items[k].1)| < 0x1_0000_0000 && |items[k].1| < 0x1_0000_0000
  }

  lemma RecordFields(c: Codec, o: Item, before: Bytes, after: Bytes)
    requires |c.encode(o.1)| < 0x1_0000_0000 && |o.1| < 0x1_0000_0000
    ensures var data, length := before + Record(c, o) + after, |c.encode(o.1)|;
            && FieldsAt(data, |before|) == Some((|o.1|, o.0, length))
            && data[|before| + 41..|before| + 41 + length] == c.encode(o.1)
  {
    var data, r, p := before + Record(c, o) + after, Record(c, o), |before|;
    assert r[1..5] == LittleEndian(|o.1|, 4) && r[5..37] == o.0;
    assert r[37..41] == LittleEndian(|c.encode(o.1)|, 4) && r[41..] == c.encode(o.1);
    assert data[p + 1..p + 5] == r[1..5] && data[p + 5..p + 37] == r[5..37] && data[p + 37..p + 41] == r[37..41];
    WordRanges();
    LittleEndianKeepsIff(|o.1|, 4);
    LittleEndianKeepsIff(|c.encode(o.1)|, 4);
  }

  /** Splits the file around record `k`. */
  lemma {:induction false} RecordsSplit(c: Codec, items: seq<Item>, k: nat) returns (after: Bytes)
    requires k < |items|
    ensures Records(c, items) == Records(c, items[..k]) + Record(c, items[k]) + after
  {
    var n := |items| - 1;
    if k == n {
      after := [];
    } else {
      var middle := RecordsSplit(c, items[..n], k);
      assert items[..n][..k] == items[..k];
      after := middle + Record(c, items[n]);
    }
  }

  lemma PackFields(c: Codec, items: seq<Item>, k: nat)
    requires Fits(c, items) && k < |items|
    ensures var data, offset := PackOf(c, items), OffsetOf(c, items, k);
            && FieldsAt(data, offset) == Some((|items[k].1|, items[k].0, |c.encode(items[k].1)|))
            && offset + 41 + |c.encode(items[k].1)| == OffsetOf(c, items, k + 1) <= |data|
            && data[offset + 41..offset + 41 + |c.encode(items[k].1)|] == c.encode(items[k].1)
  {
    var after := RecordsSplit(c, items, k);
    var before := Header(|items|) + Records(c, items[..k]);
    assert PackOf(c, items) == before + Record(c, items[k]) + after;
    RecordFields(c, items[k], before, after);
    assert items[..k + 1][..k] == items[..k];
  }

  lemma RecordStart(c: Codec, items: seq<Item>, k: nat)
    requires Fits(c, items) && k < |items|
    ensures FieldsAt(PackOf(c, items), OffsetOf(c, items, k))
         == Some((|items[k].1|, items[k].0, |c.encode(items[k].1)|))
    ensures OffsetOf(c, items, k) + 41 + |c.encode(items[k].1)| == OffsetOf(c, items, k + 1)
  {
    PackFields(c, items, k);
  }

  lemma ScanStep(data: Bytes, pos: nat, o: Item, length: nat, count: nat, more: seq<PackEntry>)
    requires count > 0 && FieldsAt(data, pos) == Some((|o.1|, o.0, length))
    requires Scanned(data, pos + 41 + length, count - 1) == Ok(more)
    ensures Scanned(data, pos, count) == Ok([PackEntry(o.0, pos, |o.1|)] + more)
  {
  }

  lemma IndexSplits(c: Codec, items: seq<Item>, k: nat)
    requires k < |items|
    ensures Index(c, items)[k..]
         == [PackEntry(items[k].0, OffsetOf(c, items, k), |items[k].1|)] + Index(c, items)[k + 1..]
  {
    var index := Index(c, items);
    assert index[k..] == [index[k]] + index[k + 1..];
  }

  /** Scanning from record `k` on finds the rest of the index. */
  predicate ScanFinds(c: Codec, items: seq<Item>, k: nat) {
    k <= |items| && Scanned(PackOf(c, items), OffsetOf(c, items, k), |items| - k) == Ok(Index(c, items)[k..])
  }

  lemma ScanOneMore(c: Codec, items: seq<Item>, k: nat)
    requires Fits(c, items) && k < |items| && ScanFinds(c, items, k + 1)
    ensures ScanFinds(c, items, k)
  {
    var data, pos, length, index := PackOf(c, items), OffsetOf(c, items, k), |c.encode(items[k].1)|, Index(c, items);
    IndexSplits(c, items, k);
    RecordStart(c, items, k);
    assert pos + 41 + length == OffsetOf(c, items, k + 1);
    ScanStep(data, pos, items[k], length, |items| - k, index[k + 1..]);
  }

  lemma {:induction false} ScanFindsIndex(c: Codec, items: seq<Item>, k: nat)
    requires Fits(c, items) && k <= |items|
    ensures ScanFinds(c, items, k)
    decreases |items| - k
  {
    if k < |items| {
      ScanFindsIndex(c, items, k + 1);
      ScanOneMore(c, items, k);
    } else {
      assert Index(c, items)[k..] == [];
    }
  }

  /** Opening a written pack finds the writer's index, in whatever order the map was iterated. */
  lemma OpenFindsIndex(c: Codec, items: seq<Item>)
    requires Fits(c, items)
    ensures Opened(PackOf(c, items)) == Ok(Index(c, items))
  {
    var data := PackOf(c, items);
    assert data[..4] == LittleEndian(PACK_VERSION, 4) && data[4..8] == LittleEndian(|items|, 4);
    WordRanges();
    LittleEndianKeepsIff(PACK_VERSION, 4);
    LittleEndianKeepsIff(|items|, 4);
    ScanFindsIndex(c, items, 0);
    assert OffsetOf(c, items, 0) == 8 && Index(c, items)[0..] == Index(c, items);
  }

  /** And every object comes back. */
  lemma ObjectReadsBack(c: Codec, items: seq<Item>, k: nat)
    requires Fits(c, items) && Lossless(c) && k < |items|
    ensures ObjectAt(c, PackOf(c, items), Index(c, items)[k].offset) == Ok(Some(items[k].1))
  {
    PackFields(c, items, k);
  }

  method OpenAndGet(c: Codec, file: Bytes, id: RawId, ghost items: seq<Item>, ghost objects: map<RawId, Bytes>)
    returns (r: Result<Option<Bytes>>)
    requires Lossless(c) && Fits(c, items) && OrderOf(items, objects, objects.Keys) && file == PackOf(c, items)
    ensures r == Ok(if id in objects then Some(objects[id]) else None)
  {
    OpenFindsIndex(c, items);
    var reader := Open(file);
    r := reader.value.GetObject(c, id);
    if id in objects {
      assert Lists(items, id);
      ghost var k :| 0 <= k < |items| && items[k].0 == id;
      ObjectReadsBack(c, items, k);
      assert reader.value.entries[k].id == id;
    }
  }

  /** A map whose data and compressed data fit the header fields. */
  ghost predicate MapFits(c: Codec, objects: map<RawId, Bytes>) {
    && |objects| < 0x1_0000_0000
    && forall o :: o in objects ==> |objects[o]| < 0x1_0000_0000 && |c.encode(objects[o])| < 0x1_0000_0000
  }

  /** A pack written, opened and asked: the added data for added ids, nothing for others. */
  method WriteThenRead(w: PackWriter, c: Codec, id: RawId) returns (r: Result<Option<Bytes>>)
    requires Lossless(c) && MapFits(c, w.objects)
    ensures r == Ok(if id in w.objects then Some(w.objects[id]) else None)
  {
    var file, entries := w.Write(c);
    ghost var items: seq<Item> :| IsPackInOrder(c, items, w.objects, file, entries);
    OrderCounts(items, w.objects, w.objects.Keys);
    r := OpenAndGet(c, file, id, items, w.objects);
  }

  lemma {:induction false} OrderCounts(items: seq<Item>, objects: map<RawId, Bytes>, ids: set<RawId>)
    requires OrderOf(items, objects, ids)
    ensures |items| == |ids|
  {
    if items == [] {
      assert ids == {};
    } else {
      var n := |items| - 1;
      var id := items[n].0;
      forall i | i in ids - {id} ensures Lists(items[..n], i) {
        assert Lists(items, i);
        var k :| 0 <= k < |items| && items[k].0 == i;
        assert items[..n][k].0 == i;
      }
      OrderCounts(items[..n], objects, ids - {id});
      assert ids == ids - {id} + {id};
    }
  }
}
