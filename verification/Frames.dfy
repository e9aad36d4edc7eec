// The object stream: the server's frame writer and the client's parser.
module Frames {
  import opened ObjectModel
  import opened ByteFields

  const MISSING: nat := 0xFFFF_FFFF

  /** One answer: the object's bytes, or None if the server does not have it. */
  type Frame = (RawId, Option<Bytes>)

  function LengthField(data: Option<Bytes>): Bytes {
    match data
    case Some(d) => BigEndian(|d|, 4)
    case None => BigEndian(MISSING, 4)
  }

  function Framed(f: Frame): (r: Bytes)
    ensures |r| == 36 + |f.1.GetOr([])|
  {
    f.0 + LengthField(f.1) + f.1.GetOr([])
  }

  function Stream(fs: seq<Frame>): Bytes {
    if fs == [] then [] else Framed(fs[0]) + Stream(fs[1..])
  }

  function Answers(store: map<RawId, Bytes>, ids: seq<RawId>): seq<Frame> {
    seq(|ids|, i requires 0 <= i < |ids| => (ids[i], if ids[i] in store then Some(store[ids[i]]) else None))
  }

  lemma {:induction false} StreamAppends(fs: seq<Frame>, f: Frame)
    ensures Stream(fs + [f]) == Stream(fs) + f.0 + LengthField(f.1) + f.1.GetOr([])
  {
    if fs == [] {
      assert ([f])[1..] == [];
    } else {
      assert (fs + [f])[1..] == fs[1..] + [f];
      StreamAppends(fs[1..], f);
    }
  }

  /** The body of handle_objects after the ids were parsed. */
  method WriteFrames(store: map<RawId, Bytes>, ids: seq<RawId>) returns (buf: Bytes)
    ensures buf == Stream(Answers(store, ids))
  {
    buf := [];
    ghost var answers := Answers(store, ids);
    var i := 0;
    while i < |ids|
      invariant 0 <= i <= |ids| && buf == Stream(answers[..i])
    {
      StreamAppends(answers[..i], answers[i]);
      assert answers[..i + 1] == answers[..i] + [answers[i]];
      buf := buf + ids[i];
      if ids[i] in store {
        var data := store[ids[i]];
        buf := buf + BigEndian(|data|, 4);
        buf := buf + data;
      } else {
        buf := buf + BigEndian(MISSING, 4);
      }
      i := i + 1;
    }
    assert answers[..i] == answers;
  }

  function Prepended(f: Frame, r: Result<seq<Frame>>): Result<seq<Frame>> {
    match r
    case Ok(fs) => Ok([f] + fs)
    case Err(e) => Err(e)
  }

  function Joined(results: seq<Frame>, r: Result<seq<Frame>>): Result<seq<Frame>> {
    match r
    case Ok(fs) => Ok(results + fs)
    case Err(e) => Err(e)
  }

  lemma JoinedNothing(r: Result<seq<Frame>>)
    ensures Joined([], r) == r
  {
    if r.Ok? { assert [] + r.value == r.value; }
  }

  lemma JoinedStep(results: seq<Frame>, f: Frame, r: Result<seq<Frame>>)
    ensures Joined(results, Prepended(f, r)) == Joined(results + [f], r)
  {
    if r.Ok? { assert results + ([f] + r.value) == results + [f] + r.value; }
  }

  /** Fewer than 36 bytes at the end are silently ignored. */
  function Parsed(s: Bytes): Result<seq<Frame>>
    decreases |s|
  {
    if |s| < 36 then Ok([])
    else
      var id, len := s[..32], FromBigEndian(s[32..36]);
      if len == MISSING then Prepended((id, None), Parsed(s[36..]))
      else if 36 + len > |s| then Err(Truncated)
      else Prepended((id, Some(s[36..36 + len])), Parsed(s[36 + len..]))
  }

  /** The parsing half of get_objects. */
  method ParseFrames(data: Bytes) returns (r: Result<seq<Frame>>)
    ensures r == Parsed(data)
  {
    var results: seq<Frame> := [];
    var pos := 0;
    assert data[0..] == data;
    JoinedNothing(Parsed(data));
    while pos + 36 <= |data|
      invariant pos <= |data|
      invariant Parsed(data) == Joined(results, Parsed(data[pos..]))
      decreases |data| - pos
    {
      ghost var left := data[pos..];
      var id := data[pos..pos + 32];
      var len := FromBigEndian(data[pos + 32..pos + 36]);
      assert left[..32] == id && left[32..36] == data[pos + 32..pos + 36];
      pos := pos + 36;
      assert left[36..] == data[pos..];
      if len == MISSING {
        JoinedStep(results, (id, None), Parsed(data[pos..]));
        results := results + [(id, None)];
      } else {
        var end := pos + len;
        if end > |data| { return Err(Truncated); }
        assert left[36..36 + len] == data[pos..end] && left[36 + len..] == data[end..];
        JoinedStep(results, (id, Some(data[pos..end])), Parsed(data[end..]));
        results := results + [(id, Some(data[pos..end]))];
        pos := end;
      }
    }
    assert results + [] == results;
    r := Ok(results);
  }

  // -------------------------------------------------------------- round trip

  predicate Short(f: Frame) {
    f.1.Some? ==> |f.1.value| < MISSING
  }

  predicate AllShort(fs: seq<Frame>) {
    forall i :: 0 <= i < |fs| ==> Short(fs[i])
  }

  /** What stands at the front of a stream. */
  lemma FrontOfStream(f: Frame, rest: Bytes)
    ensures var s := Framed(f) + rest;
            && s[..32] == f.0 && s[32..36] == LengthField(f.1)
            && s[36..36 + |f.1.GetOr([])|] == f.1.GetOr([]) && s[36 + |f.1.GetOr([])|..] == rest
  {
  }

  lemma LengthReadsBack(f: Frame)
    ensures f.1.None? ==> FromBigEndian(LengthField(f.1)) == MISSING
    ensures f.1.Some? ==> (FromBigEndian(LengthField(f.1)) == |f.1.value| && |f.1.value| != MISSING <==> Short(f))
  {
    WordRanges();
    BigEndianKeepsIff(MISSING, 4);
    if f.1.Some? { BigEndianKeepsIff(|f.1.value|, 4); }
  }

  lemma ShortFrameParses(f: Frame, rest: Bytes)
    requires Short(f)
    ensures Parsed(Framed(f) + rest) == Prepended(f, Parsed(rest))
  {
    FrontOfStream(f, rest);
    LengthReadsBack(f);
  }

  lemma LongFrameParsesWrong(f: Frame, rest: Bytes)
    requires !Short(f)
    ensures Parsed(Framed(f) + rest).Ok? ==> Parsed(Framed(f) + rest).value[0] != f
  {
    FrontOfStream(f, rest);
    LengthReadsBack(f);
  }

  /** The client gets back what the server framed exactly when every object is short enough. */
  lemma {:induction false} StreamReadsBackIff(fs: seq<Frame>)
    ensures Parsed(Stream(fs)) == Ok(fs) <==> AllShort(fs)
  {
    if fs != [] {
      StreamReadsBackIff(fs[1..]);
      assert fs == [fs[0]] + fs[1..];
      if Short(fs[0]) {
        ShortFrameParses(fs[0], Stream(fs[1..]));
        assert AllShort(fs) <==> AllShort(fs[1..]);
        if Parsed(Stream(fs)) == Ok(fs) {
          assert ([fs[0]] + Parsed(Stream(fs[1..])).value)[1..] == Parsed(Stream(fs[1..])).value;
        }
      } else {
        LongFrameParsesWrong(fs[0], Stream(fs[1..]));
      }
    }
  }

  /** Cutting inside the data of frame `k`. */
  predicate CutInData(fs: seq<Frame>, n: nat, k: nat) {
    k < |fs| && |Stream(fs[..k])| + 36 <= n < |Stream(fs[..k])| + |Framed(fs[k])|
  }

  /** The whole frames among the first `n` bytes, or a report that data is missing. */
  ghost predicate ReportsPrefix(fs: seq<Frame>, n: nat, r: Result<seq<Frame>>) {
    match r
    case Ok(got) => got <= fs && |Stream(got)| <= n < |Stream(got)| + 36
    case Err(e) => e == Truncated && exists k :: CutInData(fs, n, k)
  }

  lemma CutInFirstFrame(f: Frame, rest: Bytes, n: nat)
    requires Short(f) && n < |Framed(f)|
    ensures Parsed((Framed(f) + rest)[..n]) == if n < 36 then Ok([]) else Err(Truncated)
  {
    FrontOfStream(f, rest);
    LengthReadsBack(f);
    var s := Framed(f) + rest;
    assert n >= 36 ==> s[..n][32..36] == s[32..36];
  }

  lemma ReportsPrefixGrows(fs: seq<Frame>, n: nat, r: Result<seq<Frame>>)
    requires fs != [] && n >= |Framed(fs[0])| && ReportsPrefix(fs[1..], n - |Framed(fs[0])|, r)
    ensures ReportsPrefix(fs, n, Prepended(fs[0], r))
  {
    match r {
      case Ok(got) => assert ([fs[0]] + got)[1..] == got;
      case Err(_) =>
        var k: nat :| CutInData(fs[1..], n - |Framed(fs[0])|, k);
        assert fs[..k + 1][1..] == fs[1..][..k];
        assert CutInData(fs, n, k + 1);
    }
  }

  /**
   * On a byte prefix the parser never invents or changes a frame: it returns the whole
   * frames it got, dropping less than a header, or it reports that data is missing.
   */
  lemma {:induction false} PrefixParsesToPrefix(fs: seq<Frame>, n: nat)
    requires AllShort(fs) && n <= |Stream(fs)|
    ensures ReportsPrefix(fs, n, Parsed(Stream(fs)[..n]))
  {
    if fs != [] {
      var first, rest := fs[0], Stream(fs[1..]);
      var size := |Framed(first)|;
      if n >= size {
        assert Stream(fs)[..n] == Framed(first) + rest[..n - size];
        ShortFrameParses(first, rest[..n - size]);
        PrefixParsesToPrefix(fs[1..], n - size);
        ReportsPrefixGrows(fs, n, Parsed(rest[..n - size]));
      } else {
        CutInFirstFrame(first, rest, n);
        assert n >= 36 ==> CutInData(fs, n, 0);
      }
    }
  }

  /** Asking for objects over the wire answers like looking them up. */
  lemma FetchingIsLookingUp(store: map<RawId, Bytes>, ids: seq<RawId>)
    requires forall id :: id in store ==> |store[id]| < MISSING
    ensures Parsed(Stream(Answers(store, ids))) == Ok(Answers(store, ids))
  {
    StreamReadsBackIff(Answers(store, ids));
  }
}
