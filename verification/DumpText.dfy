// Lines, headers and numbers of the dump format, as the readers take them apart.
module DumpText {
  import opened ObjectModel

  const NEWLINE: Byte := 10
  const RETURN: Byte := 13

  // ------------------------------------------------------------------- lines

  /** Up to and including the first newline. */
  function LineLength(s: Bytes): (n: nat)
    ensures n <= |s| && (s != [] ==> n > 0)
  {
    if s == [] then 0 else if s[0] == NEWLINE then 1 else 1 + LineLength(s[1..])
  }

  function AfterLine(s: Bytes): (r: Bytes)
    ensures s != [] ==> |r| < |s|
  {
    s[LineLength(s)..]
  }

  lemma {:induction false} LineEnds(line: Bytes, rest: Bytes)
    requires NEWLINE !in line
    ensures LineLength(line + [NEWLINE] + rest) == |line| + 1
    ensures AfterLine(line + [NEWLINE] + rest) == rest
  {
    var s := line + [NEWLINE] + rest;
    if line != [] {
      assert s[1..] == line[1..] + [NEWLINE] + rest;
      LineEnds(line[1..], rest);
    }
  }

  // -------------------------------------------------------------- whitespace

  /** char::is_whitespace */
  predicate IsSpace(c: char) {
    var n := c as int;
    9 <= n <= 13 || n in {0x20, 0x85, 0xA0, 0x1680, 0x2028, 0x2029, 0x202F, 0x205F, 0x3000} || 0x2000 <= n <= 0x200A
  }

  function TrimmedEnd(s: string): string {
    if s != "" && IsSpace(s[|s| - 1]) then TrimmedEnd(s[..|s| - 1]) else s
  }

  function TrimmedStart(s: string): string {
    if s != "" && IsSpace(s[0]) then TrimmedStart(s[1..]) else s
  }

  /** str::trim */
  function Stripped(s: string): string {
    TrimmedEnd(TrimmedStart(s))
  }

  lemma {:induction false} TrimmedEndAfter(a: string, b: string)
    ensures TrimmedEnd(a + b) == if TrimmedEnd(b) == "" then TrimmedEnd(a) else a + TrimmedEnd(b)
  {
    if b == "" {
      assert a + b == a;
    } else if IsSpace(b[|b| - 1]) {
      assert (a + b)[..|a + b| - 1] == a + b[..|b| - 1];
      TrimmedEndAfter(a, b[..|b| - 1]);
    }
  }

  /** Trimming the end first makes no difference. */
  lemma {:induction false} StrippedEnd(s: string)
    ensures Stripped(TrimmedEnd(s)) == Stripped(s)
  {
    if s != "" && IsSpace(s[0]) {
      var t := s[1..];
      StrippedEnd(t);
      assert s == [s[0]] + t;
      TrimmedEndAfter([s[0]], t);
      assert TrimmedEnd([s[0]]) == "" by { assert [s[0]][..0] == ""; }
      if TrimmedEnd(t) != "" { assert ([s[0]] + TrimmedEnd(t))[1..] == TrimmedEnd(t); }
    } else {
      TrimmedEndKeepsFirst(s);
      TrimmedEndTwice(s);
    }
  }

  lemma {:induction false} TrimmedEndKeepsFirst(s: string)
    ensures TrimmedEnd(s) <= s
  {
    if s != "" && IsSpace(s[|s| - 1]) { TrimmedEndKeepsFirst(s[..|s| - 1]); }
  }

  lemma {:induction false} TrimmedEndTwice(s: string)
    ensures TrimmedEnd(TrimmedEnd(s)) == TrimmedEnd(s)
  {
    if s != "" && IsSpace(s[|s| - 1]) { TrimmedEndTwice(s[..|s| - 1]); }
  }

  // ----------------------------------------------------------------- headers

  /** What stands before the first colon; a line starts with `K:` exactly when this is K. */
  function NameIn(line: string): Option<string> {
    if line == "" then None
    else if line[0] == ':' then Some("")
    else
      match NameIn(line[1..])
      case None => None
      case Some(k) => Some([line[0]] + k)
  }

  /** The value of a header: what follows the first colon-space, trimmed. */
  function AfterColon(line: string): string {
    if |line| < 2 then "" else if line[0] == ':' && line[1] == ' ' then line[2..] else AfterColon(line[1..])
  }

  function HeaderValue(line: string): string {
    Stripped(AfterColon(line))
  }

  lemma {:induction false} NameOfHeader(k: string, v: string)
    requires ':' !in k
    ensures NameIn(k + ":" + v) == Some(k)
  {
    var line := k + ":" + v;
    if k != "" {
      assert line[1..] == k[1..] + ":" + v;
      NameOfHeader(k[1..], v);
      assert [k[0]] + k[1..] == k;
    }
  }

  lemma {:induction false} AfterColonOfHeader(k: string, v: string)
    requires ':' !in k
    ensures AfterColon(k + ": " + v) == v
  {
    var line := k + ": " + v;
    if k == "" {
      assert line[2..] == v;
    } else {
      assert line[1..] == k[1..] + ": " + v;
      AfterColonOfHeader(k[1..], v);
    }
  }

  lemma {:induction false} NoColonSpace(k: string)
    requires ':' !in k
    ensures AfterColon(k + ":") == ""
  {
    if k != "" {
      assert (k + ":")[1..] == k[1..] + ":";
      NoColonSpace(k[1..]);
    }
  }

  /** A header name the readers can recognise. */
  predicate GoodName(k: string) {
    k != "" && ':' !in k && '\n' !in k && !IsSpace(k[0])
  }

  lemma NewlineTrimmed(v: string)
    ensures TrimmedEnd(v + "\n") == TrimmedEnd(v)
  {
    assert (v + "\n")[..|v|] == v;
  }

  lemma ColonSpaceTrimmed(k: string)
    ensures TrimmedEnd(k + ": ") == k + ":"
  {
    var s := k + ": ";
    assert s[..|k| + 1] == k + ":" && s[|k| + 1] == ' ' && s[..|k| + 1][|k|] == ':';
  }

  lemma HeaderStripped(k: string, v: string)
    requires k != "" && !IsSpace(k[0])
    ensures Stripped(k + ": " + v + "\n") == if TrimmedEnd(v) == "" then k + ":" else k + ": " + TrimmedEnd(v)
  {
    var line := k + ": " + v + "\n";
    assert line[0] == k[0] && line == (k + ": ") + (v + "\n");
    NewlineTrimmed(v);
    ColonSpaceTrimmed(k);
    TrimmedEndAfter(k + ": ", v + "\n");
  }

  /** A header line keeps its name and its value, the value without outer whitespace. */
  lemma HeaderReadsBack(k: string, v: string)
    requires GoodName(k)
    ensures NameIn(Stripped(k + ": " + v + "\n")) == Some(k)
    ensures HeaderValue(Stripped(k + ": " + v + "\n")) == Stripped(v)
  {
    HeaderStripped(k, v);
    StrippedEnd(v);
    if TrimmedEnd(v) == "" {
      assert k + ":" + "" == k + ":";
      NameOfHeader(k, "");
      NoColonSpace(k);
    } else {
      assert k + ": " + TrimmedEnd(v) == k + ":" + (" " + TrimmedEnd(v));
      NameOfHeader(k, " " + TrimmedEnd(v));
      AfterColonOfHeader(k, TrimmedEnd(v));
    }
  }

  /** The header lines that readers or writers know. */
  datatype Header =
    | VersionHeader | UuidHeader | RevisionHeader | PropLength | TextLength | TotalLength
    | PathHeader | KindHeader | ActionHeader | ChecksumHeader | CopyPathHeader | CopyRevHeader

  function Name(h: Header): string {
    match h
    case VersionHeader => "SVN-fs-dump-format-version"
    case UuidHeader => "UUID"
    case RevisionHeader => "Revision-number"
    case PropLength => "Prop-content-length"
    case TextLength => "Text-content-length"
    case TotalLength => "Content-length"
    case PathHeader => "Node-path"
    case KindHeader => "Node-kind"
    case ActionHeader => "Node-action"
    case ChecksumHeader => "Text-content-md5"
    case CopyPathHeader => "Node-copyfrom-path"
    case CopyRevHeader => "Node-copyfrom-rev"
  }

  /** Which header a trimmed line is, if any. */
  function HeaderIn(line: string): Option<Header> {
    var name := NameIn(line);
    if name.None? then None
    else if name.value == Name(VersionHeader) then Some(VersionHeader)
    else if name.value == Name(UuidHeader) then Some(UuidHeader)
    else if name.value == Name(RevisionHeader) then Some(RevisionHeader)
    else if name.value == Name(PropLength) then Some(PropLength)
    else if name.value == Name(TextLength) then Some(TextLength)
    else if name.value == Name(TotalLength) then Some(TotalLength)
    else if name.value == Name(PathHeader) then Some(PathHeader)
    else if name.value == Name(KindHeader) then Some(KindHeader)
    else if name.value == Name(ActionHeader) then Some(ActionHeader)
    else if name.value == Name(ChecksumHeader) then Some(ChecksumHeader)
    else if name.value == Name(CopyPathHeader) then Some(CopyPathHeader)
    else if name.value == Name(CopyRevHeader) then Some(CopyRevHeader)
    else None
  }

  lemma NamesDiffer(h: Header, k: Header)
    requires h != k
    ensures Name(h) != Name(k)
  {
    assert || |Name(h)| != |Name(k)| || Name(h)[0] != Name(k)[0]
           || (h in {PathHeader, KindHeader} && Name(h)[5] != Name(k)[5]);
  }

  lemma NamesAreKnown(h: Header, line: string)
    requires NameIn(line) == Some(Name(h))
    ensures HeaderIn(line) == Some(h)
  {
    forall k: Header | k != h ensures Name(k) != Name(h) { NamesDiffer(h, k); }
  }

  lemma NamesHaveNoColon(h: Header)
    ensures ':' !in Name(h)
  {
  }

  lemma NamesHaveNoNewline(h: Header)
    ensures '\n' !in Name(h)
  {
  }

  lemma NamesAreGood(h: Header)
    ensures GoodName(Name(h))
  {
    NamesHaveNoColon(h);
    NamesHaveNoNewline(h);
  }

  /** A header line is recognised and keeps its value, without outer whitespace. */
  lemma KnownHeaderReadsBack(h: Header, v: string)
    ensures HeaderIn(Stripped(Name(h) + ": " + v + "\n")) == Some(h)
    ensures HeaderValue(Stripped(Name(h) + ": " + v + "\n")) == Stripped(v)
  {
    NamesAreGood(h);
    HeaderReadsBack(Name(h), v);
    NamesAreKnown(h, Stripped(Name(h) + ": " + v + "\n"));
  }

  // ----------------------------------------------------------------- numbers

  const U64_RANGE: nat := 0x1_0000_0000_0000_0000

  function Digit(d: nat): char
    requires d < 10
  {
    '0' + d as char
  }

  function Digits(n: nat): (r: string)
    ensures r != ""
  {
    if n < 10 then [Digit(n)] else Digits(n / 10) + [Digit(n % 10)]
  }

  predicate AllDigits(s: string) {
    forall i :: 0 <= i < |s| ==> '0' <= s[i] <= '9'
  }

  function ValueOf(s: string): nat
    requires AllDigits(s)
  {
    if s == "" then 0 else ValueOf(s[..|s| - 1]) * 10 + (s[|s| - 1] as int - '0' as int)
  }

  /** parse().unwrap_or(0) for 64-bit numbers; a leading plus sign is accepted. */
  function Number(s: string): nat {
    var t := if s != "" && s[0] == '+' then s[1..] else s;
    if t != "" && AllDigits(t) && ValueOf(t) < U64_RANGE then ValueOf(t) else 0
  }

  lemma {:induction false} DigitsReadBack(n: nat)
    ensures AllDigits(Digits(n)) && ValueOf(Digits(n)) == n
  {
    if n < 10 {
      assert [Digit(n)][..0] == "";
    } else {
      DigitsReadBack(n / 10);
      var s := Digits(n);
      assert s[..|s| - 1] == Digits(n / 10);
    }
  }

  lemma NumberReadsBack(n: nat)
    ensures Number(Digits(n)) == n <==> n < U64_RANGE
    ensures Stripped(Digits(n)) == Digits(n) && '\n' !in Digits(n)
  {
    DigitsReadBack(n);
  }
}
