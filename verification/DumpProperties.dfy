// What the readers make of a printed property block, values of several lines included.
module DumpProperties {
  import opened ObjectModel
  import opened DumpText
  import opened Utf8
  import opened DumpParser
  import opened DumpPrinter

  // ------------------------------------------------------------ lines of text

  /** A value that stays in one line. */
  predicate OneLine(v: string) {
    '\n' !in v && (v != "" ==> v[|v| - 1] != '\r')
  }

  function NoReturn(v: string): string {
    if v != "" && v[|v| - 1] == '\r' then v[..|v| - 1] else v
  }

  /** Where the first newline is, or the length. */
  function Break(v: string): (n: nat)
    ensures n <= |v| && '\n' !in v[..n] && (n < |v| ==> v[n] == '\n')
  {
    if v == "" || v[0] == '\n' then 0
    else
      var n := 1 + Break(v[1..]);
      assert v[..n] == [v[0]] + v[1..][..n - 1];
      n
  }

  /** str::lines of a value that a newline follows. */
  function TextLines(v: string): (r: seq<string>)
    ensures r != []
    decreases |v|
  {
    var n := Break(v);
    [NoReturn(v[..n])] + if n == |v| then [] else TextLines(v[n + 1..])
  }

  function FirstLine(v: string): string {
    TextLines(v)[0]
  }

  function LaterLines(v: string): seq<string> {
    TextLines(v)[1..]
  }

  /** No line could start a pair. */
  predicate Quiet(ls: seq<string>) {
    forall i :: 0 <= i < |ls| ==> !("K " <= ls[i])
  }

  /** One of its later lines ends the block. */
  predicate Stops(v: string) {
    "PROPS-END" in LaterLines(v)
  }

  lemma WithoutNewlines(v: string)
    requires '\n' !in v
    ensures TextLines(v) == [NoReturn(v)] && FirstLine(v) == NoReturn(v) && LaterLines(v) == [] && !Stops(v)
    ensures FirstLine(v) == v <==> OneLine(v)
  {
    assert v[..Break(v)] == v;
  }

  // ----------------------------------------------------------- lines of bytes

  lemma ReturnDropped(u: Charset, v: string)
    requires Faithful(u)
    ensures WithoutReturn(u.encode(v)) == u.encode(NoReturn(v))
  {
    assert KeepsReturn(u, v);
    if v == "" {
      assert Concatenates(u, v, v) && v + v == v;
    } else if v[|v| - 1] == '\r' {
      assert Concatenates(u, v[..|v| - 1], "\r") && v[..|v| - 1] + "\r" == v;
    }
  }

  lemma LineListed(u: Charset, v: string, rest: Bytes)
    requires Faithful(u) && '\n' !in v
    ensures LinesOf(Line(u, v) + rest) == [u.encode(NoReturn(v))] + LinesOf(rest)
  {
    var line := u.encode(v);
    var s := line + [NEWLINE] + rest;
    ReturnDropped(u, v);
    LineEnds(line, rest);
    assert s[..|line|] == line && s[|line|] == NEWLINE;
    assert s[|line| + 1..] == rest;
  }

  lemma OneLineListed(u: Charset, v: string, rest: Bytes)
    requires Faithful(u) && OneLine(v)
    ensures LinesOf(Line(u, v) + rest) == [u.encode(v)] + LinesOf(rest)
  {
    LineListed(u, v, rest);
  }

  function Encodings(u: Charset, ls: seq<string>): seq<Bytes> {
    if ls == [] then [] else [u.encode(ls[0])] + Encodings(u, ls[1..])
  }

  lemma LineSplits(u: Charset, a: string, b: string, rest: Bytes)
    requires Faithful(u)
    ensures Line(u, a + "\n" + b) + rest == Line(u, a) + (Line(u, b) + rest)
  {
    assert Concatenates(u, a + "\n", b) && Concatenates(u, a, "\n");
  }

  /** A printed value becomes the lines of its text. */
  lemma {:induction false} LinesListed(u: Charset, v: string, rest: Bytes)
    requires Faithful(u)
    ensures LinesOf(Line(u, v) + rest) == Encodings(u, TextLines(v)) + LinesOf(rest)
    decreases |v|
  {
    var n := Break(v);
    if n == |v| {
      assert v[..n] == v && [NoReturn(v)][1..] == [];
      LineListed(u, v, rest);
    } else {
      var first, later := v[..n], v[n + 1..];
      assert v == first + "\n" + later;
      LineSplits(u, first, later, rest);
      LineListed(u, first, Line(u, later) + rest);
      LinesListed(u, later, rest);
      EncodingsStep(u, NoReturn(first), TextLines(later), LinesOf(rest));
    }
  }

  lemma EncodingsStep(u: Charset, first: string, later: seq<string>, rest: seq<Bytes>)
    ensures Encodings(u, [first] + later) + rest == [u.encode(first)] + (Encodings(u, later) + rest)
  {
    assert ([first] + later)[1..] == later;
  }

  lemma FirstLineIsShorter(u: Charset, v: string)
    requires Faithful(u)
    ensures |u.encode(FirstLine(v))| <= |u.encode(v)|
  {
    var n := Break(v);
    ReturnDropped(u, v[..n]);
    assert Concatenates(u, v[..n], v[n..]) && v[..n] + v[n..] == v;
  }

  // --------------------------------------------------------------------- pairs

  lemma ShortHeader(u: Charset, letter: string, n: nat)
    requires Faithful(u) && letter in {"K ", "V "}
    ensures OneLine(letter + Digits(n))
    ensures var line := u.encode(letter + Digits(n));
            |line| >= 2 && line[..2] == u.encode(letter) && (n < U64_RANGE ==> ShortLength(u, line) == n)
  {
    NumberReadsBack(n);
    DigitsReadBack(n);
    assert |u.encode(letter)| == 2;
    assert Concatenates(u, letter, Digits(n));
    assert u.encode(letter + Digits(n))[2..] == u.encode(Digits(n));
  }

  lemma PropsStep(u: Charset, l0: Bytes, l1: Bytes, l2: Bytes, l3: Bytes, more: seq<Bytes>, known: map<Bytes, Bytes>)
    requires K <= l0 && V <= l2 && ShortLength(u, l0) >= |l1| && ShortLength(u, l2) >= |l3|
    ensures PropsOf(u, [l0] + ([l1] + ([l2] + ([l3] + more))), known) == PropsOf(u, more, known[l1 := l3])
  {
    var lines := [l0] + ([l1] + ([l2] + ([l3] + more)));
    assert lines[0] == l0 && lines[1] == l1 && lines[2] == l2 && lines[3] == l3 && lines[4..] == more;
    assert l0[0] == K[0] && PROPS_END[0] != K[0];
  }

  /** Lines that start no pair are passed over, up to one that ends the block. */
  lemma {:induction false} SkipLines(u: Charset, ls: seq<string>, more: seq<Bytes>, known: map<Bytes, Bytes>)
    requires Faithful(u) && Quiet(ls)
    ensures PropsOf(u, Encodings(u, ls) + more, known)
         == if "PROPS-END" in ls then Some(known) else PropsOf(u, more, known)
  {
    if ls == [] {
      assert Encodings(u, ls) + more == more;
    } else {
      SkipLines(u, ls[1..], more, known);
      SkipLine(u, ls[0], Encodings(u, ls[1..]) + more, known);
      EncodingsStep(u, ls[0], ls[1..], more);
      assert ls == [ls[0]] + ls[1..];
    }
  }

  lemma SkipLine(u: Charset, line: string, more: seq<Bytes>, known: map<Bytes, Bytes>)
    requires Faithful(u) && !("K " <= line)
    ensures PropsOf(u, [u.encode(line)] + more, known)
         == if line == "PROPS-END" then Some(known) else PropsOf(u, more, known)
  {
    assert StartsAlike(u, line);
    assert u.decode(u.encode(line)) == Some(line) && u.decode(u.encode("PROPS-END")) == Some("PROPS-END");
    assert ([u.encode(line)] + more)[1..] == more;
  }

  lemma PairSplits(u: Charset, key: string, value: string, rest: Bytes)
    ensures Pair(u, key, value) + rest == Line(u, "K " + Digits(|u.encode(key)|)) + (Line(u, key)
              + (Line(u, "V " + Digits(|u.encode(value)|)) + (Line(u, value) + rest)))
  {
    var a, b := Line(u, "K " + Digits(|u.encode(key)|)), Line(u, key);
    var c, d := Line(u, "V " + Digits(|u.encode(value)|)), Line(u, value);
    assert a + (b + (c + d)) + rest == a + (b + (c + (d + rest)));
  }

  /** The lines of a pair and of what follows it. */
  lemma PairListed(u: Charset, key: string, value: string, rest: Bytes)
    requires Faithful(u) && OneLine(key)
    ensures LinesOf(Pair(u, key, value) + rest)
         == [u.encode("K " + Digits(|u.encode(key)|))] + ([u.encode(key)]
              + ([u.encode("V " + Digits(|u.encode(value)|))] + (Encodings(u, TextLines(value)) + LinesOf(rest))))
  {
    var a, c := "K " + Digits(|u.encode(key)|), "V " + Digits(|u.encode(value)|);
    PairSplits(u, key, value, rest);
    ShortHeader(u, "K ", |u.encode(key)|);
    ShortHeader(u, "V ", |u.encode(value)|);
    OneLineListed(u, a, Line(u, key) + (Line(u, c) + (Line(u, value) + rest)));
    OneLineListed(u, key, Line(u, c) + (Line(u, value) + rest));
    OneLineListed(u, c, Line(u, value) + rest);
    LinesListed(u, value, rest);
  }

  /** Of a pair the first line of the value is kept, whatever its other lines are. */
  lemma PairReads(u: Charset, key: string, value: string, rest: Bytes, known: map<Bytes, Bytes>)
    requires Faithful(u) && OneLine(key) && |Pair(u, key, value)| < U64_RANGE
    ensures PropsOf(u, LinesOf(Pair(u, key, value) + rest), known)
         == PropsOf(u, Encodings(u, LaterLines(value)) + LinesOf(rest),
                    known[u.encode(key) := u.encode(FirstLine(value))])
  {
    var k, v := u.encode(key), u.encode(value);
    var a, c := u.encode("K " + Digits(|k|)), u.encode("V " + Digits(|v|));
    PairListed(u, key, value, rest);
    ShortHeader(u, "K ", |k|);
    ShortHeader(u, "V ", |v|);
    FirstLineIsShorter(u, value);
    assert TextLines(value) == [FirstLine(value)] + LaterLines(value);
    EncodingsStep(u, FirstLine(value), LaterLines(value), LinesOf(rest));
    PropsStep(u, a, k, c, u.encode(FirstLine(value)), Encodings(u, LaterLines(value)) + LinesOf(rest), known);
  }

  function Noted(u: Charset, known: map<Bytes, Bytes>, key: string, value: string): map<Bytes, Bytes> {
    if value == "" then known else known[u.encode(key) := u.encode(FirstLine(value))]
  }

  lemma PairUnlessEmptyReads(u: Charset, key: string, value: string, rest: Bytes, known: map<Bytes, Bytes>)
    requires Faithful(u) && OneLine(key) && |PairUnlessEmpty(u, key, value)| < U64_RANGE && Quiet(LaterLines(value))
    ensures PropsOf(u, LinesOf(PairUnlessEmpty(u, key, value) + rest), known)
         == if Stops(value) then Some(Noted(u, known, key, value))
            else PropsOf(u, LinesOf(rest), Noted(u, known, key, value))
  {
    if value == "" {
      WithoutNewlines(value);
      assert [] + rest == rest;
    } else {
      PairReads(u, key, value, rest, known);
      SkipLines(u, LaterLines(value), LinesOf(rest), Noted(u, known, key, value));
    }
  }

  lemma EndReads(u: Charset, known: map<Bytes, Bytes>)
    requires Faithful(u)
    ensures PropsOf(u, LinesOf(ENDLINE), known) == Some(known)
  {
    LineEnds(PROPS_END, []);
    assert PROPS_END + [NEWLINE] + [] == ENDLINE;
    assert ENDLINE[..9] == PROPS_END && ENDLINE[9] == NEWLINE;
  }

  // ------------------------------------------------------------- whole blocks

  /** Metadata in which no later line of a value starts a pair. */
  predicate QuietMeta(m: Meta, dates: Dates) {
    Quiet(LaterLines(m.author)) && Quiet(LaterLines(m.message)) && Quiet(LaterLines(dates.format(m.timestamp)))
  }

  /** The first line of a value that is printed and reached. */
  function Found(v: string, reached: bool): Option<string> {
    if v == "" || !reached then None else Some(FirstLine(v))
  }

  /** What a reader makes of quiet metadata: first lines, and nothing after one that ends the block. */
  function SeenMeta(m: Meta, dates: Dates): Meta {
    var date := Found(dates.format(m.timestamp), !Stops(m.author) && !Stops(m.message));
    Meta(Found(m.author, true).GetOr("unknown"), Found(m.message, !Stops(m.author)).GetOr(""),
      (if date.Some? then dates.parse(date.value) else None).GetOr(dates.now))
  }

  lemma DifferentNames(u: Charset)
    requires Faithful(u)
    ensures u.encode(AUTHOR) != u.encode(LOG) && u.encode(AUTHOR) != u.encode(DATE)
    ensures u.encode(LOG) != u.encode(DATE)
  {
    assert AUTHOR[4] != LOG[4] && AUTHOR[4] != DATE[4] && LOG[4] != DATE[4];
  }

  lemma NamesAreOneLine()
    ensures OneLine(AUTHOR) && OneLine(LOG) && OneLine(DATE)
  {
  }

  /** The pairs a reader finds in a quiet block. */
  function NotedMeta(u: Charset, m: Meta, dates: Dates): map<Bytes, Bytes> {
    var first := Noted(u, map[], AUTHOR, m.author);
    if Stops(m.author) then first else NotedLater(u, first, m.message, dates.format(m.timestamp))
  }

  function NotedLater(u: Charset, known: map<Bytes, Bytes>, message: string, date: string): map<Bytes, Bytes> {
    var second := Noted(u, known, LOG, message);
    if Stops(message) then second else Noted(u, second, DATE, date)
  }

  lemma DateRead(u: Charset, date: string, known: map<Bytes, Bytes>)
    requires Faithful(u) && Quiet(LaterLines(date)) && |PairUnlessEmpty(u, DATE, date)| < U64_RANGE
    ensures PropsOf(u, LinesOf(PairUnlessEmpty(u, DATE, date) + ENDLINE), known) == Some(Noted(u, known, DATE, date))
  {
    NamesAreOneLine();
    PairUnlessEmptyReads(u, DATE, date, ENDLINE, known);
    EndReads(u, Noted(u, known, DATE, date));
  }

  lemma LogAndDateRead(u: Charset, message: string, date: string, known: map<Bytes, Bytes>)
    requires Faithful(u) && Quiet(LaterLines(message)) && Quiet(LaterLines(date))
    requires |PairUnlessEmpty(u, LOG, message)| < U64_RANGE && |PairUnlessEmpty(u, DATE, date)| < U64_RANGE
    ensures PropsOf(u, LinesOf(PairUnlessEmpty(u, LOG, message) + (PairUnlessEmpty(u, DATE, date) + ENDLINE)), known)
         == Some(NotedLater(u, known, message, date))
  {
    NamesAreOneLine();
    PairUnlessEmptyReads(u, LOG, message, PairUnlessEmpty(u, DATE, date) + ENDLINE, known);
    DateRead(u, date, Noted(u, known, LOG, message));
  }

  lemma BlockLength(u: Charset, m: Meta, dates: Dates)
    ensures |RevisionProps(u, m, dates)|
         == |PairUnlessEmpty(u, AUTHOR, m.author)| + |PairUnlessEmpty(u, LOG, m.message)|
            + |PairUnlessEmpty(u, DATE, dates.format(m.timestamp))| + |ENDLINE|
  {
  }

  lemma BlockRead(u: Charset, m: Meta, dates: Dates)
    requires Faithful(u) && |RevisionProps(u, m, dates)| < U64_RANGE && QuietMeta(m, dates)
    ensures PropsOf(u, LinesOf(RevisionProps(u, m, dates)), map[]) == Some(NotedMeta(u, m, dates))
  {
    var date := dates.format(m.timestamp);
    NamesAreOneLine();
    BlockLength(u, m, dates);
    LogAndDateRead(u, m.message, date, Noted(u, map[], AUTHOR, m.author));
    PairUnlessEmptyReads(u, AUTHOR, m.author,
      PairUnlessEmpty(u, LOG, m.message) + (PairUnlessEmpty(u, DATE, date) + ENDLINE), map[]);
  }

  lemma NotedProperty(u: Charset, known: map<Bytes, Bytes>, name: string, value: string, other: string)
    requires Faithful(u) && u.encode(name) != u.encode(other)
    ensures var props := Noted(u, known, name, value);
            && Property(u, props, name) == (if value == "" then Property(u, known, name) else Some(FirstLine(value)))
            && Property(u, props, other) == Property(u, known, other)
  {
  }

  lemma NotedProperties(u: Charset, m: Meta, dates: Dates)
    requires Faithful(u)
    ensures Property(u, NotedMeta(u, m, dates), AUTHOR) == Found(m.author, true)
    ensures Property(u, NotedMeta(u, m, dates), LOG) == Found(m.message, !Stops(m.author))
    ensures Property(u, NotedMeta(u, m, dates), DATE)
         == Found(dates.format(m.timestamp), !Stops(m.author) && !Stops(m.message))
  {
    var first := Noted(u, map[], AUTHOR, m.author);
    var second := Noted(u, first, LOG, m.message);
    DifferentNames(u);
    NotedProperty(u, map[], AUTHOR, m.author, LOG);
    NotedProperty(u, map[], AUTHOR, m.author, DATE);
    NotedProperty(u, first, LOG, m.message, AUTHOR);
    NotedProperty(u, first, LOG, m.message, DATE);
    NotedProperty(u, second, DATE, dates.format(m.timestamp), AUTHOR);
    NotedProperty(u, second, DATE, dates.format(m.timestamp), LOG);
  }

  // ---------------------------------------------------------- blocks are text

  ghost predicate IsText(u: Charset, b: Bytes) {
    exists s :: b == u.encode(s)
  }

  lemma TextsAppend(u: Charset, a: Bytes, b: Bytes)
    requires Faithful(u) && IsText(u, a) && IsText(u, b)
    ensures IsText(u, a + b)
  {
    var s, t :| a == u.encode(s) && b == u.encode(t);
    assert Concatenates(u, s, t);
  }

  lemma LineIsText(u: Charset, v: string)
    requires Faithful(u)
    ensures IsText(u, Line(u, v))
  {
    assert Concatenates(u, v, "\n") && Line(u, v) == u.encode(v + "\n");
  }

  lemma PairIsText(u: Charset, key: string, value: string)
    requires Faithful(u)
    ensures IsText(u, PairUnlessEmpty(u, key, value))
  {
    var a, b := Line(u, "K " + Digits(|u.encode(key)|)), Line(u, key);
    var c, d := Line(u, "V " + Digits(|u.encode(value)|)), Line(u, value);
    LineIsText(u, "K " + Digits(|u.encode(key)|));
    LineIsText(u, key);
    LineIsText(u, "V " + Digits(|u.encode(value)|));
    LineIsText(u, value);
    TextsAppend(u, c, d);
    TextsAppend(u, b, c + d);
    TextsAppend(u, a, b + (c + d));
    EmptyIsText(u);
  }

  lemma EmptyIsText(u: Charset)
    requires Faithful(u)
    ensures IsText(u, [])
  {
    assert Concatenates(u, "", "") && "" + "" == "" && u.encode("") == [];
  }

  lemma BlockIsText(u: Charset, m: Meta, dates: Dates)
    requires Faithful(u)
    ensures u.repair(RevisionProps(u, m, dates)) == RevisionProps(u, m, dates)
  {
    var date := PairUnlessEmpty(u, DATE, dates.format(m.timestamp));
    PairIsText(u, AUTHOR, m.author);
    PairIsText(u, LOG, m.message);
    PairIsText(u, DATE, dates.format(m.timestamp));
    LineIsText(u, "PROPS-END");
    TextsAppend(u, date, ENDLINE);
    TextsAppend(u, PairUnlessEmpty(u, LOG, m.message), date + ENDLINE);
    TextsAppend(u, PairUnlessEmpty(u, AUTHOR, m.author), PairUnlessEmpty(u, LOG, m.message) + (date + ENDLINE));
    assert RepairsNoText(u, RevisionProps(u, m, dates));
  }

  // ------------------------------------------------------------- what is read

  /** What a reader makes of printed metadata; None if it panics. */
  function ReadMeta(u: Charset, m: Meta, dates: Dates): Option<Meta> {
    MetaIn(u, RevisionProps(u, m, dates), dates)
  }

  lemma QuietMetaReads(u: Charset, m: Meta, dates: Dates)
    requires Faithful(u) && |RevisionProps(u, m, dates)| < U64_RANGE && QuietMeta(m, dates)
    ensures ReadMeta(u, m, dates) == Some(SeenMeta(m, dates))
  {
    BlockIsText(u, m, dates);
    BlockRead(u, m, dates);
    NotedProperties(u, m, dates);
  }

  predicate NoNewlines(lines: seq<Bytes>) {
    forall i :: 0 <= i < |lines| ==> NEWLINE !in lines[i]
  }

  lemma {:induction false} FirstNewline(s: Bytes)
    ensures NEWLINE !in s[..LineLength(s)] || (s[LineLength(s) - 1] == NEWLINE && NEWLINE !in s[..LineLength(s) - 1])
  {
    if s != [] && s[0] != NEWLINE {
      FirstNewline(s[1..]);
      var n := LineLength(s);
      assert s[..n] == [s[0]] + s[1..][..n - 1];
      assert n > 1 ==> s[..n - 1] == [s[0]] + s[1..][..n - 2];
    }
  }

  lemma {:induction false} LinesHaveNoNewline(s: Bytes)
    ensures NoNewlines(LinesOf(s))
  {
    if s != [] {
      var n := LineLength(s);
      FirstNewline(s);
      LinesHaveNoNewline(s[n..]);
      if s[n - 1] != NEWLINE { LastLineIsAll(s); }
    }
  }

  lemma {:induction false} LastLineIsAll(s: Bytes)
    requires s != [] && s[LineLength(s) - 1] != NEWLINE
    ensures LineLength(s) == |s|
  {
    if |s| > 1 { LastLineIsAll(s[1..]); }
  }

  predicate ValuesInOneLine(props: map<Bytes, Bytes>) {
    forall k :: k in props ==> NEWLINE !in props[k]
  }

  lemma {:induction false} ValuesAreLines(u: Charset, lines: seq<Bytes>, known: map<Bytes, Bytes>)
    requires NoNewlines(lines) && ValuesInOneLine(known)
    ensures var r := PropsOf(u, lines, known); r.Some? ==> ValuesInOneLine(r.value)
    decreases |lines|
  {
    if lines == [] || lines[0] == PROPS_END {
    } else if !(K <= lines[0]) {
      ValuesAreLines(u, lines[1..], known);
    } else if |lines| >= 3 && Cut(u, lines[1], ShortLength(u, lines[0])).Some? {
      if !(V <= lines[2]) {
        ValuesAreLines(u, lines[3..], known);
      } else if |lines| >= 4 && Cut(u, lines[3], ShortLength(u, lines[2])).Some? {
        var key := Cut(u, lines[1], ShortLength(u, lines[0])).value;
        var value := Cut(u, lines[3], ShortLength(u, lines[2])).value;
        assert NEWLINE !in lines[3];
        ValuesAreLines(u, lines[4..], known[key := value]);
      }
    }
  }

  /** No value with a newline in it is ever read. */
  lemma NeverRead(u: Charset, s: Bytes, name: string, v: string)
    requires Faithful(u) && '\n' in v && PropertiesIn(u, s).Some?
    ensures Property(u, PropertiesIn(u, s).value, name) != Some(v)
  {
    var props, key := PropertiesIn(u, s).value, u.encode(name);
    LinesHaveNoNewline(u.repair(s));
    ValuesAreLines(u, LinesOf(u.repair(s)), map[]);
    if key in props { assert OnlyEncodings(u, props[key]); }
  }

  /** Author and message are read as they were, the author of none as `unknown`. */
  predicate BothRead(r: Option<Meta>, m: Meta) {
    r.Some? && r.value.author == (if m.author == "" then "unknown" else m.author) && r.value.message == m.message
  }

  lemma SeveralLinesAreNotRead(u: Charset, m: Meta, dates: Dates)
    requires Faithful(u) && ('\n' in m.author || '\n' in m.message) && ReadMeta(u, m, dates).Some?
    ensures '\n' in m.author ==> ReadMeta(u, m, dates).value.author != m.author
    ensures '\n' in m.message ==> ReadMeta(u, m, dates).value.message != m.message
  {
    if '\n' in m.author { NeverRead(u, RevisionProps(u, m, dates), AUTHOR, m.author); }
    if '\n' in m.message { NeverRead(u, RevisionProps(u, m, dates), LOG, m.message); }
  }

  lemma WithoutNewlinesReads(u: Charset, m: Meta, dates: Dates)
    requires Faithful(u) && '\n' !in m.author && '\n' !in m.message && OneLine(dates.format(m.timestamp))
    requires |RevisionProps(u, m, dates)| < U64_RANGE
    ensures ReadMeta(u, m, dates) == Some(SeenMeta(m, dates))
    ensures SeenMeta(m, dates).author == if m.author == "" then "unknown" else NoReturn(m.author)
    ensures SeenMeta(m, dates).message == NoReturn(m.message)
  {
    WithoutNewlines(dates.format(m.timestamp));
    WithoutNewlines(m.author);
    WithoutNewlines(m.message);
    QuietMetaReads(u, m, dates);
  }

  /** With a one-line date, author and message both come back if and only if both are one line. */
  lemma PropertiesReadIff(u: Charset, m: Meta, dates: Dates)
    requires Faithful(u) && OneLine(dates.format(m.timestamp)) && |RevisionProps(u, m, dates)| < U64_RANGE
    ensures BothRead(ReadMeta(u, m, dates), m) <==> OneLine(m.author) && OneLine(m.message)
    ensures OneLine(m.author) && OneLine(m.message) ==> ReadMeta(u, m, dates) == Some(SeenMeta(m, dates))
  {
    if '\n' in m.author || '\n' in m.message {
      if ReadMeta(u, m, dates).Some? { SeveralLinesAreNotRead(u, m, dates); }
    } else {
      WithoutNewlinesReads(u, m, dates);
    }
  }

  /** Metadata that comes back as it was. */
  predicate ExactMeta(m: Meta, dates: Dates) {
    && m.author != "" && OneLine(m.author) && OneLine(m.message)
    && SeenMeta(m, dates).timestamp == m.timestamp
  }

  lemma MetaExactIff(u: Charset, m: Meta, dates: Dates)
    requires Faithful(u) && OneLine(dates.format(m.timestamp)) && |RevisionProps(u, m, dates)| < U64_RANGE
    ensures ReadMeta(u, m, dates) == Some(m) <==> ExactMeta(m, dates)
  {
    if '\n' in m.author || '\n' in m.message {
      if ReadMeta(u, m, dates).Some? { SeveralLinesAreNotRead(u, m, dates); }
    } else {
      WithoutNewlinesReads(u, m, dates);
      SeenExactIff(m, dates);
    }
  }

  lemma SeenExactIff(m: Meta, dates: Dates)
    requires '\n' !in m.author && '\n' !in m.message
    ensures SeenMeta(m, dates) == m <==> ExactMeta(m, dates)
  {
    WithoutNewlines(m.author);
    WithoutNewlines(m.message);
  }

  // ------------------------------------------------- what several lines can do

  /** A later line of the author can end the block, and a message of one line is lost with it. */
  lemma AuthorCanEndTheBlock(u: Charset, m: Meta, author: string, dates: Dates)
    requires Faithful(u) && |RevisionProps(u, m, dates)| < U64_RANGE && OneLine(dates.format(m.timestamp))
    requires m.author == author + "\n" + "PROPS-END" && OneLine(author) && OneLine(m.message)
    ensures ReadMeta(u, m, dates) == Some(Meta(author, "", dates.now))
  {
    EndsInTheBlock(m.author, author);
    WithoutNewlines(m.message);
    WithoutNewlines(dates.format(m.timestamp));
    QuietMetaReads(u, m, dates);
    SeenStopped(m, author, dates);
  }

  lemma EndsInTheBlock(v: string, first: string)
    requires v == first + "\n" + "PROPS-END" && OneLine(first)
    ensures FirstLine(v) == first && Stops(v) && Quiet(LaterLines(v)) && v != ""
  {
    TwoLines(v, first, "PROPS-END");
    assert "PROPS-END"[0] != 'K';
  }

  lemma SeenStopped(m: Meta, author: string, dates: Dates)
    requires m.author != "" && FirstLine(m.author) == author && Stops(m.author)
    ensures SeenMeta(m, dates) == Meta(author, "", dates.now)
  {
  }

  lemma TwoLines(v: string, a: string, b: string)
    requires v == a + "\n" + b && OneLine(a) && OneLine(b)
    ensures TextLines(v) == [a, b]
  {
    WithoutNewlines(b);
    LineThenLines(v, a, b);
  }

  lemma LineThenLines(v: string, a: string, b: string)
    requires v == a + "\n" + b && OneLine(a)
    ensures TextLines(v) == [a] + TextLines(b)
  {
    BreakAt(a, b);
    PartsOf(a, b);
    TextLinesStep(v);
  }

  lemma PartsOf(a: string, b: string)
    ensures (a + "\n" + b)[..|a|] == a && (a + "\n" + b)[|a| + 1..] == b
  {
  }

  lemma TextLinesStep(v: string)
    requires Break(v) < |v|
    ensures TextLines(v) == [NoReturn(v[..Break(v)])] + TextLines(v[Break(v) + 1..])
  {
  }

  lemma {:induction false} BreakAt(a: string, b: string)
    requires '\n' !in a
    ensures Break(a + "\n" + b) == |a|
  {
    if a != "" {
      assert (a + "\n" + b)[1..] == a[1..] + "\n" + b;
      BreakAt(a[1..], b);
    }
  }

  /** A later line asks for less of the line after it than whole characters. */
  predicate SplitsCharacter(u: Charset, line: string, next: string) {
    var k := u.encode(line);
    "K " <= line && |k| >= 2 && Cut(u, u.encode(next), ShortLength(u, k)) == None
  }

  /** A reader does not survive a message whose second line asks for part of a character of the third. */
  lemma MessageCanStopTheReader(u: Charset, m: Meta, dates: Dates, first: string, second: string, third: string)
    requires Faithful(u) && |RevisionProps(u, m, dates)| < U64_RANGE && m.author == ""
    requires m.message == first + "\n" + (second + "\n" + third)
    requires OneLine(first) && OneLine(second) && OneLine(third) && SplitsCharacter(u, second, third)
    ensures ReadMeta(u, m, dates) == None
  {
    var rest := PairUnlessEmpty(u, DATE, dates.format(m.timestamp)) + ENDLINE;
    BlockIsText(u, m, dates);
    NamesAreOneLine();
    LogFirst(u, m, dates);
    PairReads(u, LOG, m.message, rest, map[]);
    ThreeLines(m.message, first, second, third);
    EncodingsOfTwo(u, second, third, LinesOf(rest));
    assert StartsAlike(u, second);
    CutStops(u, u.encode(second), u.encode(third), LinesOf(rest), map[u.encode(LOG) := u.encode(first)]);
  }

  lemma LogFirst(u: Charset, m: Meta, dates: Dates)
    requires m.author == "" && m.message != ""
    ensures RevisionProps(u, m, dates)
         == Pair(u, LOG, m.message) + (PairUnlessEmpty(u, DATE, dates.format(m.timestamp)) + ENDLINE)
  {
    var block := Pair(u, LOG, m.message) + (PairUnlessEmpty(u, DATE, dates.format(m.timestamp)) + ENDLINE);
    assert [] + block == block;
  }

  lemma ThreeLines(v: string, a: string, b: string, c: string)
    requires v == a + "\n" + (b + "\n" + c) && OneLine(a) && OneLine(b) && OneLine(c)
    ensures FirstLine(v) == a && LaterLines(v) == [b, c]
  {
    TwoLines(b + "\n" + c, b, c);
    LineThenLines(v, a, b + "\n" + c);
  }

  lemma EncodingsOfTwo(u: Charset, a: string, b: string, more: seq<Bytes>)
    ensures Encodings(u, [a, b]) + more == [u.encode(a)] + ([u.encode(b)] + more)
  {
    EncodingsStep(u, a, [b], more);
    EncodingsStep(u, b, [], more);
    assert [a] + [b] == [a, b] && [b] + [] == [b] && [] + more == more;
  }

  lemma CutStops(u: Charset, l0: Bytes, l1: Bytes, more: seq<Bytes>, known: map<Bytes, Bytes>)
    requires K <= l0 && Cut(u, l1, ShortLength(u, l0)) == None
    ensures PropsOf(u, [l0] + ([l1] + more), known) == None
  {
    var lines := [l0] + ([l1] + more);
    assert lines[0] == l0 && lines[1] == l1 && l0[0] == K[0] && PROPS_END[0] != K[0];
  }

  /** Such lines are K 1 and a letter of two bytes. */
  lemma HalfALetter()
    ensures SplitsCharacter(UTF8, "K " + Digits(1), "\U{E9}")
  {
    Utf8IsFaithful();
    ShortHeader(UTF8, "K ", 1);
    HalfCharacter();
  }

  lemma HalfCharacter()
    ensures Cut(UTF8, UTF8.encode("\U{E9}"), 1) == None
  {
    assert "\U{E9}"[1..] == "" && UTF8.encode("\U{E9}") == [0xC3, 0xA9];
    assert Decoded([0xC3]) == None;
    assert [0xC3, 0xA9][..1] == [0xC3];
  }
}
