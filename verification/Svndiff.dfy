// The svndiff decoder that PUT bodies go through.
module Svndiff {
  import opened ObjectModel
  import opened ByteFields

  const U64: nat := 0x1_0000_0000_0000_0000

  // ---------------------------------------------------------------- varints

  /** What is left of `n` in 64 bits. */
  function Wrapped(n: nat): nat {
    if n < U64 then n else Wrapped(n - U64)
  }

  lemma {:induction false} WrappedIsModulo(n: nat)
    ensures Wrapped(n) == n % U64
  {
    if n >= U64 { WrappedIsModulo(n - U64); }
  }

  /** `result << 7 | low bits`: what is shifted out is lost. */
  function Shifted(acc: nat, byte: Byte): nat {
    Wrapped(acc * 128) + byte % 128
  }

  /** The value and what follows it; the end of the data ends a number early. */
  function ReadFrom(s: Bytes, acc: nat): (r: (nat, Bytes))
    ensures |r.1| <= |s|
    ensures s != [] ==> |r.1| < |s|
  {
    if s == [] then (acc, [])
    else if s[0] < 128 then (Shifted(acc, s[0]), s[1..])
    else ReadFrom(s[1..], Shifted(acc, s[0]))
  }

  method ReadVarint(data: Bytes, pos: nat) returns (v: nat, next: nat)
    requires pos <= |data|
    ensures pos <= next <= |data| && (v, data[next..]) == ReadFrom(data[pos..], 0)
  {
    v, next := 0, pos;
    while true
      invariant pos <= next <= |data| && ReadFrom(data[pos..], 0) == ReadFrom(data[next..], v)
      decreases |data| - next
    {
      if next >= |data| { return; }
      var byte := data[next];
      v := Shifted(v, byte);
      next := next + 1;
      if byte < 128 { return; }
    }
  }

  /** The digits of `n` in base 128, each marked as continued. */
  function Continued(n: nat): Bytes {
    if n == 0 then [] else Continued(n / 128) + [128 + n % 128]
  }

  /** Subversion's encoding of a length or an offset. */
  function Varint(n: nat): (r: Bytes)
    ensures |r| > 0
  {
    Continued(n / 128) + [n % 128]
  }

  lemma ShiftWraps(high: nat, digit: nat)
    requires digit < 128
    ensures high % U64 * 128 % U64 + digit == (high * 128 + digit) % U64
  {
    var lost, kept := high / 0x200_0000_0000_0000, high % 0x200_0000_0000_0000;
    assert high * 128 + digit == lost * U64 + (kept * 128 + digit);
    var lost' := high % U64 / 0x200_0000_0000_0000;
    assert high % U64 * 128 == lost' * U64 + kept * 128;
  }

  lemma ShiftedAppends(n: nat, byte: Byte)
    requires byte % 128 == n % 128
    ensures Shifted(Wrapped(n / 128), byte) == Wrapped(n)
  {
    ShiftWraps(n / 128, n % 128);
    WrappedIsModulo(n / 128);
    WrappedIsModulo(n / 128 % U64 * 128);
    WrappedIsModulo(n);
  }

  lemma {:induction false} ContinuedReads(n: nat, rest: Bytes)
    ensures ReadFrom(Continued(n) + rest, 0) == ReadFrom(rest, Wrapped(n))
  {
    if n > 0 {
      var high, digit := Continued(n / 128), 128 + n % 128;
      assert high + [digit] + rest == high + ([digit] + rest);
      ContinuedReads(n / 128, [digit] + rest);
      ShiftedAppends(n, digit);
      assert ([digit] + rest)[1..] == rest;
    } else {
      assert [] + rest == rest;
    }
  }

  /** A varint reads back in 64 bits whatever follows it. */
  lemma VarintReadsBack(n: nat, rest: Bytes)
    ensures ReadFrom(Varint(n) + rest, 0) == (Wrapped(n), rest)
  {
    var high, digit := Continued(n / 128), n % 128;
    assert high + [digit] + rest == high + ([digit] + rest);
    ContinuedReads(n / 128, [digit] + rest);
    ShiftedAppends(n, digit);
    assert ([digit] + rest)[1..] == rest;
  }

  /** So exactly the 64-bit values survive. */
  lemma VarintRoundTripIff(n: nat, rest: Bytes)
    ensures ReadFrom(Varint(n) + rest, 0) == (n, rest) <==> n < U64
  {
    VarintReadsBack(n, rest);
    WrappedIsModulo(n);
  }

  // ---------------------------------------------------------------- decoder

  /** The five numbers that open a window; None where the data ends among them. */
  function WindowOf(s: Bytes): (w: Option<(nat, nat, Bytes)>)
    ensures w.Some? && s != [] ==> |w.value.2| < |s|
    ensures w.Some? ==> |w.value.2| <= |s|
  {
    var s1 := ReadFrom(s, 0).1;
    if s1 == [] then None else
    var s2 := ReadFrom(s1, 0).1;
    if s2 == [] then None else
    var s3 := ReadFrom(s2, 0).1;
    if s3 == [] then None else
    var (instrLen, s4) := ReadFrom(s3, 0);
    if s4 == [] then None else
    var (newLen, s5) := ReadFrom(s4, 0);
    Some((instrLen, newLen, s5))
  }

  /** The first instruction: its operation, its length and what follows it. */
  function InstructionOf(s: Bytes): (r: (nat, nat, Bytes))
    requires s != []
    ensures |r.2| < |s|
  {
    var op, short := s[0] / 64, s[0] % 64;
    var (length, rest) := if short == 0 then ReadFrom(s[1..], 0) else (short, s[1..]);
    (op, length, if op <= 1 then ReadFrom(rest, 0).1 else rest)
  }

  /** What the instructions contribute, given the new data not yet used. */
  function Executed(ins: Bytes, newData: Bytes): Bytes
    decreases |ins|
  {
    if ins == [] then [] else
    var (op, length, rest) := InstructionOf(ins);
    if op != 2 then Executed(rest, newData)
    else if length <= |newData| then newData[..length] + Executed(rest, newData[length..])
    else Executed(rest, [])
  }

  /** What the windows contribute. */
  function WindowsDecoded(s: Bytes): Bytes
    decreases |s|
  {
    if s == [] then [] else
    match WindowOf(s)
    case None => []
    case Some((instrLen, newLen, rest)) =>
      Contribution(instrLen, newLen, rest) + WindowsDecoded(Remainder(instrLen + newLen, rest))
  }

  /** The target of a window whose numbers are followed by `rest`; a truncated one yields what new data there is. */
  function Contribution(instrLen: nat, newLen: nat, rest: Bytes): Bytes {
    if instrLen + newLen <= |rest| then Executed(rest[..instrLen], rest[instrLen..instrLen + newLen])
    else if instrLen < |rest| then rest[instrLen..]
    else []
  }

  function Decoded(data: Bytes): Bytes {
    if |data| < 4 || data[..3] != MAGIC then data else WindowsDecoded(data[4..])
  }

  const MAGIC: Bytes := [0x53, 0x56, 0x4E]    // SVN

  method ReadInstruction(ins: Bytes, pos: nat) returns (op: nat, length: nat, next: nat)
    requires pos < |ins|
    ensures pos < next <= |ins| && (op, length, ins[next..]) == InstructionOf(ins[pos..])
  {
    op, length, next := ins[pos] / 64, ins[pos] % 64, pos + 1;
    if length == 0 { length, next := ReadVarint(ins, next); }
    if op <= 1 {
      var _, p := ReadVarint(ins, next);
      next := p;
    }
  }

  function Unused(newData: Bytes, off: nat): Bytes {
    if off <= |newData| then newData[off..] else []
  }

  /** What an instruction copies out of the new data at `off`. */
  function Copied(newData: Bytes, off: nat, length: nat): Bytes {
    if off + length <= |newData| then newData[off..off + length] else []
  }

  lemma UnusedSplits(newData: Bytes, off: nat, length: nat)
    ensures var left := Unused(newData, off);
            if length <= |left|
            then left[..length] == Copied(newData, off, length) && left[length..] == Unused(newData, off + length)
            else Copied(newData, off, length) == [] && Unused(newData, off + length) == []
  {
  }

  lemma ExecutedStep(s: Bytes, newData: Bytes, off: nat, op: nat, length: nat, rest: Bytes)
    requires s != [] && InstructionOf(s) == (op, length, rest)
    ensures op == 2 ==>
              Executed(s, Unused(newData, off))
              == Copied(newData, off, length) + Executed(rest, Unused(newData, off + length))
    ensures op != 2 ==> Executed(s, Unused(newData, off)) == Executed(rest, Unused(newData, off))
  {
    UnusedSplits(newData, off, length);
  }

  /** With `out` written and `s` still to be executed the result is `all`. */
  predicate Leads(out: Bytes, s: Bytes, newData: Bytes, off: nat, all: Bytes) {
    out + Executed(s, Unused(newData, off)) == all
  }

  method AppendNewData(buf: Bytes, newData: Bytes, off: nat, length: nat) returns (out: Bytes)
    ensures out == buf + Copied(newData, off, length)
  {
    out := buf;
    if off + length <= |newData| { out := out + newData[off..off + length]; }
  }

  lemma ExecutionStep(
    out: Bytes, s: Bytes, newData: Bytes, off: nat, op: nat, length: nat, rest: Bytes, all: Bytes)
    requires s != [] && InstructionOf(s) == (op, length, rest)
    requires Leads(out, s, newData, off, all)
    ensures if op == 2 then Leads(out + Copied(newData, off, length), rest, newData, off + length, all)
            else Leads(out, rest, newData, off, all)
  {
    ExecutedStep(s, newData, off, op, length, rest);
    Reassociate(out, Copied(newData, off, length), Executed(rest, Unused(newData, off + length)));
  }

  method ExecuteInstructions(ins: Bytes, newData: Bytes) returns (out: Bytes)
    ensures out == Executed(ins, newData)
  {
    out := [];
    var pos, off: nat := 0, 0;
    ghost var all := Executed(ins, newData);
    assert ins[pos..] == ins && Unused(newData, off) == newData && [] + all == all;
    while pos < |ins|
      invariant pos <= |ins| && Leads(out, ins[pos..], newData, off, all)
      decreases |ins| - pos
    {
      var op, length, next := ReadInstruction(ins, pos);
      ExecutionStep(out, ins[pos..], newData, off, op, length, ins[next..], all);
      if op == 2 {
        out := AppendNewData(out, newData, off, length);
        off := off + length;
      }
      pos := next;
    }
  }

  /** Where a window's instructions start, where its new data starts and where that ends. */
  datatype Extent = Extent(instrStart: nat, newStart: nat, newEnd: nat)

  /** The window at the front of `s`, a suffix of `data`. */
  predicate Spans(data: Bytes, s: Bytes, e: Extent) {
    && e.instrStart <= |data| && e.instrStart <= e.newStart <= e.newEnd
    && WindowOf(s) == Some((e.newStart - e.instrStart, e.newEnd - e.newStart, data[e.instrStart..]))
  }

  method ReadWindow(data: Bytes, pos: nat) returns (w: Option<Extent>)
    requires pos <= |data|
    ensures w.None? ==> WindowOf(data[pos..]) == None
    ensures w.Some? ==> Spans(data, data[pos..], w.value) && (pos < |data| ==> pos < w.value.instrStart)
  {
    var _, p1 := ReadVarint(data, pos);
    if p1 >= |data| { return None; }
    var _, p2 := ReadVarint(data, p1);
    if p2 >= |data| { return None; }
    var _, p3 := ReadVarint(data, p2);
    if p3 >= |data| { return None; }
    var instrLen, p4 := ReadVarint(data, p3);
    if p4 >= |data| { return None; }
    var newLen, p5 := ReadVarint(data, p4);
    w := Some(Extent(p5, p5 + instrLen, p5 + instrLen + newLen));
  }

  lemma ContributionAt(data: Bytes, start: nat, mid: nat, end: nat)
    requires start <= |data| && start <= mid <= end
    ensures Contribution(mid - start, end - mid, data[start..])
         == if end > |data| then (if mid < |data| then data[mid..] else [])
            else Executed(data[start..mid], data[mid..end])
    ensures Remainder(end - start, data[start..]) == if end > |data| then [] else data[end..]
  {
    var left := data[start..];
    if end <= |data| {
      assert left[..mid - start] == data[start..mid];
      assert left[mid - start..end - start] == data[mid..end];
    }
  }

  lemma DecodedAs(s: Bytes, instrLen: nat, newLen: nat, rest: Bytes)
    requires s != [] && WindowOf(s) == Some((instrLen, newLen, rest))
    ensures WindowsDecoded(s)
         == Contribution(instrLen, newLen, rest) + WindowsDecoded(Remainder(instrLen + newLen, rest))
  {
  }

  lemma NoWindow(s: Bytes)
    requires WindowOf(s) == None
    ensures WindowsDecoded(s) == []
  {
  }

  /** What the windows from `s` on contribute, given where the first one lies. */
  lemma WindowStep(data: Bytes, s: Bytes, e: Extent)
    requires s != [] && Spans(data, s, e)
    ensures e.newEnd > |data| ==> WindowsDecoded(s) == if e.newStart < |data| then data[e.newStart..] else []
    ensures e.newEnd <= |data| ==>
              WindowsDecoded(s)
              == Executed(data[e.instrStart..e.newStart], data[e.newStart..e.newEnd]) + WindowsDecoded(data[e.newEnd..])
  {
    DecodedAs(s, e.newStart - e.instrStart, e.newEnd - e.newStart, data[e.instrStart..]);
    ContributionAt(data, e.instrStart, e.newStart, e.newEnd);
    if e.newEnd > |data| { Reassociate(if e.newStart < |data| then data[e.newStart..] else [], [], []); }
  }

  /** decode_svndiff; every turn of the loop moves on. */
  method DecodeSvndiff(data: Bytes) returns (result: Bytes)
    ensures result == Decoded(data)
  {
    if |data| < 4 || data[..3] != MAGIC { return data; }
    var pos := 4;
    result := [];
    ghost var all := WindowsDecoded(data[4..]);
    assert all == [] + all;
    while pos < |data|
      invariant pos <= |data| && all == result + WindowsDecoded(data[pos..])
      decreases |data| - pos
    {
      var window := ReadWindow(data, pos);
      if window.None? {
        NoWindow(data[pos..]);
        Reassociate(result, [], []);
        return;
      }
      var w := window.value;
      WindowStep(data, data[pos..], w);
      if w.newEnd > |data| {
        if w.newStart < |data| { result := result + data[w.newStart..]; }
        return;
      }
      var target := ExecuteInstructions(data[w.instrStart..w.newStart], data[w.newStart..w.newEnd]);
      Reassociate(result, target, WindowsDecoded(data[w.newEnd..]));
      result := result + target;
      pos := w.newEnd;
    }
    Reassociate(result, [], []);
  }

  // ------------------------------------- the format the decoder is written for

  /** Instructions of svndiff version 0. */
  datatype Instr =
    | FromSource(length: nat, offset: nat)
    | FromTarget(length: nat, offset: nat)
    | NewData(data: Bytes)

  datatype Window = Window(sourceOffset: nat, sourceLength: nat, instrs: seq<Instr>)

  function Length(i: Instr): nat {
    match i
    case FromSource(length, _) => length
    case FromTarget(length, _) => length
    case NewData(data) => |data|
  }

  function Opcode(op: nat, length: nat): (r: Bytes)
    requires op < 3
    ensures |r| > 0 && r[0] / 64 == op && r[0] % 64 == if length < 64 then length else 0
  {
    if 0 < length < 64 then [op * 64 + length] else [op * 64] + Varint(length)
  }

  function EncodedInstr(i: Instr): (r: Bytes)
    ensures |r| > 0
  {
    match i
    case FromSource(length, offset) => Opcode(0, length) + Varint(offset)
    case FromTarget(length, offset) => Opcode(1, length) + Varint(offset)
    case NewData(data) => Opcode(2, |data|)
  }

  function EncodedInstrs(code: seq<Instr>): Bytes {
    if code == [] then [] else EncodedInstr(code[0]) + EncodedInstrs(code[1..])
  }

  /** What an instruction takes from the new data. */
  function PieceOf(i: Instr): Bytes {
    if i.NewData? then i.data else []
  }

  function NewDataOf(code: seq<Instr>): Bytes {
    if code == [] then [] else PieceOf(code[0]) + NewDataOf(code[1..])
  }

  function TotalLength(code: seq<Instr>): nat {
    if code == [] then 0 else Length(code[0]) + TotalLength(code[1..])
  }

  /** The five numbers that open a window, in front of `body`. */
  function Headed(a: nat, b: nat, c: nat, d: nat, e: nat, body: Bytes): (r: Bytes)
    ensures |r| > |body|
  {
    Varint(a) + (Varint(b) + (Varint(c) + (Varint(d) + (Varint(e) + body))))
  }

  function EncodedWindow(w: Window, rest: Bytes): (r: Bytes)
    ensures |r| > |EncodedInstrs(w.instrs)| + |NewDataOf(w.instrs)| + |rest|
  {
    var ins, newData := EncodedInstrs(w.instrs), NewDataOf(w.instrs);
    Headed(w.sourceOffset, w.sourceLength, TotalLength(w.instrs), |ins|, |newData|, ins + newData + rest)
  }

  function EncodedWindows(ws: seq<Window>): Bytes {
    if ws == [] then [] else EncodedWindow(ws[0], EncodedWindows(ws[1..]))
  }

  function Encoded(ws: seq<Window>): Bytes {
    MAGIC + [0] + EncodedWindows(ws)
  }

  function NewDataOfAll(ws: seq<Window>): Bytes {
    if ws == [] then [] else NewDataOf(ws[0].instrs) + NewDataOfAll(ws[1..])
  }

  lemma InstructionReadsBack(i: Instr, rest: Bytes)
    requires i.NewData? ==> |i.data| < U64
    ensures InstructionOf(EncodedInstr(i) + rest).2 == rest
    ensures InstructionOf(EncodedInstr(i) + rest).0 == 2 <==> i.NewData?
    ensures i.NewData? ==> InstructionOf(EncodedInstr(i) + rest).1 == |i.data|
  {
    match i
    case FromSource(length, offset) => CopyReadsBack(0, length, offset, rest);
    case FromTarget(length, offset) => CopyReadsBack(1, length, offset, rest);
    case NewData(data) => OpcodeReadsBack(2, |data|, rest);
  }

  /** An opcode with its length, short or long. */
  lemma OpcodeReadsBack(op: nat, length: nat, rest: Bytes)
    requires op < 3
    ensures var s := Opcode(op, length) + rest;
            && s[0] / 64 == op
            && (if s[0] % 64 == 0 then ReadFrom(s[1..], 0) else (s[0] % 64, s[1..])) == (Wrapped(length), rest)
  {
    var s := Opcode(op, length) + rest;
    if 0 < length < 64 {
      assert s[1..] == rest;
    } else {
      assert s[1..] == Varint(length) + rest;
      VarintReadsBack(length, rest);
    }
  }

  lemma CopyReadsBack(op: nat, length: nat, offset: nat, rest: Bytes)
    requires op <= 1
    ensures InstructionOf(Opcode(op, length) + Varint(offset) + rest).0 == op
    ensures InstructionOf(Opcode(op, length) + Varint(offset) + rest).2 == rest
  {
    assert Opcode(op, length) + Varint(offset) + rest == Opcode(op, length) + (Varint(offset) + rest);
    OpcodeReadsBack(op, length, Varint(offset) + rest);
    VarintReadsBack(offset, rest);
  }

  lemma InstructionExecutes(i: Instr, rest: Bytes, newData: Bytes)
    requires |PieceOf(i) + newData| < U64
    ensures Executed(EncodedInstr(i) + rest, PieceOf(i) + newData) == PieceOf(i) + Executed(rest, newData)
  {
    InstructionReadsBack(i, rest);
    assert (PieceOf(i) + newData)[|PieceOf(i)|..] == newData;
  }

  lemma {:induction false} InstructionsExecute(code: seq<Instr>)
    requires |NewDataOf(code)| < U64
    ensures Executed(EncodedInstrs(code), NewDataOf(code)) == NewDataOf(code)
  {
    if code != [] {
      InstructionsExecute(code[1..]);
      InstructionExecutes(code[0], EncodedInstrs(code[1..]), NewDataOf(code[1..]));
    }
  }

  lemma HeadReadsBack(a: nat, b: nat, c: nat, d: nat, e: nat, body: Bytes)
    requires d < U64 && e < U64
    ensures WindowOf(Headed(a, b, c, d, e, body)) == Some((d, e, body))
  {
    var s5 := Varint(e) + body;
    var s4 := Varint(d) + s5;
    var s3 := Varint(c) + s4;
    var s2 := Varint(b) + s3;
    VarintReadsBack(a, s2);
    VarintReadsBack(b, s3);
    VarintReadsBack(c, s4);
    VarintReadsBack(d, s5);
    VarintReadsBack(e, body);
  }

  lemma WindowReadsBack(w: Window, rest: Bytes)
    requires |EncodedWindow(w, rest)| < U64
    ensures var ins, newData := EncodedInstrs(w.instrs), NewDataOf(w.instrs);
            WindowOf(EncodedWindow(w, rest)) == Some((|ins|, |newData|, ins + newData + rest))
  {
    var ins, newData := EncodedInstrs(w.instrs), NewDataOf(w.instrs);
    HeadReadsBack(w.sourceOffset, w.sourceLength, TotalLength(w.instrs), |ins|, |newData|, ins + newData + rest);
  }

  lemma BodyDecodes(s: Bytes, ins: Bytes, newData: Bytes, rest: Bytes)
    requires s != [] && WindowOf(s) == Some((|ins|, |newData|, ins + newData + rest))
    ensures WindowsDecoded(s) == Executed(ins, newData) + WindowsDecoded(rest)
  {
    var body := ins + newData + rest;
    assert body[..|ins|] == ins && body[|ins|..|ins| + |newData|] == newData && body[|ins| + |newData|..] == rest;
  }

  lemma WindowDecodes(w: Window, rest: Bytes)
    requires |EncodedWindow(w, rest)| < U64
    ensures WindowsDecoded(EncodedWindow(w, rest)) == NewDataOf(w.instrs) + WindowsDecoded(rest)
  {
    WindowReadsBack(w, rest);
    BodyDecodes(EncodedWindow(w, rest), EncodedInstrs(w.instrs), NewDataOf(w.instrs), rest);
    InstructionsExecute(w.instrs);
  }

  lemma {:induction false} WindowsDecode(ws: seq<Window>)
    requires |EncodedWindows(ws)| < U64
    ensures WindowsDecoded(EncodedWindows(ws)) == NewDataOfAll(ws)
  {
    if ws != [] {
      var rest := EncodedWindows(ws[1..]);
      WindowsDecode(ws[1..]);
      WindowDecodes(ws[0], rest);
    }
  }

  // ------------------------------------------------------ what a stream means

  /** Copies `length` bytes of the output onto its own end; the ranges may overlap. */
  function SelfCopied(out: Bytes, length: nat, offset: nat): Bytes
    requires offset < |out|
    decreases length
  {
    if length == 0 then out else SelfCopied(out + [out[offset]], length - 1, offset + 1)
  }

  /** An instruction that stays inside its source view and the target so far. */
  predicate Possible(i: Instr, view: Bytes, out: Bytes) {
    match i
    case FromSource(length, offset) => offset + length <= |view|
    case FromTarget(_, offset) => offset < |out|
    case NewData(_) => true
  }

  /** The target of one window; None if an instruction is out of range. */
  function Target(code: seq<Instr>, view: Bytes, out: Bytes): Option<Bytes> {
    if code == [] then Some(out)
    else if !Possible(code[0], view, out) then None
    else Target(code[1..], view, Extended(code[0], view, out))
  }

  /** What one instruction makes of the text so far. */
  function Extended(i: Instr, view: Bytes, out: Bytes): Bytes
    requires Possible(i, view, out)
  {
    match i
    case FromSource(length, offset) => out + view[offset..offset + length]
    case FromTarget(length, offset) => SelfCopied(out, length, offset)
    case NewData(data) => out + data
  }

  /** The text a stream makes out of `base`. */
  function Text(ws: seq<Window>, base: Bytes): Option<Bytes> {
    if ws == [] then Some([])
    else if ws[0].sourceOffset + ws[0].sourceLength > |base| then None
    else
      var w := ws[0];
      match Target(w.instrs, base[w.sourceOffset..w.sourceOffset + w.sourceLength], [])
      case None => None
      case Some(t) =>
        match Text(ws[1..], base)
        case None => None
        case Some(rest) => Some(t + rest)
  }

  predicate CopiesNothing(code: seq<Instr>) {
    forall i :: 0 <= i < |code| ==> code[i].NewData? || Length(code[i]) == 0
  }

  lemma {:induction false} SelfCopiedLength(out: Bytes, length: nat, offset: nat)
    requires offset < |out|
    ensures |SelfCopied(out, length, offset)| == |out| + length
    decreases length
  {
    if length > 0 { SelfCopiedLength(out + [out[offset]], length - 1, offset + 1); }
  }

  lemma ExtendedAgainstPiece(i: Instr, view: Bytes, out: Bytes)
    requires Possible(i, view, out)
    ensures i.NewData? || Length(i) == 0 ==> Extended(i, view, out) == out + PieceOf(i)
    ensures !i.NewData? ==> PieceOf(i) == [] && |Extended(i, view, out)| == |out| + Length(i)
  {
    if i.FromTarget? { SelfCopiedLength(out, i.length, i.offset); }
  }

  lemma CopiesNothingSplits(code: seq<Instr>)
    requires code != []
    ensures CopiesNothing(code) <==> (code[0].NewData? || Length(code[0]) == 0) && CopiesNothing(code[1..])
  {
    assert code == [code[0]] + code[1..];
  }

  lemma {:induction false} TargetAgainstNewData(code: seq<Instr>, view: Bytes, out: Bytes)
    requires Target(code, view, out).Some?
    ensures CopiesNothing(code) ==> Target(code, view, out).value == out + NewDataOf(code)
    ensures |Target(code, view, out).value| >= |out| + |NewDataOf(code)|
    ensures !CopiesNothing(code) ==> |Target(code, view, out).value| > |out| + |NewDataOf(code)|
    decreases |code|
  {
    if code != [] {
      ExtendedAgainstPiece(code[0], view, out);
      CopiesNothingSplits(code);
      TargetAgainstNewData(code[1..], view, Extended(code[0], view, out));
      Reassociate(out, PieceOf(code[0]), NewDataOf(code[1..]));
    }
  }

  lemma {:induction false} TextAgainstNewData(ws: seq<Window>, base: Bytes)
    requires Text(ws, base).Some?
    ensures |Text(ws, base).value| >= |NewDataOfAll(ws)|
    ensures Text(ws, base).value == NewDataOfAll(ws) <==> forall k :: 0 <= k < |ws| ==> CopiesNothing(ws[k].instrs)
    ensures |Text(ws, base).value| == |NewDataOfAll(ws)| ==> Text(ws, base).value == NewDataOfAll(ws)
  {
    if ws != [] {
      var w := ws[0];
      var view := base[w.sourceOffset..w.sourceOffset + w.sourceLength];
      TargetAgainstNewData(w.instrs, view, []);
      TextAgainstNewData(ws[1..], base);
      assert ws == [w] + ws[1..];
      BothAgainst(Target(w.instrs, view, []).value, NewDataOf(w.instrs), Text(ws[1..], base).value,
        NewDataOfAll(ws[1..]));
    }
  }

  /** A text at least as long as the data in it, and equal to it if not longer. */
  predicate Against(text: Bytes, data: Bytes) {
    |text| >= |data| && (|text| == |data| ==> text == data)
  }

  lemma BothAgainst(text: Bytes, data: Bytes, text': Bytes, data': Bytes)
    requires Against(text, data) && Against(text', data')
    ensures Against(text + text', data + data')
    ensures text + text' == data + data' <==> text == data && text' == data'
  {
    if text + text' == data + data' { assert |text| + |text'| == |data| + |data'|; }
  }

  /**
   * The decoder keeps the new data of every window of a version 0 stream and skips the
   * copies. So it returns the text that was sent exactly when no instruction copies.
   */
  lemma DecodesTextIffNothingCopied(ws: seq<Window>, base: Bytes)
    requires |Encoded(ws)| < U64 && Text(ws, base).Some?
    ensures Decoded(Encoded(ws)) == NewDataOfAll(ws)
    ensures Decoded(Encoded(ws)) == Text(ws, base).value
            <==> forall k :: 0 <= k < |ws| ==> CopiesNothing(ws[k].instrs)
  {
    var data := Encoded(ws);
    assert data[..3] == MAGIC && data[4..] == EncodedWindows(ws);
    WindowsDecode(ws);
    TextAgainstNewData(ws, base);
  }

  /** A copied byte is lost. */
  lemma CopiesAreLost()
    ensures var ws := [Window(0, 1, [FromSource(1, 0)])];
            Text(ws, [7]) == Some([7]) && Decoded(Encoded(ws)) == []
  {
    var base: Bytes, code := [7], [FromSource(1, 0)];
    var ws := [Window(0, 1, code)];
    assert code[1..] == [] && ws[1..] == [];
    assert Text(ws, base) == Some(base) by {
      assert base[0..0 + 1] == base && [] + base == base && base + [] == base;
      assert Target(code, base, []) == Target(code[1..], base, base) == Some(base);
      assert Text(ws[1..], base) == Some([]);
    }
    assert NewDataOfAll(ws) == [];
    assert |Encoded(ws)| < U64 by {
      assert |Varint(0)| == 1 && |Varint(1)| == 1 && |Varint(2)| == 1;
      assert |EncodedInstrs(code)| == 2 && |EncodedWindows(ws[1..])| == 0 && |EncodedWindow(ws[0], [])| == 7;
    }
    DecodesTextIffNothingCopied(ws, base);
  }
}
