// Fixed-width integers inside byte strings.
module ByteFields {
  import opened ObjectModel

  /** A 32-byte object id as it travels. */
  type RawId = id: Bytes | |id| == 32 witness seq(32, i => 0)

  /** The `width` low-order bytes of `n`, least significant first. */
  function LittleEndian(n: nat, width: nat): (r: Bytes)
    ensures |r| == width
  {
    if width == 0 then [] else [n % 256] + LittleEndian(n / 256, width - 1)
  }

  /** The `width` low-order bytes of `n`, most significant first. */
  function BigEndian(n: nat, width: nat): (r: Bytes)
    ensures |r| == width
  {
    if width == 0 then [] else BigEndian(n / 256, width - 1) + [n % 256]
  }

  function FromLittleEndian(s: Bytes): (n: nat)
    ensures n < Range(|s|)
  {
    if s == [] then 0 else s[0] + 256 * FromLittleEndian(s[1..])
  }

  function FromBigEndian(s: Bytes): (n: nat)
    ensures n < Range(|s|)
  {
    if s == [] then 0 else FromBigEndian(s[..|s| - 1]) * 256 + s[|s| - 1]
  }

  /** How many numbers fit into `width` bytes. */
  function Range(width: nat): nat {
    if width == 0 then 1 else 256 * Range(width - 1)
  }

  lemma WordRanges()
    ensures Range(4) == 0x1_0000_0000
    ensures Range(8) == 0x1_0000_0000_0000_0000
  {
    assert Range(2) == 0x1_0000 && Range(4) == 0x1_0000_0000 && Range(6) == 0x1_0000_0000_0000;
  }

  /** A field keeps exactly the numbers that fit. */
  lemma {:induction false} LittleEndianKeepsIff(n: nat, width: nat)
    ensures FromLittleEndian(LittleEndian(n, width)) == n <==> n < Range(width)
  {
    if width > 0 {
      LittleEndianKeepsIff(n / 256, width - 1);
      assert LittleEndian(n, width)[1..] == LittleEndian(n / 256, width - 1);
    }
  }

  lemma {:induction false} BigEndianKeepsIff(n: nat, width: nat)
    ensures FromBigEndian(BigEndian(n, width)) == n <==> n < Range(width)
  {
    if width > 0 {
      BigEndianKeepsIff(n / 256, width - 1);
      assert BigEndian(n, width)[..width - 1] == BigEndian(n / 256, width - 1);
    }
  }

  /** What is left after `n` bytes. */
  function Remainder(n: nat, s: Bytes): (r: Bytes)
    ensures |r| <= |s|
  {
    if n <= |s| then s[n..] else []
  }

  lemma Reassociate(a: Bytes, b: Bytes, c: Bytes)
    ensures a + (b + c) == a + b + c && a + [] == a
  {
  }
}
