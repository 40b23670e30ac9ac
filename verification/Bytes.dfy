/** Bytes, 8-byte little-endian `size_t` words and the file primitives built on them. */
module Bytes {

  newtype byte = x: int | 0 <= x < 256

  const WORD := 8
  const SIZE_T_LIMIT := 0x1_0000_0000_0000_0000
  /** Largest `long`: the bound `fseek` puts on every file offset. */
  const OFFSET_LIMIT := 0x8000_0000_0000_0000

  function Pow256(n: nat): (p: nat)
    ensures p > 0
  {
    if n == 0 then 1 else 256 * Pow256(n - 1)
  }

  function LittleEndian(v: nat, width: nat): (s: seq<byte>)
    ensures |s| == width
  {
    if width == 0 then [] else [(v % 256) as byte] + LittleEndian(v / 256, width - 1)
  }

  function Value(s: seq<byte>): nat {
    if s == [] then 0 else s[0] as nat + 256 * Value(s[1..])
  }

  lemma {:induction false} ValueOfLittleEndian(v: nat, width: nat)
    requires v < Pow256(width)
    ensures Value(LittleEndian(v, width)) == v
  {
    if width > 0 {
      ValueOfLittleEndian(v / 256, width - 1);
      assert LittleEndian(v, width)[1..] == LittleEndian(v / 256, width - 1);
    }
  }

  lemma {:induction false} Pow256Word()
    ensures Pow256(WORD) == SIZE_T_LIMIT
  {
    assert Pow256(2) == 0x1_0000;
    assert Pow256(4) == 256 * Pow256(3) == 0x1_0000_0000;
    assert Pow256(6) == 256 * Pow256(5) == 0x1_0000_0000_0000;
  }

  function Word(v: nat): (s: seq<byte>)
    ensures |s| == WORD
  {
    LittleEndian(v, WORD)
  }

  lemma {:induction false} WordRoundTrip(v: nat)
    requires v < SIZE_T_LIMIT
    ensures Value(Word(v)) == v
  {
    Pow256Word();
    ValueOfLittleEndian(v, WORD);
  }

  function Zeros(n: nat): (s: seq<byte>)
    ensures |s| == n
  {
    seq(n, _ => 0 as byte)
  }

  function Max(a: nat, b: nat): nat { if a < b then b else a }
  function Min(a: nat, b: nat): nat { if a < b then a else b }

  /** `fseek` then `fwrite`: a write past the end leaves a hole of zeros. */
  function WriteAt(file: seq<byte>, offset: nat, data: seq<byte>): (r: seq<byte>)
    ensures |r| == Max(|file|, offset + |data|)
    ensures r[offset..offset + |data|] == data
    ensures forall i :: 0 <= i < |file| && !(offset <= i < offset + |data|) ==> r[i] == file[i]
  {
    var padded := if |file| < offset then file + Zeros(offset - |file|) else file;
    padded[..offset] + data + padded[Min(offset + |data|, |padded|)..]
  }

  /** `fseek` then `fread` of one word into a zeroed variable; bytes past the end stay zero. */
  function ReadWord(file: seq<byte>, offset: nat): nat {
    if offset < |file| then Value(file[offset..Min(offset + WORD, |file|)]) else 0
  }

  /** `ftruncate` */
  function Truncate(file: seq<byte>, size: nat): (r: seq<byte>)
    ensures |r| == size
    ensures forall i :: 0 <= i < size && i < |file| ==> r[i] == file[i]
  {
    if size <= |file| then file[..size] else file + Zeros(size - |file|)
  }

  lemma {:induction false} WriteAtKeeps(file: seq<byte>, offset: nat, data: seq<byte>, lo: nat, hi: nat)
    requires lo <= hi <= |file|
    requires hi <= offset || offset + |data| <= lo
    ensures WriteAt(file, offset, data)[lo..hi] == file[lo..hi]
  {}

  lemma {:induction false} WriteAtTwice(file: seq<byte>, offset: nat, a: seq<byte>, b: seq<byte>)
    ensures WriteAt(WriteAt(file, offset, a), offset + |a|, b) == WriteAt(file, offset, a + b)
  {
    var once := WriteAt(file, offset, a);
    var twice := WriteAt(once, offset + |a|, b);
    var joined := WriteAt(file, offset, a + b);
    assert |twice| == |joined|;
    forall i | 0 <= i < |joined| ensures twice[i] == joined[i] {
      if offset <= i < offset + |a| {
        assert once[offset..offset + |a|][i - offset] == a[i - offset];
        assert joined[offset..offset + |a| + |b|][i - offset] == (a + b)[i - offset];
      } else if offset + |a| <= i < offset + |a| + |b| {
        assert twice[offset + |a|..offset + |a| + |b|][i - offset - |a|] == b[i - offset - |a|];
        assert joined[offset..offset + |a| + |b|][i - offset] == (a + b)[i - offset];
      }
    }
  }
}
