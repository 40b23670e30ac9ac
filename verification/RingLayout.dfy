/** Where things lie in the ring's file, byte by byte, and how long the file is. */
module RingLayout {
  import opened Bytes
  import opened Frames
  import opened Ring
  import opened RingProofs
  import RingPop

  lemma {:induction false} BytesOfValue(s: seq<byte>)
    ensures LittleEndian(Value(s), |s|) == s
  {
    if s != [] {
      var low, high := s[0] as nat, Value(s[1..]);
      BytesOfValue(s[1..]);
      assert Value(s) % 256 == low && Value(s) / 256 == high;
      assert s == [s[0]] + s[1..];
    }
  }

  lemma {:induction false} ValueOfFour(s: seq<byte>)
    requires |s| >= 4
    ensures Value(s) == s[0] as nat + 0x100 * s[1] as nat + 0x1_0000 * s[2] as nat + 0x100_0000 * s[3] as nat
                        + 0x1_0000_0000 * Value(s[4..])
  {
    ValueStep(s, 0);
    ValueStep(s, 1);
    ValueStep(s, 2);
    ValueStep(s, 3);
    assert s[0..] == s;
  }

  lemma {:induction false} ValueStep(s: seq<byte>, k: nat)
    requires k < |s|
    ensures Value(s[k..]) == s[k] as nat + 0x100 * Value(s[k + 1..])
  {
    assert s[k..][1..] == s[k + 1..];
  }

  /** A word is eight bytes, the low byte first. */
  lemma {:induction false} LowBytesFirst(s: seq<byte>)
    requires |s| == 8
    ensures s == Word(s[0] as nat + 0x100 * s[1] as nat + 0x1_0000 * s[2] as nat + 0x100_0000 * s[3] as nat
                      + 0x1_0000_0000 * s[4] as nat + 0x100_0000_0000 * s[5] as nat
                      + 0x1_0000_0000_0000 * s[6] as nat + 0x100_0000_0000_0000 * s[7] as nat)
  {
    BytesOfValue(s);
    ValueOfFour(s);
    ValueOfFour(s[4..]);
    assert s[4..][4..] == [];
  }

  /** The header of a well-formed file: oldest record, end of the newest, mark, count, limit, in eight bytes each; then
      the records, each behind its length. */
  lemma {:induction false} HeaderLayout(r: State)
    requires Valid(r)
    ensures r.file[0..8] == Word(r.head) && r.file[8..16] == Word(r.next) && r.file[16..24] == Word(r.noman)
    ensures r.file[24..32] == Word(r.count) && r.file[32..40] == Word(r.limit)
  {
    var m := r.file[..META];
    FiveWords(Word(r.head), Word(r.next), Word(r.noman), Word(r.count), Word(r.limit));
    assert r.file[0..8] == m[0..8] && r.file[8..16] == m[8..16] && r.file[16..24] == m[16..24];
    assert r.file[24..32] == m[24..32] && r.file[32..40] == m[32..40];
  }

  lemma {:induction false} HeadAt(file: seq<byte>, lo: nat, hi: nat, q: seq<Record>)
    requires lo <= hi <= |file| && q != [] && file[lo..hi] == Flat(q)
    ensures lo + WORD + |q[0]| <= hi
    ensures file[lo..lo + WORD] == Word(|q[0]|) && file[lo + WORD..lo + WORD + |q[0]|] == q[0]
  {
    var s := file[lo..hi];
    assert s == Word(|q[0]|) + q[0] + Flat(q[1..]);
    assert file[lo..lo + WORD] == s[..WORD] && file[lo + WORD..lo + WORD + |q[0]|] == s[WORD..WORD + |q[0]|];
  }

  lemma {:induction false} OldestOf(r: State, older: seq<Record>, newer: seq<Record>)
    requires Shape(r, older, newer) && r.count > 0 && older != []
    ensures r.head + 8 + |older[0]| <= |r.file| && r.file[r.head..r.head + 8] == Word(|older[0]|)
    ensures r.file[r.head + 8..r.head + 8 + |older[0]|] == older[0]
  {
    HeadAt(r.file, r.head, if r.head < r.next then r.next else r.noman, older);
  }

  /** The oldest record of a well-formed file stands at `head`, behind its length. */
  lemma {:induction false} OldestAt(r: State)
    requires Valid(r) && r.count > 0
    ensures Contents(r) != []
    ensures var x := Contents(r)[0];
            && r.head + 8 + |x| <= |r.file|
            && r.file[r.head..r.head + 8] == Word(|x|) && r.file[r.head + 8..r.head + 8 + |x|] == x
  {
    var older, newer := Older(r), Newer(r);
    RingPop.OldestRecord(r, older, newer);
    OldestOf(r, older, newer);
    assert Contents(r)[0] == older[0];
  }

  /** The count is a `size_t`: it wraps below zero, and a later increment brings it back. */
  lemma {:induction false} CountWraps(count: nat)
    requires count < SIZE_T_LIMIT
    ensures Increment(Decrement(count)) == count && Decrement(Increment(count)) == count
    ensures count > 0 ==> Decrement(count) == count - 1
    ensures count == 0 ==> Decrement(count) == 0xFFFF_FFFF_FFFF_FFFF
  {}

  // ---- how long the file is ----

  /** A first record cuts the file behind itself, if the file can be cut. */
  lemma {:induction false} FirstPutSize(r: State, b: Record, shrink: bool)
    requires r.count == 0 && !Refused(r.limit, |b|)
    ensures var t := Put(r, b, shrink);
            |t.file| == if shrink then 40 + 8 + |b| else Max(|r.file|, 40 + 8 + |b|)
  {}

  /** Every other put only lets it grow, and no further than its own record. */
  lemma {:induction false} LaterPutSize(r: State, b: Record, shrink: bool)
    requires Valid(r) && r.count > 0
    ensures var t := Put(r, b, shrink);
            |r.file| <= |t.file| && (|t.file| > |r.file| ==> t.next == |t.file|)
  {
    if !Refused(r.limit, |b|) { PutNext(r, b, shrink); }
  }

  lemma {:induction false} BehindSize(r: State, m: State, b: Record)
    requires m == MakeRoom(r, WORD + |b|) && META <= r.next && META <= |r.file|
    ensures var t := Stamp(PutBehind(r, b));
            |t.file| == Max(|r.file|, t.next)
  {
    assert m.file == r.file;
  }

  lemma {:induction false} WrapSize(r: State, b: Record)
    requires META <= |r.file|
    ensures var t := Stamp(PutWrap(r, b));
            |t.file| == Max(|r.file|, t.next)
  {}

  lemma {:induction false} PutNext(r: State, b: Record, shrink: bool)
    requires Valid(r) && r.count > 0 && !Refused(r.limit, |b|)
    ensures var t := Put(r, b, shrink);
            |t.file| == Max(|r.file|, t.next)
  {
    BehindSize(r, MakeRoom(r, WORD + |b|), b);
    WrapSize(r, b);
  }

  /** The pop that takes the last record cuts the file down to its header, if it can be cut; no other pop changes
      its length. */
  lemma {:induction false} PopSize(r: State, shrink: bool)
    requires Valid(r)
    ensures var t := Pop(r, shrink);
            && |t.file| == (if r.count == 1 && shrink then 40 else |r.file|)
            && (r.count == 1 ==> t.head == t.next == t.noman == 40 && t.count == 0)
  {}
}
