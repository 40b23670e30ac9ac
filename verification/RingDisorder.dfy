/** After the branch at lines 164-171 a record that was given up comes back behind a newer one. */
module RingDisorder {
  import opened Bytes
  import opened Frames
  import opened Ring
  import opened RingProofs
  import opened RingPop
  import opened RingFifo
  import opened RingFaults

  /** Two records of one size at the start of the data, and the words as five puts leave them. */
  ghost predicate Poised(r: State, d: Record, e: Record, size: nat) {
    && WORD + |d| == size && WORD + |e| == size && Storable([d, e])
    && META + 3 * size <= r.limit < META + 4 * size && r.limit < OFFSET_LIMIT
    && r.count == 3 && r.head == r.next == META + 2 * size && r.noman == META + 3 * size
    && META + 2 * size <= |r.file| && r.file[META..META + 2 * size] == Flat([d, e])
  }

  lemma {:induction false} NewestTwo(r: State, older: seq<Record>, newer: seq<Record>, q: seq<Record>, limit: nat,
                                     size: nat)
    requires Aligned(r, older, newer, size, 2, 2, 3) && r.count == 3 && r.limit == limit && RoomForThree(limit, size)
    requires |q| == 5 && older + newer == q[2..]
    requires r.head == r.next == META + 2 * size && r.noman == META + 3 * size
    ensures Poised(r, q[3], q[4], size)
  {
    AlignedCount(r, older, newer, size, 2, 2, 3);
    assert newer == q[2..][1..] == [q[3], q[4]];
    assert q[3] in newer && q[4] in newer;
  }

  lemma {:induction false} FilledIsPoised(q: seq<Record>, limit: nat, size: nat, shrink: bool)
    requires Fills(q, limit, size) && |q| == 5
    ensures Poised(Filled(q, limit, shrink), q[3], q[4], size)
  {
    var r := Filled(q, limit, shrink);
    FilledWords(q, limit, size, shrink);
    FilledContents(q, limit, size, shrink);
    SlotValues(size);
    NewestTwo(r, Older(r), Newer(r), q, limit, size);
  }

  lemma {:induction false} BothCut(d: Record, e: Record, size: nat, want: nat)
    requires WORD + |d| == size && WORD + |e| == size && size < want <= 2 * size
    ensures Size([d, e]) == 2 * size && Cut([d, e], 0, want) == 2 && CutSize([d, e], 0, want) == 2 * size
  {
    var one := [e];
    assert [d, e][1..] == one && one[1..] == [];
    assert Size(one) == size && Cut(one, size, want) == 1 && CutSize(one, size, want) == size;
  }

  /** The put gives up both, and everything behind the mark, and writes its record there. */
  lemma {:induction false} GivesUp(r: State, d: Record, e: Record, size: nat, n: Record)
    requires Poised(r, d, e, size) && r.limit - r.next < WORD + |n| <= 2 * size
    ensures var p := PutBehind(r, n);
            && p.head == r.next && p.next == p.noman == r.next + WORD + |n| && p.count == 2 && p.limit == r.limit
            && p.file == Place(r, r.next, n).file
  {
    var want, m := WORD + |n|, r.(head := META, noman := r.next);
    BothCut(d, e, size, want);
    FlatChain(r.file, META, r.next, [d, e]);
    EraseCuts(r.file, r.next, META, [d, e], 3, 0, want);
    PutBehindWords(r, n, EraseFrom(m, 0, want));
  }

  /** The file after that put: the record is found, and the two are still there below it. */
  ghost predicate Left(p: State, d: Record, e: Record, size: nat, n: Record) {
    && WORD + |d| == size && WORD + |e| == size && Storable([d, e]) && 1 <= |n| < 0x8000_0000
    && p.limit < p.next < p.limit + OFFSET_LIMIT && p.next < SIZE_T_LIMIT && p.count == 2
    && p.head == META + 2 * size && p.next == p.noman == p.head + WORD + |n| <= |p.file|
    && p.file[META..p.head] == Flat([d, e]) && p.file[p.head..p.next] == Frame(n)
  }

  lemma {:induction false} PutLeaves(r: State, d: Record, e: Record, size: nat, n: Record, shrink: bool)
    requires Poised(r, d, e, size) && 1 <= |n| < 0x8000_0000
    requires r.limit - r.next < WORD + |n| <= 2 * size
    ensures Left(Put(r, n, shrink), d, e, size, n)
  {
    var p, at := PutBehind(r, n), r.next;
    GivesUp(r, d, e, size, n);
    WriteAtKeeps(r.file, at, Frame(n), META, at);
    WriteAtKeeps(p.file, 0, Meta(p), META, at);
    WriteAtKeeps(p.file, 0, Meta(p), at, p.next);
    assert Put(r, n, shrink) == Stamp(p);
  }

  lemma {:induction false} NewestAlone(p: State, d: Record, e: Record, size: nat, n: Record)
    requires Left(p, d, e, size, n)
    ensures Contents(p) == [n]
  {
    SizeOfOne(n);
    assert p.file[p.head..p.next] == Flat([n]) && Storable([n]);
    ParseFlat([n]);
  }

  /** Right after that put nothing is out of order: its own record is all that the words and bytes stand for. */
  lemma {:induction false} TailPutLeavesOne(q: seq<Record>, n: Record, limit: nat, size: nat, shrink: bool)
    requires Fills(q, limit, size) && |q| == 5 && 1 <= |n| < 0x8000_0000
    requires limit - META - 2 * size < WORD + |n| <= 2 * size
    ensures Contents(Put(Filled(q, limit, shrink), n, shrink)) == [n]
  {
    var r := Filled(q, limit, shrink);
    FilledIsPoised(q, limit, size, shrink);
    FilledWords(q, limit, size, shrink);
    PutLeaves(r, q[3], q[4], size, n, shrink);
    NewestAlone(Put(r, n, shrink), q[3], q[4], size, n);
  }

  /** What is left when that record has been taken. */
  ghost predicate Beyond(t: State, d: Record, e: Record, size: nat) {
    && WORD + |d| == size && WORD + |e| == size && Storable([d, e])
    && t.limit < t.next < t.limit + OFFSET_LIMIT && t.count == 1 && t.head == t.next == t.noman
    && META + 2 * size <= t.next && META + 2 * size <= |t.file|
    && t.file[META..META + 2 * size] == Flat([d, e])
  }

  lemma {:induction false} NewerSeen(p: State, d: Record, e: Record, size: nat, n: Record)
    requires Left(p, d, e, size, n)
    ensures Peek(p) == Peeked(n) && ReadWord(p.file, p.head) == |n|
  {
    SizeOfOne(n);
    assert p.file[p.head..p.next] == Flat([n]) && Storable([n]);
    HeadRecord(p.file, p.head, p.next, [n]);
    PeekAt(p, n);
  }

  lemma {:induction false} PopToNext(p: State, len: nat, shrink: bool)
    requires p.count == 2 && ReadWord(p.file, p.head) == len < 0x8000_0000
    requires p.next == p.noman == p.head + WORD + len < SIZE_T_LIMIT
    ensures Pop(p, shrink) == Stamp(p.(head := p.next, count := 1))
  {
    ToIntMangles(len);
    assert PopTarget(p) == p.next;
  }

  lemma {:induction false} NewerComesFirst(p: State, d: Record, e: Record, size: nat, n: Record, shrink: bool)
    requires Left(p, d, e, size, n)
    ensures Peek(p) == Peeked(n) && Beyond(Pop(p, shrink), d, e, size)
  {
    NewerSeen(p, d, e, size, n);
    PopToNext(p, |n|, shrink);
    WriteAtKeeps(p.file, 0, Meta(p.(head := p.next, count := 1)), META, p.head);
  }

  lemma {:induction false} JumpWords(t: State, y: Record)
    requires t.limit < t.next < t.limit + OFFSET_LIMIT && t.head == t.next == t.noman && t.count == 1
    requires WORD + |y| < OFFSET_LIMIT
    ensures var v := PutBehind(t, y);
            v.head == META && v.count == 2 && v.next == t.next + WORD + |y| && v.file == Place(t, t.next, y).file
  {
    var m := t.(head := META);
    assert Sub(t.limit, t.next) == t.limit + SIZE_T_LIMIT - t.next;
    assert MakeRoom(t, WORD + |y|) == m;
    PutBehindWords(t, y, m);
  }

  lemma {:induction false} FirstSeen(s: State, d: Record, e: Record, hi: nat)
    requires s.head == META < s.next && META <= hi <= |s.file| && s.file[META..hi] == Flat([d, e]) && Storable([d, e])
    ensures Peek(s) == Peeked(d)
  {
    HeadRecord(s.file, META, hi, [d, e]);
    PeekAt(s, d);
  }

  /** `sizeLimit - next` wraps, so lines 153-160 are taken and the head goes back to the start of the data. */
  lemma {:induction false} OlderComesBack(t: State, d: Record, e: Record, size: nat, y: Record, shrink: bool)
    requires Beyond(t, d, e, size) && !Refused(t.limit, |y|) && WORD + |y| < OFFSET_LIMIT
    ensures var v := Put(t, y, shrink);
            v.head == META && v.count == 2 && Peek(v) == Peeked(d)
  {
    var v, hi := PutBehind(t, y), META + 2 * size;
    JumpWords(t, y);
    WriteAtKeeps(t.file, t.next, Frame(y), META, hi);
    WriteAtKeeps(v.file, 0, Meta(v), META, hi);
    FirstSeen(Stamp(v), d, e, hi);
    assert Put(t, y, shrink) == Stamp(v);
  }

  lemma {:induction false} PopLimit(r: State, shrink: bool)
    ensures Pop(r, shrink).limit == r.limit
  {}

  lemma {:induction false} FromPoised(r: State, p: State, t: State, d: Record, e: Record, size: nat, n: Record,
                                      y: Record, shrink: bool)
    requires Poised(r, d, e, size) && 1 <= |n| < 0x8000_0000 && r.limit - r.next < WORD + |n| <= 2 * size
    requires p == Put(r, n, shrink) && t == Pop(p, shrink) && !Refused(r.limit, |y|) && WORD + |y| < OFFSET_LIMIT
    ensures p.count == 2 && Peek(p) == Peeked(n) && t.count == 1
    ensures Put(t, y, shrink).count == 2 && Peek(Put(t, y, shrink)) == Peeked(d)
  {
    PutLeaves(r, d, e, size, n, shrink);
    NewerComesFirst(p, d, e, size, n, shrink);
    PutLimit(r, n, shrink);
    PopLimit(p, shrink);
    OlderComesBack(t, d, e, size, y, shrink);
  }

  /** Five puts of one size, a put that takes lines 164-171, a pop, a put: the newer record is found first and
      the older one after it. */
  lemma {:induction false} OrderIsLost(q: seq<Record>, n: Record, y: Record, limit: nat, size: nat, shrink: bool)
    requires Fills(q, limit, size) && |q| == 5 && 1 <= |n| < 0x8000_0000 && !Refused(limit, |y|)
    requires limit - META - 2 * size < WORD + |n| <= 2 * size
    ensures var p := Put(Filled(q, limit, shrink), n, shrink);
            var v := Put(Pop(p, shrink), y, shrink);
            && p.count == 2 && Peek(p) == Peeked(n) && Pop(p, shrink).count == 1
            && v.count == 2 && Peek(v) == Peeked(q[3])
  {
    var r := Filled(q, limit, shrink);
    FilledIsPoised(q, limit, size, shrink);
    FilledWords(q, limit, size, shrink);
    var p := Put(r, n, shrink);
    FromPoised(r, p, Pop(p, shrink), q[3], q[4], size, n, y, shrink);
  }
}
