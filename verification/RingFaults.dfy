/** The calls that break the file, or miss a record, are reached from a new file by ordinary calls. */
module RingFaults {
  import opened Bytes
  import opened Frames
  import opened Ring
  import opened RingProofs
  import opened RingPut
  import opened RingPop
  import opened RingFifo

  /** The file has room for three records of this size and not for four. */
  predicate RoomForThree(limit: nat, size: nat) {
    && WORD < size < WORD + 0x8000_0000 && limit < OFFSET_LIMIT
    && META + 3 * size <= limit < META + 4 * size
  }

  ghost predicate At(r: State, limit: nat, size: nat, a: nat, b: nat, count: nat) {
    && Valid(r) && Aligned(r, Older(r), Newer(r), size, a, b, 3) && r.count == count && r.limit == limit
    && size < WORD + 0x8000_0000
  }

  lemma {:induction false} SlotValues(size: nat)
    ensures Slot(0, size) == META && Slot(1, size) == META + size && Slot(2, size) == META + 2 * size
    ensures Slot(3, size) == META + 3 * size && Slot(4, size) == META + 4 * size
  {
    assert Slot(2, size) == Slot(1, size) + size;
    assert Slot(4, size) == Slot(3, size) + size;
  }

  lemma {:induction false} AtWords(r: State, limit: nat, size: nat, a: nat, b: nat, count: nat)
    requires At(r, limit, size, a, b, count)
    ensures Valid(r) && r.count == count && r.limit == limit
    ensures count > 0 ==> r.head == Slot(a, size) && r.next == Slot(b, size) && (r.next <= r.head <==> b <= a)
    ensures count > 0 && b <= a ==> r.noman == Slot(3, size)
  {
    SlotStep(b, a, size);
    SlotStep(a, b, size);
  }

  /** A file on slots that `put` will find full behind the newest record and too short before the oldest. */
  lemma {:induction false} TailUnsafe(r: State, size: nat, len: nat)
    requires r.count > 0 && r.next <= r.head && r.next == META + 2 * size && size > WORD
    requires META + 3 * size <= r.limit && r.limit - META - 2 * size < WORD + len <= 2 * size
    ensures !Refused(r.limit, len) && !PutSafe(r, len)
  {}

  lemma {:induction false} FifoPutLength(q: seq<Record>, x: Record)
    requires |q| <= 3
    ensures |FifoPut(q, x, 3)| == if |q| == 3 then 3 else |q| + 1
  {}

  lemma {:induction false} PutAt(r: State, limit: nat, size: nat, x: Record, a: nat, b: nat, count: nat,
                                 a': nat, b': nat, shrink: bool)
    requires At(r, limit, size, a, b, count) && WORD + |x| == size && count <= 3
    requires a' == HeadAfterPut(r, a, b, 3) && b' == NextAfterPut(r, b, 3)
    ensures At(Put(r, x, shrink), limit, size, a', b', if count == 3 then 3 else count + 1)
  {
    AlignedPut(r, size, a, b, 3, x, shrink);
    PutLimit(r, x, shrink);
    CountBound(r);
    CountBound(Put(r, x, shrink));
    FifoPutLength(Contents(r), x);
  }

  lemma {:induction false} PopAt(r: State, limit: nat, size: nat, a: nat, b: nat, count: nat, shrink: bool)
    requires At(r, limit, size, a, b, count) && count > 1
    ensures At(Pop(r, shrink), limit, size, if r.next <= r.head && a + 1 == 3 then 0 else a + 1, b, count - 1)
    ensures Pop(r, shrink).noman == r.noman
  {
    AlignedPopSafe(r, size, a, b, 3);
    AlignedPop(r, size, a, b, 3, shrink);
    AlignedPopSlots(r, Older(r), Newer(r), size, a, b, 3, shrink);
    var t := Pop(r, shrink);
    assert t.count == count - 1;
  }

  /** A new file with these records put into it one after the other. */
  function Filled(q: seq<Record>, limit: nat, shrink: bool): State
    decreases |q|
  {
    if q == [] then Open([], false, limit)
    else Put(Filled(q[..|q| - 1], limit, shrink), q[|q| - 1], shrink)
  }

  lemma {:induction false} FilledMore(q: seq<Record>, x: Record, limit: nat, shrink: bool)
    ensures Filled(q + [x], limit, shrink) == Put(Filled(q, limit, shrink), x, shrink)
  {
    assert (q + [x])[..|q + [x]| - 1] == q;
  }

  /** Records of one size that a file with room for three can take. */
  ghost predicate Fills(q: seq<Record>, limit: nat, size: nat) {
    RoomForThree(limit, size) && OfSize(q, size)
  }

  lemma {:induction false} NewIsAt(limit: nat, size: nat)
    requires RoomForThree(limit, size)
    ensures At(Open([], false, limit), limit, size, 0, 0, 0)
  {
    SlotValues(size);
    FreshFileIsEmpty(limit);
  }

  /** Where the head and `next` stand, and how many records there are, after the first `n` puts. */
  function HeadAfter(n: nat): nat { if n <= 3 then 0 else n - 3 }
  function NextAfter(n: nat): nat { if n <= 3 then n else n - 3 }
  function CountAfter(n: nat): nat { if n <= 3 then n else 3 }

  lemma {:induction false} PutMoves(r: State, limit: nat, size: nat, n: nat, x: Record, shrink: bool)
    requires At(r, limit, size, HeadAfter(n), NextAfter(n), CountAfter(n)) && n < 5 && WORD + |x| == size
    ensures At(Put(r, x, shrink), limit, size, HeadAfter(n + 1), NextAfter(n + 1), CountAfter(n + 1))
  {
    AtWords(r, limit, size, HeadAfter(n), NextAfter(n), CountAfter(n));
    PutAt(r, limit, size, x, HeadAfter(n), NextAfter(n), CountAfter(n), HeadAfter(n + 1), NextAfter(n + 1), shrink);
  }

  lemma {:induction false} FilledAt(q: seq<Record>, limit: nat, size: nat, shrink: bool)
    requires Fills(q, limit, size) && |q| <= 5
    ensures At(Filled(q, limit, shrink), limit, size, HeadAfter(|q|), NextAfter(|q|), CountAfter(|q|))
    decreases |q|
  {
    if q == [] {
      NewIsAt(limit, size);
    } else {
      var n := |q| - 1;
      assert q[n] in q && forall y :: y in q[..n] ==> y in q;
      FilledAt(q[..n], limit, size, shrink);
      PutMoves(Filled(q[..n], limit, shrink), limit, size, n, q[n], shrink);
    }
  }

  /** The last three of the records, or all of them. */
  function LastThree(q: seq<Record>): seq<Record> {
    if |q| <= 3 then q else q[|q| - 3..]
  }

  lemma {:induction false} CapacityThree(limit: nat, size: nat)
    requires RoomForThree(limit, size)
    ensures Capacity(limit, size) == 3
  {
    CapacityFits(limit, size);
    SlotValues(size);
    var k := Capacity(limit, size);
    SlotStep(k, 3, size);
    SlotStep(4, k, size);
    SlotStep(3, k, size);
    SlotStep(k + 1, 3, size);
  }

  lemma {:induction false} LastThreeMore(q: seq<Record>, x: Record, p: seq<Record>)
    requires p == q + [x]
    ensures FifoPut(LastThree(q), x, 3) == LastThree(p)
  {}

  lemma {:induction false} HoldsMore(r: State, q: seq<Record>, x: Record, p: seq<Record>, size: nat, limit: nat,
                                     shrink: bool)
    requires Holds(r, LastThree(q), size, 3, limit) && WORD + |x| == size && p == q + [x]
    ensures Holds(Put(r, x, shrink), LastThree(p), size, 3, limit)
  {
    PutHolds(r, LastThree(q), x, shrink, size, 3, limit);
    LastThreeMore(q, x, p);
  }

  lemma {:induction false} FilledHolds(q: seq<Record>, limit: nat, size: nat, shrink: bool)
    requires Fills(q, limit, size)
    ensures Holds(Filled(q, limit, shrink), LastThree(q), size, 3, limit)
    decreases |q|, 1
  {
    if q == [] {
      NewHolds(limit, size);
      CapacityThree(limit, size);
    } else {
      FilledHoldsMore(q, q[..|q| - 1], q[|q| - 1], limit, size, shrink);
    }
  }

  lemma {:induction false} FilledHoldsMore(q: seq<Record>, most: seq<Record>, x: Record, limit: nat, size: nat,
                                           shrink: bool)
    requires Fills(q, limit, size) && q == most + [x]
    ensures Holds(Filled(q, limit, shrink), LastThree(q), size, 3, limit)
    decreases |q|, 0
  {
    assert x in q && forall y :: y in most ==> y in q;
    FilledHolds(most, limit, size, shrink);
    HoldsMore(Filled(most, limit, shrink), most, x, q, size, limit, shrink);
    FilledMore(most, x, limit, shrink);
  }

  lemma {:induction false} FilledContents(q: seq<Record>, limit: nat, size: nat, shrink: bool)
    requires Fills(q, limit, size) && |q| >= 3
    ensures Contents(Filled(q, limit, shrink)) == q[|q| - 3..]
  {
    FilledHolds(q, limit, size, shrink);
  }

  /** What the words of the file say after four and after five puts. */
  lemma {:induction false} FilledWords(q: seq<Record>, limit: nat, size: nat, shrink: bool)
    requires Fills(q, limit, size) && 4 <= |q| <= 5
    ensures var r, n := Filled(q, limit, shrink), |q| - 3;
            && At(r, limit, size, n, n, 3) && Valid(r) && r.count == 3 && r.limit == limit
            && r.head == r.next == Slot(n, size) && r.noman == Slot(3, size)
  {
    var r, n := Filled(q, limit, shrink), |q| - 3;
    FilledAt(q, limit, size, shrink);
    AtWords(r, limit, size, n, n, 3);
  }

  /** Five puts of one size, then one of another: lines 164-171. Records of 22 and 42 bytes do in a file of 140
      bytes. */
  lemma {:induction false} TailBranchIsReached(q: seq<Record>, len: nat, limit: nat, size: nat, shrink: bool)
    requires Fills(q, limit, size) && |q| == 5 && limit - META - 2 * size < WORD + len <= 2 * size
    ensures var r := Filled(q, limit, shrink);
            Valid(r) && !Refused(r.limit, len) && r.next <= r.head && !PutSafe(r, len)
  {
    FilledWords(q, limit, size, shrink);
    SlotValues(size);
    TailUnsafe(Filled(q, limit, shrink), size, len);
  }

  lemma {:induction false} StaleMark(r: State, size: nat, len: nat)
    requires r.count > 0 && r.head == META && r.next == META + size && r.noman == META + 3 * size && size > WORD
    requires META + 3 * size <= r.limit < META + 4 * size && r.limit - META - size < WORD + len <= r.limit - META
    ensures !Refused(r.limit, len) && r.head < r.next && !PutSafe(r, len)
  {}

  lemma {:induction false} TwoPops(r: State, limit: nat, size: nat, shrink: bool)
    requires At(r, limit, size, 1, 1, 3)
    ensures var two := Pop(Pop(r, shrink), shrink);
            && Valid(two) && two.count > 0 && two.limit == limit
            && two.head == META && two.next == META + size && two.noman == META + 3 * size
  {
    SlotValues(size);
    AtWords(r, limit, size, 1, 1, 3);
    PopAt(r, limit, size, 1, 1, 3, shrink);
    var one := Pop(r, shrink);
    AtWords(one, limit, size, 2, 1, 2);
    PopAt(one, limit, size, 2, 1, 2, shrink);
    AtWords(Pop(one, shrink), limit, size, 0, 1, 1);
  }

  /** Four puts of one size, two pops, then a put of another size: the wrap under a stale mark. Records of 22
      and 72 bytes do in a file of 140 bytes. */
  lemma {:induction false} StaleWrapIsReached(q: seq<Record>, len: nat, limit: nat, size: nat, shrink: bool)
    requires Fills(q, limit, size) && |q| == 4 && limit - META - size < WORD + len <= limit - META
    ensures var r := Pop(Pop(Filled(q, limit, shrink), shrink), shrink);
            Valid(r) && !Refused(r.limit, len) && r.head < r.next && !PutSafe(r, len)
  {
    var r := Filled(q, limit, shrink);
    FilledWords(q, limit, size, shrink);
    TwoPops(r, limit, size, shrink);
    StaleMark(Pop(Pop(r, shrink), shrink), size, len);
  }

  /** Four puts in a file with room for three: three records are there and `peek` sees none. */
  lemma {:induction false} PeekMissIsReached(q: seq<Record>, limit: nat, size: nat, shrink: bool)
    requires Fills(q, limit, size) && |q| == 4
    ensures var r := Filled(q, limit, shrink);
            Valid(r) && Contents(r) == q[1..] && Peek(r) == Nothing
  {
    FilledWords(q, limit, size, shrink);
    FilledContents(q, limit, size, shrink);
  }

  lemma {:induction false} FirstPut(x: Record, limit: nat)
    requires 1 <= |x| && META + WORD + |x| <= limit < OFFSET_LIMIT
    ensures var r := Put(Open([], false, limit), x, false);
            Shape(r, [x], []) && r.head == META && r.next == META + WORD + |x| && r.limit == limit
  {
    FreshFileIsEmpty(limit);
    PutFirstDone(Open([], false, limit), x, false);
    assert [] + [x] == [x];
    NothingAfter([], [x], 0);
  }

  lemma {:induction false} SecondPut(r: State, x: Record, y: Record)
    requires Shape(r, [x], []) && r.head == META && r.next == META + WORD + |x|
    requires 1 <= |y| && META + WORD + |x| + WORD + |y| <= r.limit
    ensures var t := Put(r, y, false);
            && Valid(t) && Contents(t) == [x, y] && t.head == META && t.head < t.next
  {
    PutAtEnd(r, [x], y, false);
    assert [x][0..] + [] + [y] == [x, y];
  }

  lemma {:induction false} RunTwo(r: State, a: Op, b: Op)
    ensures Run(r, [a, b]) == Step(Step(r, a), b)
  {
    assert [a, b][1..] == [b] && [b][1..] == [];
    assert Run(Step(r, a), [b]) == Run(Step(Step(r, a), b), []);
  }

  /** Two records in a new file. */
  function Pair(x: Record, y: Record, limit: nat): State {
    Run(Open([], false, limit), [PutOp(x, false), PutOp(y, false)])
  }

  lemma {:induction false} PairHolds(x: Record, y: Record, limit: nat)
    requires 1 <= |x| && 1 <= |y| && META + WORD + |x| + WORD + |y| <= limit < OFFSET_LIMIT
    ensures var r := Pair(x, y, limit);
            Valid(r) && Contents(r) == [x, y] && r.head < r.next
  {
    var r := Open([], false, limit);
    RunTwo(r, PutOp(x, false), PutOp(y, false));
    FirstPut(x, limit);
    SecondPut(Put(r, x, false), x, y);
  }

  /** A long record at the head of an unwrapped file. */
  lemma {:induction false} LongHead(r: State, x: Record, y: Record, shrink: bool)
    requires Valid(r) && Contents(r) == [x, y] && r.head < r.next && 0x8000_0000 <= |x|
    ensures !PopSafe(r) && !(Valid(Pop(r, shrink)) && Contents(Pop(r, shrink)) == [y])
  {
    CountBound(r);
    OldestRecord(r, Older(r), Newer(r));
    assert Older(r) + Newer(r) == Older(r);
    PopCorrect(r, shrink);
    assert [x, y][1..] == [y];
  }

  /** A record of two gigabytes or more and another behind it: the pop does not leave the second one. */
  lemma {:induction false} PopFaultIsReached(x: Record, y: Record, limit: nat, shrink: bool)
    requires 0x8000_0000 <= |x| && 1 <= |y| && META + WORD + |x| + WORD + |y| <= limit < OFFSET_LIMIT
    ensures var r := Pair(x, y, limit);
            && Valid(r) && Contents(r) == [x, y] && !PopSafe(r)
            && !(Valid(Pop(r, shrink)) && Contents(Pop(r, shrink)) == [y])
  {
    PairHolds(x, y, limit);
    LongHead(Pair(x, y, limit), x, y, shrink);
  }

  /** A limit below the header size slips past the guard: the subtraction wraps. A first put that is not
      refused stays within the limit exactly when the limit holds the header. */
  lemma {:induction false} FirstPutWithinLimit(limit: nat, b: Record, shrink: bool)
    requires limit < OFFSET_LIMIT && 1 <= |b| < OFFSET_LIMIT
    ensures limit < META ==> !Refused(limit, |b|)
    ensures !Refused(limit, |b|) ==>
              (Put(Open([], false, limit), b, shrink).next <= limit <==> META <= limit)
  {}
}
