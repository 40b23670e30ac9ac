/** Peek and pop, and exactly when they see the oldest record. */
module RingPop {
  import opened Bytes
  import opened Frames
  import opened Ring
  import opened RingProofs

  lemma {:induction false} OldestRecord(r: State, older: seq<Record>, newer: seq<Record>)
    requires Shape(r, older, newer) && r.count > 0
    ensures older != [] && 1 <= |older[0]| < OFFSET_LIMIT
    ensures ReadWord(r.file, r.head) == |older[0]|
    ensures r.head + WORD + |older[0]| <= |r.file| && r.head + WORD + |older[0]| < OFFSET_LIMIT
    ensures r.file[r.head + WORD..r.head + WORD + |older[0]|] == older[0]
  {
    var hi := if r.head < r.next then r.next else r.noman;
    FlatSize(older);
    HeadRecord(r.file, r.head, hi, older);
    assert older[0] in older;
  }

  lemma {:induction false} PeekAt(r: State, x: Record)
    requires r.head != r.next && ReadWord(r.file, r.head) == |x| && r.head + WORD + |x| <= |r.file|
    requires r.file[r.head + WORD..r.head + WORD + |x|] == x
    ensures Peek(r) == Peeked(x)
  {}

  lemma {:induction false} PeekShape(r: State, older: seq<Record>, newer: seq<Record>)
    requires Shape(r, older, newer) && r.count > 0 && r.head != r.next
    ensures older != [] && Peek(r) == Peeked((older + newer)[0])
  {
    OldestRecord(r, older, newer);
    PeekAt(r, older[0]);
  }

  /** `peek` hands out the oldest record, except from an exactly full wrapped buffer. */
  lemma {:induction false} PeekIsOldest(r: State)
    requires Valid(r)
    ensures r.count == 0 || r.head == r.next ==> Peek(r) == Nothing
    ensures r.count > 0 && r.head != r.next ==> Contents(r) != [] && Peek(r) == Peeked(Contents(r)[0])
  {
    if r.count > 0 && r.head != r.next {
      PeekShape(r, Older(r), Newer(r));
    }
  }

  /** The length survives the `int`, or nothing is left to find, or the record was the last before the mark
      and the mangled offset happens to lead back to the start of the data. */
  predicate PopSafe(r: State) {
    var len := ReadWord(r.file, r.head);
    || r.count <= 1
    || len < 0x8000_0000
    || (r.next <= r.head && r.head + WORD + len == r.noman && (PopTarget(r) >= r.noman || PopTarget(r) == META))
  }

  lemma ToIntMangles(len: nat)
    requires len < OFFSET_LIMIT
    ensures len < 0x8000_0000 ==> ToInt(len) == len
    ensures len >= 0x8000_0000 ==> 0 < len - ToInt(len) < SIZE_T_LIMIT
  {}

  lemma {:induction false} PopLinear(r: State, q: seq<Record>, p: State)
    requires Shape(r, q, []) && r.count > 1 && r.head < r.next
    requires p == r.(head := r.head + WORD + |q[0]|, count := r.count - 1)
    ensures Shape(p, q[1..], [])
  {
    HeadRecord(r.file, r.head, r.next, q);
    StorableTail(q);
    FlatSize(q[1..]);
    SizeAtLeast(q[1..]);
  }

  lemma {:induction false} PopWrapped(r: State, older: seq<Record>, newer: seq<Record>, p: State)
    requires Shape(r, older, newer) && r.count > 1 && r.next <= r.head
    requires older != [] && newer != []
    requires var head := r.head + WORD + |older[0]|;
             p == r.(head := if head >= r.noman then META else head, count := r.count - 1)
    ensures if |older| == 1 then Shape(p, newer, []) else Shape(p, older[1..], newer)
    ensures |older| == 1 <==> r.head + WORD + |older[0]| == r.noman
  {
    HeadRecord(r.file, r.head, r.noman, older);
    StorableTail(older);
    FlatSize(older[1..]);
    SizeAtLeast(older[1..]);
  }

  /** Cutting an empty file back to its header. */
  lemma {:induction false} PopLast(r: State, shrink: bool)
    requires Shape(r, [], [])
    ensures var t := Stamp(r.(file := if shrink then Truncate(r.file, META) else r.file));
            Valid(t) && Contents(t) == []
  {
    var e := r.(file := if shrink then Truncate(r.file, META) else r.file);
    assert Shape(e, [], []);
    StampKeeps(e, [], []);
  }

  lemma {:induction false} PopLinearDone(r: State, q: seq<Record>, p: State)
    requires Shape(r, q, []) && r.count > 1 && r.head < r.next
    requires p == r.(head := r.head + WORD + |q[0]|, count := r.count - 1)
    ensures Valid(Stamp(p)) && Contents(Stamp(p)) == (q + [])[1..]
  {
    PopLinear(r, q, p);
    StampKeeps(p, q[1..], []);
    NothingAfter(q, [], 1);
  }

  lemma {:induction false} PopWrappedDone(r: State, older: seq<Record>, newer: seq<Record>, p: State)
    requires Shape(r, older, newer) && r.count > 1 && r.next <= r.head
    requires older != [] && newer != []
    requires var head := r.head + WORD + |older[0]|;
             p == r.(head := if head >= r.noman then META else head, count := r.count - 1)
    ensures Valid(Stamp(p)) && Contents(Stamp(p)) == (older + newer)[1..]
  {
    PopWrapped(r, older, newer, p);
    if |older| == 1 {
      StampKeeps(p, newer, []);
      DropFirst(older, newer, []);
      assert newer + [] == newer;
    } else {
      StampKeeps(p, older[1..], newer);
      DropWithin(older, newer, [], 1);
      assert newer + [] == newer;
    }
    assert (older + newer)[1..] + [] == (older + newer)[1..];
  }

  lemma {:induction false} PopWords(r: State, shrink: bool)
    requires r.count > 1
    ensures Pop(r, shrink) == Stamp(r.(head := PopHead(r), count := r.count - 1))
  {}

  lemma {:induction false} ExactTarget(r: State, len: nat)
    requires ReadWord(r.file, r.head) == len && r.head + WORD + len < OFFSET_LIMIT
    ensures len < 0x8000_0000 <==> PopTarget(r) == r.head + WORD + len
  {
    ToIntMangles(len);
  }

  /** Where a safe pop leaves the head. */
  lemma {:induction false} SafeTarget(r: State, older: seq<Record>, newer: seq<Record>)
    requires Shape(r, older, newer) && r.count > 1 && PopSafe(r)
    ensures older != []
    ensures var head := r.head + WORD + |older[0]|;
            PopHead(r) == if r.head >= r.next && head >= r.noman then META else head
    ensures r.head < r.next ==> r.head + WORD + |older[0]| <= r.next
    ensures r.next <= r.head ==> r.head + WORD + |older[0]| <= r.noman
  {
    OldestRecord(r, older, newer);
    ExactTarget(r, |older[0]|);
    HeadRecord(r.file, r.head, if r.head < r.next then r.next else r.noman, older);
  }

  lemma {:induction false} PopDrops(r: State, older: seq<Record>, newer: seq<Record>, shrink: bool)
    requires Shape(r, older, newer) && r.count > 1 && PopSafe(r)
    ensures Valid(Pop(r, shrink)) && Contents(Pop(r, shrink)) == (older + newer)[1..]
  {
    SafeTarget(r, older, newer);
    PopWords(r, shrink);
    var head := r.head + WORD + |older[0]|;
    if r.head < r.next {
      PopLinearDone(r, older, r.(head := head, count := r.count - 1));
    } else {
      PopWrappedDone(r, older, newer, r.(head := if head >= r.noman then META else head, count := r.count - 1));
    }
  }

  lemma {:induction false} ContentsSize(r: State)
    requires Valid(r) && r.count > 0
    ensures Size(Contents(r)) == if r.head < r.next then r.next - r.head else r.noman - r.head + r.next - META
  {
    FlatConcat(Older(r), Newer(r));
    FlatSize(Older(r));
    FlatSize(Newer(r));
  }

  /** A mangled offset shows in the number of bytes the remaining records take up. */
  lemma MangledOffset(head: nat, next: nat, noman: nat, len: nat, target: nat, head': nat)
    requires META <= head && target != head + WORD + len
    requires if head < next then head + WORD + len <= next
             else
               META < next && head + WORD + len <= noman
               && !(head + WORD + len == noman && (target >= noman || target == META))
    requires head' == if target > next && target >= noman then META else target
    ensures META <= head' && (head' >= next ==> head' < noman) ==>
            (if head' < next then next - head' else noman - head' + next - META) + WORD + len
            != (if head < next then next - head else noman - head + next - META)
  {}

  lemma {:induction false} PopBreaks(r: State, q: seq<Record>, target: nat, t: State)
    requires Valid(r) && Contents(r) == q && r.count > 1 && target != r.head + WORD + |q[0]|
    requires !(r.next <= r.head && r.head + WORD + |q[0]| == r.noman && (target >= r.noman || target == META))
    requires r.head + WORD + |q[0]| <= if r.head < r.next then r.next else r.noman
    requires t.next == r.next && t.noman == r.noman && t.count > 0
    requires t.head == if target > r.next && target >= r.noman then META else target
    ensures !(Valid(t) && Contents(t) == q[1..])
  {
    ContentsSize(r);
    assert Size(q) == WORD + |q[0]| + Size(q[1..]);
    MangledOffset(r.head, r.next, r.noman, |q[0]|, target, t.head);
    if Valid(t) { ContentsSize(t); }
  }

  lemma {:induction false} PopBreaksHere(r: State, shrink: bool)
    requires Valid(r) && r.count > 1 && !PopSafe(r)
    ensures var t := Pop(r, shrink); !(Valid(t) && Contents(t) == Contents(r)[1..])
  {
    var older := Older(r);
    OldestRecord(r, older, Newer(r));
    HeadRecord(r.file, r.head, if r.head < r.next then r.next else r.noman, older);
    ExactTarget(r, |older[0]|);
    PopWords(r, shrink);
    PopBreaks(r, Contents(r), PopTarget(r), Pop(r, shrink));
  }

  /** `pop` removes exactly the oldest record, or does nothing to an empty file, if and only if it is safe. */
  lemma {:induction false} PopCorrect(r: State, shrink: bool)
    requires Valid(r)
    ensures r.count == 0 ==> Pop(r, shrink) == r
    ensures r.count > 0 ==>
              var t := Pop(r, shrink);
              (Valid(t) && Contents(t) == Contents(r)[1..]) <==> PopSafe(r)
  {
    if r.count == 1 {
      PopLast(r.(head := META, next := META, noman := META, count := 0), shrink);
    } else if r.count > 1 {
      if PopSafe(r) {
        PopDrops(r, Older(r), Newer(r), shrink);
      } else {
        PopBreaksHere(r, shrink);
      }
    }
  }

  /** No record that the 32-bit length could mangle fits a file whose limit is below 2^31, as `new_mqtt_sender` makes
      it from a cache size that is not negative. */
  lemma {:induction false} SmallLimitPops(r: State)
    requires Valid(r) && r.limit < 0x8000_0000
    ensures PopSafe(r)
  {
    if r.count > 0 { OldestRecord(r, Older(r), Newer(r)); }
  }
}
