/** A put keeps the file a well-formed queue exactly when it avoids two branches. */
module RingPut {
  import opened Bytes
  import opened Frames
  import opened Ring
  import opened RingProofs

  /** Past the end of the records a stale mark lets the loop go on into whatever bytes are there. */
  lemma {:induction false} EraseRunsOut(file: seq<byte>, noman: nat, head: nat, q: seq<Record>,
                                        count: nat, freed: nat, want: nat)
    requires Chain(file, head, q) && |q| <= count
    requires head + Size(q) < noman && freed + Size(q) < want
    ensures Erase(file, noman, head, count, freed, want)
            == Erase(file, noman, head + Size(q), count - |q|, freed + Size(q), want)
    decreases |q|
  {
    if q != [] {
      EraseStep(file, noman, head, count, freed, want);
      EraseRunsOut(file, noman, head + WORD + |q[0]|, q[1..], count - 1, freed + WORD + |q[0]|, want);
    }
  }

  /** From a count that has wrapped below zero the loop never brings it back to zero or one. */
  lemma {:induction false} EraseBelowZero(file: seq<byte>, noman: nat, head: nat, count: nat, freed: nat, want: nat)
    requires noman - head < count < SIZE_T_LIMIT
    ensures var e := Erase(file, noman, head, count, freed, want);
            e.head >= head && (if head < noman then count - (noman - head) else count) <= e.count <= count
    decreases noman - head
  {
    if freed < want && head < noman {
      var size := ReadWord(file, head) + WORD;
      EraseBelowZero(file, noman, head + size, count - 1, freed + size, want);
    }
  }

  lemma {:induction false} StaleErase(file: seq<byte>, noman: nat, next: nat, freed: nat, want: nat)
    requires freed < want && next < noman < OFFSET_LIMIT
    ensures var e := Erase(file, noman, next, 0, freed, want);
            e.head >= next && e.count != 0
  {
    var size := ReadWord(file, next) + WORD;
    EraseBelowZero(file, noman, next + size, SIZE_T_LIMIT - 1, freed + size, want);
  }

  /** Under a stale mark the loop of the wrap branch passes the last record, and the count passes zero. */
  lemma {:induction false} StaleWrapErases(r: State, q: seq<Record>, size: nat)
    requires Shape(r, q, []) && q != [] && r.head < r.next && !WrapSafe(r, size)
    ensures var e := Erase(r.file, r.noman, r.head, r.count, r.head - META, size);
            e.head >= r.next && e.count != 0
  {
    FlatChain(r.file, r.head, r.next, q);
    EraseRunsOut(r.file, r.noman, r.head, q, r.count, r.head - META, size);
    StaleErase(r.file, r.noman, r.next, r.next - META, size);
  }

  /** Lines 111-126 under a stale mark: the count wraps below zero, so it does not end at one. */
  lemma {:induction false} StaleWrapCounts(r: State, q: seq<Record>, b: Record)
    requires Shape(r, q, []) && q != [] && r.head < r.next && !WrapSafe(r, WORD + |b|)
    ensures var p := PutWrap(r, b);
            && p.head == META && p.next == META + WORD + |b| && p.count != 1
            && p.file == WriteAt(r.file, META, Frame(b)) && p.limit == r.limit
  {
    StaleWrapErases(r, q, WORD + |b|);
    var e := Erase(r.file, r.noman, r.head, r.count, r.head - META, WORD + |b|);
    PutWrapWords(r, b, e.head, e.count, e.freed);
  }

  lemma {:induction false} StaleWrapBreaks(r: State, q: seq<Record>, b: Record, p: State)
    requires META <= |r.file| && 1 <= |b| < OFFSET_LIMIT
    requires p.head == META && p.next == META + WORD + |b| && p.count != 1
    requires p.file == WriteAt(r.file, META, Frame(b))
    ensures !Valid(Stamp(p))
  {
    var s := Stamp(p);
    PlaceAtEnd(r, META, META, [], b);
    SizeOfOne(b);
    assert [] + [b] == [b];
    WriteAtKeeps(p.file, 0, Meta(p), META, p.next);
    assert s.file[META..s.next] == Flat([b]);
    ParseFlat([b]);
    assert s.count != 0 ==> Older(s) == [b];
  }

  /** Lines 164-171: the file grows past its limit and the count keeps the records that were given up. */
  lemma {:induction false} TailBranchOverruns(r: State, older: seq<Record>, newer: seq<Record>, b: Record)
    requires Shape(r, older, newer) && r.count > 0 && r.next <= r.head && |b| > 0
    requires r.limit - r.next < WORD + |b| <= r.next - META
    ensures var p := PutBehind(r, b);
            && p.head < p.next && p.next > r.limit && p.limit == r.limit
            && p.count == |older| + |newer| - Cut(newer, 0, WORD + |b|) + 1
  {
    var size := WORD + |b|;
    var m := r.(head := META, noman := r.next);
    FlatChain(r.file, META, r.next, newer);
    EraseCuts(r.file, r.next, META, newer, r.count, 0, size);
    CutSizeIsSize(newer, 0, size);
    SizeMonotone(newer, Cut(newer, 0, size), |newer|);
    ShapeCount(r, older, newer);
    PutBehindWords(r, b, EraseFrom(m, 0, size));
  }

  /** A put that is not safe leaves a file that no longer spells a queue. */
  lemma {:induction false} PutBreaks(r: State, older: seq<Record>, newer: seq<Record>, b: Record, shrink: bool)
    requires Shape(r, older, newer) && !Refused(r.limit, |b|) && !PutSafe(r, |b|)
    ensures !Valid(Put(r, b, shrink))
  {
    if r.head < r.next {
      StaleWrapCounts(r, older, b);
      StaleWrapBreaks(r, older, b, PutWrap(r, b));
    } else {
      TailBranchOverruns(r, older, newer, b);
    }
  }

  /** The put as its callers see it. From a well-formed file it either refuses and changes nothing, or it
      drops the fewest oldest records that make room and adds `b` last; and it leaves a well-formed file
      exactly when it is safe. */
  lemma {:induction false} PutCorrect(r: State, b: Record, shrink: bool)
    requires Valid(r)
    ensures Refused(r.limit, |b|) ==> Put(r, b, shrink) == r
    ensures !Refused(r.limit, |b|) && PutSafe(r, |b|) ==>
              exists k :: Appended(r, Older(r), Newer(r), Put(r, b, shrink), k, b)
    ensures !Refused(r.limit, |b|) ==> (Valid(Put(r, b, shrink)) <==> PutSafe(r, |b|))
  {
    if !Refused(r.limit, |b|) {
      if PutSafe(r, |b|) {
        PutAppends(r, Older(r), Newer(r), b, shrink);
      } else {
        PutBreaks(r, Older(r), Newer(r), b, shrink);
      }
    }
  }

  /** There is a gap for `size` bytes as things stand, by the words alone. */
  predicate HasGap(r: State, size: nat) {
    || r.count == 0
    || (r.head < r.next && (r.next + size <= r.limit || r.head >= META + size))
    || (r.next <= r.head && r.head - r.next >= size)
  }

  /** Nothing is dropped exactly when there is a gap already. */
  lemma {:induction false} GapDropsNothing(r: State, older: seq<Record>, newer: seq<Record>, k: nat, size: nat)
    requires Shape(r, older, newer) && Least(r, older, newer, k, size)
    ensures k == 0 <==> HasGap(r, size)
  {
    assert older[..0] == [] && Size([]) == 0;
    if r.count > 0 {
      if r.next <= r.head { FlatSize(older); }
      assert older != [];
      assert Room(r, older, newer, 0, size) <==> HasGap(r, size);
    }
  }

  /** The `k` oldest records made way for `b`, none if there was a gap. */
  ghost predicate Rotated(r: State, t: State, k: nat, b: Record) {
    && k <= |Contents(r)| && Contents(t) == Contents(r)[k..] + [b]
    && (k == 0 <==> HasGap(r, WORD + |b|))
  }

  lemma {:induction false} AppendedRotates(r: State, t: State, k: nat, b: Record)
    requires Valid(r) && Appended(r, Older(r), Newer(r), t, k, b)
    ensures Rotated(r, t, k, b)
  {
    GapDropsNothing(r, Older(r), Newer(r), k, WORD + |b|);
  }

  /** A safe put in terms of the queue alone. */
  lemma {:induction false} PutRotates(r: State, b: Record, shrink: bool)
    requires Valid(r) && !Refused(r.limit, |b|) && PutSafe(r, |b|)
    ensures var t := Put(r, b, shrink); Valid(t) && t.limit == r.limit
    ensures exists k :: Rotated(r, Put(r, b, shrink), k, b)
  {
    PutCorrect(r, b, shrink);
    PutLimit(r, b, shrink);
    var k :| Appended(r, Older(r), Newer(r), Put(r, b, shrink), k, b);
    AppendedRotates(r, Put(r, b, shrink), k, b);
  }
}
