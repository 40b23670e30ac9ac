/** The ring buffer as the code runs it: words and file bytes updated in place, proved to be the functions of
    `Ring` and so to have the properties proved about those. */
module RingFile {
  import opened Bytes
  import opened Frames
  import R = Ring
  import RingProofs
  import RingPut
  import RingPop

  class RingBuFi {
    var file: seq<byte>
    var head: nat
    var next: nat
    var noman: nat
    var count: nat
    var limit: nat

    ghost function State(): R.State
      reads this
    {
      R.State(file, head, next, noman, count, limit)
    }

    ghost predicate Valid()
      reads this
    {
      R.Valid(State())
    }

    ghost function Contents(): seq<Record>
      reads this
    {
      R.Contents(State())
    }

    /** `newRingBuFi` on a path where no file exists yet. */
    constructor Create(sizeLimit: nat)
      ensures State() == R.Open([], false, sizeLimit)
      ensures Contents() == [] && (Valid() <==> R.META <= sizeLimit < OFFSET_LIMIT)
    {
      file, head, next, noman, count, limit := [], R.META, R.META, R.META, 0, sizeLimit;
      new;
      SaveMeta();
      RingProofs.FreshFileIsEmpty(sizeLimit);
    }

    /** `newRingBuFi` on the file another run left: its own limit wins over the one passed in. */
    constructor Reopen(existing: seq<byte>, sizeLimit: nat)
      ensures State() == R.Open(existing, true, sizeLimit)
      ensures forall r: R.State :: R.Valid(r) && r.file == existing ==> State() == r
    {
      file := existing;
      head := ReadWord(existing, 0);
      next := ReadWord(existing, 8);
      noman := ReadWord(existing, 16);
      count := ReadWord(existing, 24);
      limit := ReadWord(existing, 32);
      new;
      forall r: R.State | R.Valid(r) && r.file == existing ensures State() == r {
        RingProofs.ReopenRestores(r, sizeLimit);
      }
    }

    method WriteBytesAt(offset: nat, data: seq<byte>)
      modifies this`file
      ensures file == WriteAt(old(file), offset, data)
    {
      file := WriteAt(file, offset, data);
    }

    /** Length word first, payload after it. */
    method WriteRecord(offset: nat, b: Record)
      modifies this`file
      ensures file == WriteAt(old(file), offset, Frame(b))
    {
      WriteBytesAt(offset, Word(|b|));
      WriteBytesAt(offset + WORD, b);
      WriteAtTwice(old(file), offset, Word(|b|), b);
    }

    /** Five words written one after the other from the start of the file. */
    method SaveMeta()
      modifies this`file
      ensures State() == R.Stamp(old(State()))
    {
      ghost var before := file;
      WriteBytesAt(0, Word(head));
      WriteBytesAt(8, Word(next));
      WriteAtTwice(before, 0, Word(head), Word(next));
      WriteBytesAt(16, Word(noman));
      WriteAtTwice(before, 0, Word(head) + Word(next), Word(noman));
      WriteBytesAt(24, Word(count));
      WriteAtTwice(before, 0, Word(head) + Word(next) + Word(noman), Word(count));
      WriteBytesAt(32, Word(limit));
      WriteAtTwice(before, 0, Word(head) + Word(next) + Word(noman) + Word(count), Word(limit));
    }

    method EraseEnoughSpaceOrEof(bytesFreed: nat, bytesToFree: nat) returns (total: nat)
      modifies this`head, this`count
      ensures R.Erased(head, count, total)
              == R.Erase(file, noman, old(head), old(count), bytesFreed, bytesToFree)
    {
      total := bytesFreed;
      while total < bytesToFree && head < noman
        invariant R.Erase(file, noman, head, count, total, bytesToFree)
                  == R.Erase(file, noman, old(head), old(count), bytesFreed, bytesToFree)
        decreases noman - head
      {
        var recordLen := ReadWord(file, head);
        total := total + recordLen + WORD;
        head := head + recordLen + WORD;
        count := R.Decrement(count);
      }
    }

    /** `putRingBuFiRecord`, on any file; `shrink` says whether `ftruncate` succeeded. */
    method Put(b: Record, shrink: bool) returns (cached: int)
      modifies this
      ensures State() == R.Put(old(State()), b, shrink)
      ensures cached == if R.Refused(old(limit), |b|) then 0 else R.ToInt(|b|)
      ensures R.Refused(old(limit), |b|) ==> State() == old(State())
      ensures old(Valid()) && !R.Refused(old(limit), |b|) ==>
                (Valid() <==> old(RingProofs.PutSafe(State(), |b|)))
      ensures old(Valid()) && !R.Refused(old(limit), |b|) && old(RingProofs.PutSafe(State(), |b|)) ==>
                exists k ::
                  RingProofs.Appended(old(State()), R.Older(old(State())), R.Newer(old(State())), State(), k, b)
    {
      if Valid() { RingPut.PutCorrect(State(), b, shrink); }
      cached := PutWords(b, shrink);
    }

    /** The steps of `putRingBuFiRecord`, on words and bytes alone. */
    method PutWords(b: Record, shrink: bool) returns (cached: int)
      modifies this
      ensures State() == R.Put(old(State()), b, shrink)
      ensures cached == if R.Refused(old(limit), |b|) then 0 else R.ToInt(|b|)
    {
      if R.Refused(limit, |b|) {
        return 0;
      }
      var size := WORD + |b|;
      if count == 0 {
        next := R.META;
        head := next;
        WriteRecord(next, b);
        count := 1;
        noman := next + size;
        next := next + size;
        SaveMeta();
        if shrink {
          file := Truncate(file, noman);
        }
      } else if next > head {
        if next + size > limit {
          PutAtStart(b);
        } else {
          PutAtEnd(b);
        }
        SaveMeta();
      } else {
        PutBehind(b);
        SaveMeta();
      }
      cached := R.ToInt(|b|);
    }

    method PutAtStart(b: Record)
      modifies this
      ensures State() == R.PutWrap(old(State()), b)
    {
      var freed := EraseEnoughSpaceOrEof(R.Sub(head, R.META), WORD + |b|);
      WriteRecord(R.META, b);
      count := R.Increment(count);
      noman := next;
      if head >= noman {
        head := R.META;
      }
      next := WORD + |b| + R.META;
    }

    method PutAtEnd(b: Record)
      modifies this
      ensures State() == R.PutEnd(old(State()), b)
    {
      var newNext := next + WORD + |b|;
      WriteRecord(next, b);
      count := R.Increment(count);
      next := newNext;
      noman := next;
    }

    method MakeRoom(size: nat)
      modifies this
      ensures State() == R.MakeRoom(old(State()), size)
    {
      if R.Sub(head, next) >= size {
      } else if R.Sub(noman, next) >= size {
        var freed := EraseEnoughSpaceOrEof(R.Sub(head, next), size);
        if head >= noman {
          head := R.META;
        }
      } else if R.Sub(limit, next) >= size {
        var freed := EraseEnoughSpaceOrEof(0, limit);
        head := R.META;
        noman := next;
      } else if R.Sub(next, R.META) >= size {
        noman := next;
        head := R.META;
        var freed := EraseEnoughSpaceOrEof(0, size);
      } else {
        next := R.META;
        head := next;
        noman := next;
        count := 0;
      }
    }

    method PutBehind(b: Record)
      modifies this
      ensures State() == R.PutBehind(old(State()), b)
    {
      MakeRoom(WORD + |b|);
      WriteRecord(next, b);
      count := R.Increment(count);
      next := next + WORD + |b|;
      if next > head {
        noman := next;
      }
    }

    method Peek() returns (p: R.Peeked)
      ensures p == R.Peek(State())
      ensures Valid() && count > 0 && head != next ==> Contents() != [] && p == R.Peeked(Contents()[0])
    {
      if Valid() { RingPop.PeekIsOldest(State()); }
      p := PeekWords();
    }

    method PeekWords() returns (p: R.Peeked)
      ensures p == R.Peek(State())
    {
      if head == next {
        return R.Nothing;
      }
      var len := ReadWord(file, head);
      var from := Min(head + WORD, |file|);
      p := R.Peeked(file[from..Min(from + len, |file|)]);
    }

    /** `popRingBuFiRecord`, on any file. */
    method Pop(shrink: bool)
      modifies this
      ensures State() == R.Pop(old(State()), shrink)
      ensures old(count) == 0 ==> State() == old(State())
      ensures old(Valid()) && old(count) > 0 ==>
                old(Contents()) != []
                && (Valid() && Contents() == old(Contents())[1..] <==> old(RingPop.PopSafe(State())))
    {
      if Valid() {
        RingPop.PopCorrect(State(), shrink);
        RingProofs.CountBound(State());
      }
      PopWords(shrink);
    }

    /** The steps of `popRingBuFiRecord`. */
    method PopWords(shrink: bool)
      modifies this
      ensures State() == R.Pop(old(State()), shrink)
    {
      if count == 0 {
        return;
      }
      AdvanceHead();
      count := count - 1;
      if count == 0 {
        Clear(shrink);
      }
      SaveMeta();
    }

    method AdvanceHead()
      modifies this`head
      ensures head == R.PopHead(old(State()))
    {
      var len := R.ToInt(ReadWord(file, head));
      head := (head + len + WORD) % SIZE_T_LIMIT;
      if head > next && head >= noman {
        head := R.META;
      }
    }

    method Clear(shrink: bool)
      modifies this`next, this`head, this`noman, this`file
      ensures head == next == noman == R.META
      ensures file == if shrink then Truncate(old(file), R.META) else old(file)
    {
      next := R.META;
      head := next;
      noman := next;
      if shrink {
        file := Truncate(file, R.META);
      }
    }
  }
}
