/** Every completed put and pop keeps the file a well-formed queue, or exactly when it does not. */
module RingProofs {
  import opened Bytes
  import opened Frames
  import opened Ring

  // ---- the header ----

  lemma {:induction false} StampKeeps(r: State, older: seq<Record>, newer: seq<Record>)
    requires Shape(r, older, newer)
    ensures Valid(Stamp(r)) && Contents(Stamp(r)) == older + newer
    ensures Older(Stamp(r)) == older && Newer(Stamp(r)) == newer
  {
    var s := Stamp(r);
    assert s.file[META..] == r.file[META..];
    assert s.file[..META] == Meta(r);
    if r.count != 0 {
      if r.head < r.next {
        WriteAtKeeps(r.file, 0, Meta(r), r.head, r.next);
      } else {
        WriteAtKeeps(r.file, 0, Meta(r), r.head, r.noman);
        WriteAtKeeps(r.file, 0, Meta(r), META, r.next);
      }
    }
    assert Shape(s, older, newer);
    ShapeContents(s, older, newer);
  }

  lemma {:induction false} CountBound(r: State)
    requires Valid(r)
    ensures r.count == |Contents(r)| && r.count < OFFSET_LIMIT
  {
    FlatSize(Older(r));
    FlatSize(Newer(r));
    SizeAtLeast(Older(r));
    SizeAtLeast(Newer(r));
  }

  lemma {:induction false} SubSlice<T>(s: seq<T>, lo: nat, hi: nat, i: nat, j: nat)
    requires lo <= hi <= |s| && i <= j <= hi - lo
    ensures s[lo..hi][i..j] == s[lo + i..lo + j]
  {
    var a, b := s[lo..hi][i..j], s[lo + i..lo + j];
    assert |a| == |b| && forall k :: 0 <= k < |a| ==> a[k] == b[k];
  }

  lemma {:induction false} FiveWords(a: seq<byte>, b: seq<byte>, c: seq<byte>, d: seq<byte>, e: seq<byte>)
    requires |a| == |b| == |c| == |d| == |e| == WORD
    ensures var m := a + b + c + d + e;
            m[0..8] == a && m[8..16] == b && m[16..24] == c && m[24..32] == d && m[32..40] == e
  {}

  lemma {:induction false} HeaderWord(file: seq<byte>, m: seq<byte>, at: nat, v: nat)
    requires |m| == META <= |file| && file[..META] == m && at + WORD <= META
    requires m[at..at + WORD] == Word(v) && v < SIZE_T_LIMIT
    ensures ReadWord(file, at) == v
  {
    SubSlice(file, 0, META, at, at + WORD);
    assert file[0..META] == file[..META];
    WordRoundTrip(v);
  }

  /** Reopening the file gives back the five words, hence the same queue. */
  lemma {:induction false} ReopenRestores(r: State, limit: nat)
    requires Valid(r)
    ensures Open(r.file, true, limit) == r
  {
    CountBound(r);
    var m := Meta(r);
    FiveWords(Word(r.head), Word(r.next), Word(r.noman), Word(r.count), Word(r.limit));
    HeaderWord(r.file, m, 0, r.head);
    HeaderWord(r.file, m, 8, r.next);
    HeaderWord(r.file, m, 16, r.noman);
    HeaderWord(r.file, m, 24, r.count);
    HeaderWord(r.file, m, 32, r.limit);
  }

  /** A new file is a well-formed queue exactly when its limit holds the header; it is empty in any case. */
  lemma {:induction false} FreshFileIsEmpty(limit: nat)
    ensures Contents(Open([], false, limit)) == []
    ensures Valid(Open([], false, limit)) <==> META <= limit < OFFSET_LIMIT
  {
    var r := State([], META, META, META, 0, limit);
    assert Stamp(r).file == Meta(r);
  }

  // ---- the erase loop ----

  lemma {:induction false} HeadBytes(file: seq<byte>, lo: nat, hi: nat, r: Record, rest: seq<byte>)
    requires lo <= hi <= |file| && file[lo..hi] == Frame(r) + rest && |r| < SIZE_T_LIMIT
    ensures lo + WORD + |r| <= hi
    ensures ReadWord(file, lo) == |r|
    ensures file[lo + WORD..lo + WORD + |r|] == r
    ensures file[lo + WORD + |r|..hi] == rest
  {
    RecordSlices(r, rest);
    SubSlice(file, lo, hi, 0, WORD);
    SubSlice(file, lo, hi, WORD, WORD + |r|);
    SubSlice(file, lo, hi, WORD + |r|, hi - lo);
    WordRoundTrip(|r|);
  }

  lemma {:induction false} HeadRecord(file: seq<byte>, lo: nat, hi: nat, q: seq<Record>)
    requires lo <= hi <= |file| && file[lo..hi] == Flat(q) && q != [] && Storable(q)
    ensures var n := |q[0]|;
            && lo + WORD + n <= hi
            && ReadWord(file, lo) == n
            && file[lo + WORD..lo + WORD + n] == q[0]
            && file[lo + WORD + n..hi] == Flat(q[1..])
  {
    assert q[0] in q;
    HeadBytes(file, lo, hi, q[0], Flat(q[1..]));
  }

  lemma {:induction false} RecordSlices(r: Record, rest: seq<byte>)
    ensures var s := Frame(r) + rest;
            && s[0..WORD] == Word(|r|)
            && s[WORD..WORD + |r|] == r
            && s[WORD + |r|..|s|] == rest
  {}

  /** The length words the loop meets from `head` on. */
  ghost predicate Chain(file: seq<byte>, head: nat, q: seq<Record>)
    decreases |q|
  {
    q != [] ==> ReadWord(file, head) == |q[0]| && Chain(file, head + WORD + |q[0]|, q[1..])
  }

  lemma {:induction false} FlatChain(file: seq<byte>, lo: nat, hi: nat, q: seq<Record>)
    requires lo <= hi <= |file| && file[lo..hi] == Flat(q) && Storable(q)
    ensures Chain(file, lo, q) && lo + Size(q) == hi
    decreases |q|
  {
    if q != [] {
      HeadRecord(file, lo, hi, q);
      StorableTail(q);
      FlatChain(file, lo + WORD + |q[0]|, hi, q[1..]);
    }
  }

  lemma {:induction false} EraseStep(file: seq<byte>, noman: nat, head: nat, count: nat, freed: nat, want: nat)
    requires freed < want && head < noman && count > 0
    ensures var n := ReadWord(file, head);
            Erase(file, noman, head, count, freed, want)
            == Erase(file, noman, head + WORD + n, count - 1, freed + WORD + n, want)
  {}

  lemma {:induction false} CutStep(q: seq<Record>, freed: nat, want: nat)
    requires freed < want && q != []
    ensures var freed' := freed + WORD + |q[0]|;
            && CutSize(q, freed, want) == WORD + |q[0]| + CutSize(q[1..], freed', want)
            && Cut(q, freed, want) == 1 + Cut(q[1..], freed', want)
  {}

  /** On a run of records that the mark covers, the loop drops the least number that is enough. */
  lemma {:induction false} EraseCuts(file: seq<byte>, noman: nat, head: nat, q: seq<Record>,
                                     count: nat, freed: nat, want: nat)
    requires Chain(file, head, q) && |q| <= count
    requires (q != [] ==> head < noman) && (|q| > 1 ==> head + Size(q) <= noman)
    requires noman <= head + Size(q) || freed + Size(q) >= want
    ensures Erase(file, noman, head, count, freed, want)
            == Erased(head + CutSize(q, freed, want), count - Cut(q, freed, want), freed + CutSize(q, freed, want))
    decreases |q|
  {
    if freed < want && q != [] {
      EraseStep(file, noman, head, count, freed, want);
      CutStep(q, freed, want);
      EraseCuts(file, noman, head + WORD + |q[0]|, q[1..], count - 1, freed + WORD + |q[0]|, want);
    }
  }

  lemma {:induction false} StorableTail(q: seq<Record>)
    requires q != [] && Storable(q)
    ensures Storable(q[1..])
  {
    assert forall r :: r in q[1..] ==> r in q;
  }

  // ---- one put ----

  /** There are `size` contiguous bytes right after the newest record, or at the start of the file when
      the tail is too short, once the `j` oldest of the records `older + newer` are gone. */
  ghost predicate Room(r: State, older: seq<Record>, newer: seq<Record>, j: nat, size: nat)
    requires j <= |older| + |newer|
  {
    if j == |older| + |newer| then true
    else if r.head < r.next then
      j <= |older| && (r.next + size <= r.limit || r.head + Size(older[..j]) - META >= size)
    else if j < |older| then
      r.head + Size(older[..j]) - r.next >= size
    else
      r.limit - r.next >= size || Size(newer[..j - |older|]) >= size
  }

  /** `k` is the least number of oldest records that must go. */
  ghost predicate Least(r: State, older: seq<Record>, newer: seq<Record>, k: nat, size: nat) {
    && k <= |older| + |newer|
    && Room(r, older, newer, k, size)
    && forall j :: 0 <= j < k ==> !Room(r, older, newer, j, size)
  }

  /** `t` holds the records of `r` less the `k` oldest, `k` being as small as can be, and `b` last. */
  ghost predicate Appended(r: State, older: seq<Record>, newer: seq<Record>, t: State, k: nat, b: Record) {
    && Least(r, older, newer, k, WORD + |b|)
    && Valid(t) && t.limit == r.limit
    && Contents(t) == (older + newer)[k..] + [b]
  }

  lemma {:induction false} PlaceAtEnd(r: State, lo: nat, at: nat, q: seq<Record>, b: Record)
    requires lo <= at <= |r.file| && r.file[lo..at] == Flat(q) && META <= lo
    ensures var f := Place(r, at, b).file;
            && |f| == Max(|r.file|, at + WORD + |b|)
            && f[..META] == r.file[..META]
            && f[lo..at + WORD + |b|] == Flat(q + [b])
  {
    var f := Place(r, at, b).file;
    WriteAtKeeps(r.file, at, Frame(b), lo, at);
    WriteAtKeeps(r.file, at, Frame(b), 0, META);
    FlatConcat(q, [b]);
    SizeOfOne(b);
    assert f[lo..at + WORD + |b|] == f[lo..at] + f[at..at + WORD + |b|];
  }

  lemma {:induction false} StorableAppend(q: seq<Record>, k: nat, b: Record)
    requires Storable(q) && k <= |q| && 1 <= |b| < OFFSET_LIMIT
    ensures Storable(q[k..]) && Storable(q[k..] + [b])
  {
    assert forall r :: r in q[k..] ==> r in q;
  }

  /** From the records' places to the queue the file stands for. */
  lemma {:induction false} Finish(r: State, older: seq<Record>, newer: seq<Record>, k: nat, b: Record,
               p: State, older': seq<Record>, newer': seq<Record>)
    requires Shape(r, older, newer) && Shape(p, older', newer') && p.limit == r.limit
    requires Least(r, older, newer, k, WORD + |b|)
    requires older' + newer' == (older + newer)[k..] + [b]
    ensures Appended(r, older, newer, Stamp(p), k, b)
  {
    StampKeeps(p, older', newer');
  }

  lemma {:induction false} ShapeCount(r: State, older: seq<Record>, newer: seq<Record>)
    requires Shape(r, older, newer)
    ensures r.count < OFFSET_LIMIT
  {
    FlatSize(older);
    FlatSize(newer);
    SizeAtLeast(older);
    SizeAtLeast(newer);
  }

  /** A record written at the start of the data is the whole queue. */
  lemma {:induction false} AloneShape(file: seq<byte>, b: Record, p: State)
    requires META <= |file| <= p.limit && 1 <= |b| < OFFSET_LIMIT
    requires p.file == WriteAt(file, META, Frame(b)) && p.head == META && p.next == META + WORD + |b|
    requires p.next <= p.limit < OFFSET_LIMIT && META < p.noman <= p.limit && p.count == 1
    ensures Shape(p, [b], [])
  {
    assert [] + [b] == [b];
    PlaceAtEnd(State(file, 0, 0, 0, 0, 0), META, META, [], b);
    assert Linear(p, [b]);
  }

  /** Cutting the file at the mark cuts no record. */
  lemma {:induction false} TruncateKeeps(s: State, b: Record)
    requires Shape(s, [b], []) && s.noman == s.next && s.file[..META] == Meta(s)
    ensures var t := s.(file := Truncate(s.file, s.next));
            Valid(t) && Contents(t) == [b] && Newer(t) == []
  {
    var t := s.(file := Truncate(s.file, s.next));
    assert t.file[..META] == s.file[..META] && t.file[s.head..s.next] == s.file[s.head..s.next];
    assert Shape(t, [b], []);
    ShapeContents(t, [b], []);
    assert [b] + [] == [b];
  }

  lemma {:induction false} PutFirstDone(r: State, b: Record, shrink: bool)
    requires Shape(r, [], []) && !Refused(r.limit, |b|)
    ensures Appended(r, [], [], PutFirst(r, b, shrink), 0, b)
  {
    var next := META + WORD + |b|;
    var p := Place(r, META, b).(head := META, next := next, noman := next, count := 1);
    AloneShape(r.file, b, p);
    NothingAfter([], [b], 0);
    Finish(r, [], [], 0, b, p, [b], []);
    StampKeeps(p, [b], []);
    if shrink { TruncateKeeps(Stamp(p), b); }
  }

  ghost predicate WrittenLast(r: State, b: Record, p: State) {
    && p.file == WriteAt(r.file, r.next, Frame(b))
    && p.head == r.head && p.next == r.next + WORD + |b| && p.noman == p.next && p.limit == r.limit
    && p.count == r.count + 1
  }

  lemma {:induction false} PutEndDone(r: State, q: seq<Record>, b: Record, p: State)
    requires Shape(r, q, []) && q != [] && r.head < r.next && r.next + WORD + |b| <= r.limit && |b| > 0
    requires WrittenLast(r, b, p)
    ensures Appended(r, q, [], Stamp(p), 0, b)
  {
    PlaceAtEnd(r, r.head, r.next, q, b);
    StorableAppend(q, 0, b);
    assert q[0..] == q;
    assert Shape(p, q + [b], []);
    NothingAfter(q, [b], 0);
    Finish(r, q, [], 0, b, p, q + [b], []);
  }

  // -- lines 111-126: wrap to the start of the file

  /** The mark is not stale, or what lies below `next` is room enough: the erase loop at lines 111-126
      then never reads past the newest record. */
  predicate WrapSafe(r: State, size: nat) {
    r.noman <= r.next || r.next >= META + size
  }

  lemma {:induction false} PutWrapErases(r: State, q: seq<Record>, size: nat)
    requires Shape(r, q, []) && q != [] && r.head < r.next && WrapSafe(r, size)
    ensures var freed := r.head - META;
            Erase(r.file, r.noman, r.head, r.count, freed, size)
            == Erased(r.head + CutSize(q, freed, size), r.count - Cut(q, freed, size), freed + CutSize(q, freed, size))
  {
    FlatChain(r.file, r.head, r.next, q);
    EraseCuts(r.file, r.noman, r.head, q, r.count, r.head - META, size);
  }

  lemma {:induction false} PutWrapLeast(r: State, q: seq<Record>, size: nat)
    requires Shape(r, q, []) && q != [] && r.head < r.next && r.next + size > r.limit
    ensures var k := Cut(q, r.head - META, size);
            Least(r, q, [], k, size) && (k < |q| ==> r.head - META + Size(q[..k]) >= size)
  {
    CutIsLeast(q, r.head - META, size);
  }

  /** The words and bytes the wrap leaves when the `k` oldest of `q` were erased. */
  ghost predicate WrappedOnto(r: State, q: seq<Record>, k: nat, b: Record, p: State)
    requires k <= |q|
  {
    && p.file == WriteAt(r.file, META, Frame(b))
    && p.head == (if k < |q| then r.head + Size(q[..k]) else META)
    && p.next == META + WORD + |b| && p.noman == r.next && p.limit == r.limit
    && p.count == r.count - k + 1
  }

  lemma {:induction false} PutWrapWords(r: State, b: Record, head: nat, count: nat, freed: nat)
    requires r.head >= META
    requires Erase(r.file, r.noman, r.head, r.count, r.head - META, WORD + |b|) == Erased(head, count, freed)
    ensures PutWrap(r, b) == State(WriteAt(r.file, META, Frame(b)), if head >= r.next then META else head,
                                   META + WORD + |b|, r.next, Increment(count), r.limit)
  {}

  lemma {:induction false} WrapOnto(r: State, q: seq<Record>, b: Record, k: nat, p: State)
    requires Shape(r, q, []) && q != [] && r.head < r.next && k <= |q|
    requires var head := r.head + Size(q[..k]);
             p == State(WriteAt(r.file, META, Frame(b)), if head >= r.next then META else head,
                        META + WORD + |b|, r.next, Increment(r.count - k), r.limit)
    ensures WrappedOnto(r, q, k, b, p)
  {
    FlatCut(r.file, r.head, r.next, q, k);
    ShapeCount(r, q, []);
    assert q[..|q|] == q;
  }

  lemma {:induction false} PutWrapOnto(r: State, q: seq<Record>, b: Record)
    requires Shape(r, q, []) && q != [] && r.head < r.next && WrapSafe(r, WORD + |b|)
    ensures WrappedOnto(r, q, Cut(q, r.head - META, WORD + |b|), b, PutWrap(r, b))
  {
    var freed, size := r.head - META, WORD + |b|;
    var k := Cut(q, freed, size);
    PutWrapErases(r, q, size);
    CutSizeIsSize(q, freed, size);
    PutWrapWords(r, b, r.head + Size(q[..k]), r.count - k, freed + Size(q[..k]));
    WrapOnto(r, q, b, k, PutWrap(r, b));
  }

  lemma {:induction false} PutWrapSome(r: State, q: seq<Record>, b: Record, k: nat, p: State)
    requires Shape(r, q, []) && q != [] && r.head < r.next && 1 <= |b| < OFFSET_LIMIT
    requires k < |q| && r.head - META + Size(q[..k]) >= WORD + |b|
    requires WrappedOnto(r, q, k, b, p)
    ensures Shape(p, q[k..], [b])
  {
    FlatCut(r.file, r.head, r.next, q, k);
    StorableAppend(q, k, b);
    PlaceAtEnd(r, META, META, [], b);
    assert [] + [b] == [b];
    WriteAtKeeps(r.file, META, Frame(b), p.head, r.next);
    assert Wrapped(p, q[k..], [b]);
  }

  lemma {:induction false} PutWrapAppends(r: State, q: seq<Record>, b: Record, k: nat, p: State)
    requires Shape(r, q, []) && q != [] && r.head < r.next && !Refused(r.limit, |b|)
    requires k <= |q| && Least(r, q, [], k, WORD + |b|)
    requires k < |q| ==> r.head - META + Size(q[..k]) >= WORD + |b|
    requires WrappedOnto(r, q, k, b, p)
    ensures Appended(r, q, [], Stamp(p), k, b)
  {
    NothingAfter(q, [b], k);
    if k < |q| {
      PutWrapSome(r, q, b, k, p);
      Finish(r, q, [], k, b, p, q[k..], [b]);
    } else {
      AloneShape(r.file, b, p);
      Finish(r, q, [], k, b, p, [b], []);
    }
  }

  lemma {:induction false} PutWrapDone(r: State, q: seq<Record>, b: Record, p: State)
    requires Shape(r, q, []) && q != [] && r.head < r.next && !Refused(r.limit, |b|)
    requires r.next + WORD + |b| > r.limit
    requires WrappedOnto(r, q, Cut(q, r.head - META, WORD + |b|), b, p)
    ensures Appended(r, q, [], Stamp(p), Cut(q, r.head - META, WORD + |b|), b)
  {
    var k := Cut(q, r.head - META, WORD + |b|);
    PutWrapLeast(r, q, WORD + |b|);
    PutWrapAppends(r, q, b, k, p);
  }

  // -- lines 140-190: write at `next <= head`

  lemma {:induction false} PutBehindWords(r: State, b: Record, m: State)
    requires MakeRoom(r, WORD + |b|) == m
    ensures var p := PutBehind(r, b);
            && p.file == Place(r, m.next, b).file && p.next == m.next + WORD + |b|
            && p.head == m.head && p.limit == r.limit && p.count == Increment(m.count)
            && p.noman == if p.next > p.head then p.next else m.noman
  {}

  lemma {:induction false} PutOverOldestErases(r: State, older: seq<Record>, newer: seq<Record>, size: nat)
    requires Shape(r, older, newer) && r.count > 0 && r.next <= r.head
    ensures var freed := r.head - r.next;
            Erase(r.file, r.noman, r.head, r.count, freed, size)
            == Erased(r.head + CutSize(older, freed, size), r.count - Cut(older, freed, size),
                      freed + CutSize(older, freed, size))
  {
    FlatChain(r.file, r.head, r.noman, older);
    EraseCuts(r.file, r.noman, r.head, older, r.count, r.head - r.next, size);
  }

  lemma {:induction false} PutOverOldestLeast(r: State, older: seq<Record>, newer: seq<Record>, size: nat)
    requires Shape(r, older, newer) && r.count > 0 && r.next <= r.head
    requires size <= r.noman - r.next
    ensures Least(r, older, newer, Cut(older, r.head - r.next, size), size)
  {
    FlatSize(older);
    CutIsLeast(older, r.head - r.next, size);
  }

  /** The words and bytes left when the `k` oldest of `older` gave way to a record at `next`. */
  ghost predicate WrittenOver(r: State, older: seq<Record>, k: nat, b: Record, p: State)
    requires k <= |older|
  {
    && p.file == WriteAt(r.file, r.next, Frame(b))
    && p.head == (if k < |older| then r.head + Size(older[..k]) else META)
    && p.next == r.next + WORD + |b| && p.limit == r.limit
    && p.noman == (if p.next > p.head then p.next else r.noman)
    && p.count == r.count - k + 1
  }

  lemma {:induction false} PutOverOldestWords(r: State, b: Record, head: nat, count: nat, freed: nat)
    requires META <= r.next <= r.head && r.head - r.next < WORD + |b| <= r.noman - r.next && r.next <= r.limit
    requires Erase(r.file, r.noman, r.head, r.count, r.head - r.next, WORD + |b|) == Erased(head, count, freed)
    ensures var p := PutBehind(r, b);
            && p.file == WriteAt(r.file, r.next, Frame(b)) && p.next == r.next + WORD + |b|
            && p.head == (if head >= r.noman then META else head) && p.limit == r.limit
            && p.count == Increment(count) && p.noman == (if p.next > p.head then p.next else r.noman)
  {
    PutBehindWords(r, b, BackToStart(r.(head := head, count := count)));
  }

  lemma {:induction false} OlderCut(r: State, older: seq<Record>, newer: seq<Record>, k: nat)
    requires Shape(r, older, newer) && r.count > 0 && r.next <= r.head && k <= |older|
    ensures r.head + Size(older[..k]) >= r.noman <==> k == |older|
    ensures k <= r.count && Increment(r.count - k) == r.count - k + 1
  {
    FlatCut(r.file, r.head, r.noman, older, k);
    ShapeCount(r, older, newer);
    assert older[..|older|] == older;
  }

  lemma {:induction false} PutOverOldestOver(r: State, older: seq<Record>, newer: seq<Record>, b: Record)
    requires Shape(r, older, newer) && r.count > 0 && r.next <= r.head
    requires r.head - r.next < WORD + |b| <= r.noman - r.next
    ensures WrittenOver(r, older, Cut(older, r.head - r.next, WORD + |b|), b, PutBehind(r, b))
  {
    var freed, size := r.head - r.next, WORD + |b|;
    var k := Cut(older, freed, size);
    PutOverOldestErases(r, older, newer, size);
    CutSizeIsSize(older, freed, size);
    PutOverOldestWords(r, b, r.head + Size(older[..k]), r.count - k, freed + Size(older[..k]));
    OlderCut(r, older, newer, k);
  }

  lemma {:induction false} PutInGapOver(r: State, older: seq<Record>, newer: seq<Record>, b: Record)
    requires Shape(r, older, newer) && r.count > 0 && r.next <= r.head && r.head - r.next >= WORD + |b|
    ensures WrittenOver(r, older, Cut(older, r.head - r.next, WORD + |b|), b, PutBehind(r, b))
  {
    PutBehindWords(r, b, r);
    ShapeCount(r, older, newer);
    FlatSize(older);
    assert older[..0] == [];
  }

  lemma {:induction false} PutOlderOver(r: State, older: seq<Record>, newer: seq<Record>, b: Record)
    requires Shape(r, older, newer) && r.count > 0 && r.next <= r.head && WORD + |b| <= r.noman - r.next
    ensures WrittenOver(r, older, Cut(older, r.head - r.next, WORD + |b|), b, PutBehind(r, b))
  {
    if r.head - r.next >= WORD + |b| {
      PutInGapOver(r, older, newer, b);
    } else {
      PutOverOldestOver(r, older, newer, b);
    }
  }

  lemma {:induction false} PutOverSome(r: State, older: seq<Record>, newer: seq<Record>, b: Record, k: nat, p: State)
    requires Shape(r, older, newer) && r.count > 0 && r.next <= r.head && 1 <= |b| < OFFSET_LIMIT
    requires k < |older| && r.head - r.next + Size(older[..k]) >= WORD + |b|
    requires WrittenOver(r, older, k, b, p)
    ensures Shape(p, older[k..], newer + [b])
  {
    FlatCut(r.file, r.head, r.noman, older, k);
    StorableAppend(older, k, b);
    StorableAppend(newer, 0, b);
    assert newer[0..] == newer;
    PlaceAtEnd(r, META, r.next, newer, b);
    WriteAtKeeps(r.file, r.next, Frame(b), p.head, r.noman);
    assert Wrapped(p, older[k..], newer + [b]);
  }

  lemma {:induction false} PutOverAllOlder(r: State, older: seq<Record>, newer: seq<Record>, b: Record, p: State)
    requires Shape(r, older, newer) && r.count > 0 && r.next <= r.head && 1 <= |b| < OFFSET_LIMIT
    requires r.next + WORD + |b| <= r.limit
    requires WrittenOver(r, older, |older|, b, p)
    ensures Shape(p, newer + [b], [])
  {
    StorableAppend(newer, 0, b);
    assert newer[0..] == newer;
    PlaceAtEnd(r, META, r.next, newer, b);
    assert Linear(p, newer + [b]);
  }

  lemma {:induction false} WrittenOverAppends(r: State, older: seq<Record>, newer: seq<Record>, b: Record, k: nat,
                                              p: State)
    requires Shape(r, older, newer) && r.count > 0 && r.next <= r.head && 1 <= |b| < OFFSET_LIMIT
    requires k <= |older| && Least(r, older, newer, k, WORD + |b|)
    requires if k < |older| then r.head - r.next + Size(older[..k]) >= WORD + |b| else r.next + WORD + |b| <= r.limit
    requires WrittenOver(r, older, k, b, p)
    ensures Appended(r, older, newer, Stamp(p), k, b)
  {
    if k < |older| {
      PutOverSome(r, older, newer, b, k, p);
      DropWithin(older, newer, [b], k);
      Finish(r, older, newer, k, b, p, older[k..], newer + [b]);
    } else {
      PutOverAllOlder(r, older, newer, b, p);
      DropFirst(older, newer, [b]);
      Finish(r, older, newer, k, b, p, newer + [b], []);
    }
  }

  lemma {:induction false} PutOverOldestDone(r: State, older: seq<Record>, newer: seq<Record>, b: Record, p: State)
    requires Shape(r, older, newer) && r.count > 0 && r.next <= r.head && 1 <= |b| < OFFSET_LIMIT
    requires WORD + |b| <= r.noman - r.next
    requires WrittenOver(r, older, Cut(older, r.head - r.next, WORD + |b|), b, p)
    ensures Appended(r, older, newer, Stamp(p), Cut(older, r.head - r.next, WORD + |b|), b)
  {
    PutOverOldestLeast(r, older, newer, WORD + |b|);
    FlatSize(older);
    CutReaches(older, r.head - r.next, WORD + |b|);
    WrittenOverAppends(r, older, newer, b, Cut(older, r.head - r.next, WORD + |b|), p);
  }

  lemma {:induction false} LeastAllOlder(r: State, older: seq<Record>, newer: seq<Record>, size: nat)
    requires Shape(r, older, newer) && r.count > 0 && r.next <= r.head
    requires r.noman - r.next < size <= r.limit - r.next
    ensures Least(r, older, newer, |older|, size)
  {
    FlatSize(older);
    forall j | 0 <= j < |older| ensures !Room(r, older, newer, j, size) {
      SizeMonotone(older, j, |older|);
    }
  }

  lemma {:induction false} PutAfterNewestErases(r: State, older: seq<Record>, newer: seq<Record>, size: nat)
    requires Shape(r, older, newer) && r.count > 0 && r.next <= r.head
    requires r.noman - r.next < size <= r.limit - r.next
    ensures var m := MakeRoom(r, size);
            m.head == META && m.next == r.next && m.noman == r.next && m.count == |newer|
  {
    FlatChain(r.file, r.head, r.noman, older);
    EraseCuts(r.file, r.noman, r.head, older, r.count, 0, r.limit);
    CutSizeIsSize(older, 0, r.limit);
    CutIsLeast(older, 0, r.limit);
    SizeMonotone(older, Cut(older, 0, r.limit), |older|);
  }

  lemma {:induction false} PutAfterNewestOver(r: State, older: seq<Record>, newer: seq<Record>, b: Record)
    requires Shape(r, older, newer) && r.count > 0 && r.next <= r.head
    requires r.noman - r.next < WORD + |b| <= r.limit - r.next
    ensures WrittenOver(r, older, |older|, b, PutBehind(r, b))
  {
    PutAfterNewestErases(r, older, newer, WORD + |b|);
    PutBehindWords(r, b, MakeRoom(r, WORD + |b|));
    ShapeCount(r, older, newer);
  }

  lemma {:induction false} PutAfterNewestDone(r: State, older: seq<Record>, newer: seq<Record>, b: Record, p: State)
    requires Shape(r, older, newer) && r.count > 0 && r.next <= r.head && |b| > 0
    requires r.noman - r.next < WORD + |b| <= r.limit - r.next
    requires WrittenOver(r, older, |older|, b, p)
    ensures Appended(r, older, newer, Stamp(p), |older|, b)
  {
    LeastAllOlder(r, older, newer, WORD + |b|);
    WrittenOverAppends(r, older, newer, b, |older|, p);
  }

  lemma {:induction false} LeastEverything(r: State, older: seq<Record>, newer: seq<Record>, size: nat)
    requires Shape(r, older, newer) && r.count > 0 && r.next <= r.head
    requires r.limit - r.next < size && r.next < META + size
    ensures Least(r, older, newer, |older| + |newer|, size)
  {
    FlatSize(older);
    FlatSize(newer);
    forall j | 0 <= j < |older| + |newer| ensures !Room(r, older, newer, j, size) {
      if j < |older| {
        SizeMonotone(older, j, |older|);
      } else {
        SizeMonotone(newer, j - |older|, |newer|);
      }
    }
  }

  lemma {:induction false} PutOverEverythingWords(r: State, b: Record)
    requires META <= r.next <= r.head && r.next <= r.noman <= r.limit
    requires r.limit - r.next < WORD + |b| && r.next < META + WORD + |b| && r.head - r.next < WORD + |b|
    ensures PutBehind(r, b)
            == State(WriteAt(r.file, META, Frame(b)), META, META + WORD + |b|, META + WORD + |b|, 1, r.limit)
  {
    PutBehindWords(r, b, r.(head := META, next := META, noman := META, count := 0));
  }

  lemma {:induction false} PutOverEverythingDone(r: State, older: seq<Record>, newer: seq<Record>, b: Record, p: State)
    requires Shape(r, older, newer) && r.count > 0 && r.next <= r.head && !Refused(r.limit, |b|)
    requires r.limit - r.next < WORD + |b| && r.next < META + WORD + |b|
    requires p == State(WriteAt(r.file, META, Frame(b)), META, META + WORD + |b|, META + WORD + |b|, 1, r.limit)
    ensures Appended(r, older, newer, Stamp(p), |older| + |newer|, b)
  {
    LeastEverything(r, older, newer, WORD + |b|);
    AloneShape(r.file, b, p);
    DropAll(older, newer, [b]);
    Finish(r, older, newer, |older| + |newer|, b, p, [b], []);
  }

  // -- the branches put together

  /** The guard of the two faulty paths, in words a caller can read off the header: the wrap of
      lines 111-126 under a stale mark, and the branch of lines 164-171. */
  predicate PutSafe(r: State, len: nat) {
    var size := WORD + len;
    if r.count == 0 then true
    else if r.head < r.next then r.next + size <= r.limit || WrapSafe(r, size)
    else r.limit - r.next >= size || r.next - META < size
  }

  lemma {:induction false} PutAtEnd(r: State, q: seq<Record>, b: Record, shrink: bool)
    requires Shape(r, q, []) && q != [] && r.head < r.next && !Refused(r.limit, |b|)
    requires r.next + WORD + |b| <= r.limit
    ensures Appended(r, q, [], Put(r, b, shrink), 0, b)
  {
    ShapeCount(r, q, []);
    PutEndDone(r, q, b, PutEnd(r, b));
  }

  lemma {:induction false} PutAtStart(r: State, q: seq<Record>, b: Record, shrink: bool)
    requires Shape(r, q, []) && q != [] && r.head < r.next && !Refused(r.limit, |b|)
    requires r.next + WORD + |b| > r.limit && WrapSafe(r, WORD + |b|)
    ensures Appended(r, q, [], Put(r, b, shrink), Cut(q, r.head - META, WORD + |b|), b)
  {
    PutWrapOnto(r, q, b);
    PutWrapDone(r, q, b, PutWrap(r, b));
  }

  lemma {:induction false} PutOverOldest(r: State, older: seq<Record>, newer: seq<Record>, b: Record, shrink: bool)
    requires Shape(r, older, newer) && r.count > 0 && r.next <= r.head && !Refused(r.limit, |b|)
    requires WORD + |b| <= r.noman - r.next
    ensures Appended(r, older, newer, Put(r, b, shrink), Cut(older, r.head - r.next, WORD + |b|), b)
  {
    PutOlderOver(r, older, newer, b);
    PutOverOldestDone(r, older, newer, b, PutBehind(r, b));
  }

  lemma {:induction false} PutAfterNewest(r: State, older: seq<Record>, newer: seq<Record>, b: Record, shrink: bool)
    requires Shape(r, older, newer) && r.count > 0 && r.next <= r.head && !Refused(r.limit, |b|)
    requires r.noman - r.next < WORD + |b| <= r.limit - r.next
    ensures Appended(r, older, newer, Put(r, b, shrink), |older|, b)
  {
    PutAfterNewestOver(r, older, newer, b);
    PutAfterNewestDone(r, older, newer, b, PutBehind(r, b));
  }

  lemma {:induction false} PutOverEverything(r: State, older: seq<Record>, newer: seq<Record>, b: Record, shrink: bool)
    requires Shape(r, older, newer) && r.count > 0 && r.next <= r.head && !Refused(r.limit, |b|)
    requires r.limit - r.next < WORD + |b| && r.next < META + WORD + |b|
    ensures Appended(r, older, newer, Put(r, b, shrink), |older| + |newer|, b)
  {
    PutOverEverythingWords(r, b);
    PutOverEverythingDone(r, older, newer, b, PutBehind(r, b));
  }

  /** A put that is safe drops as few of the oldest records as make room, and adds the new one last. */
  lemma {:induction false} PutAppends(r: State, older: seq<Record>, newer: seq<Record>, b: Record, shrink: bool)
    requires Shape(r, older, newer) && !Refused(r.limit, |b|) && PutSafe(r, |b|)
    ensures exists k :: Appended(r, older, newer, Put(r, b, shrink), k, b)
  {
    if r.count == 0 {
      assert older == [] && newer == [];
      PutFirstDone(r, b, shrink);
      assert Put(r, b, shrink) == PutFirst(r, b, shrink);
    } else if r.head < r.next {
      if r.next + WORD + |b| <= r.limit {
        PutAtEnd(r, older, b, shrink);
      } else {
        PutAtStart(r, older, b, shrink);
      }
    } else if r.noman - r.next >= WORD + |b| {
      PutOverOldest(r, older, newer, b, shrink);
    } else if r.limit - r.next >= WORD + |b| {
      PutAfterNewest(r, older, newer, b, shrink);
    } else {
      PutOverEverything(r, older, newer, b, shrink);
    }
  }

  lemma {:induction false} PutLimit(r: State, x: Record, shrink: bool)
    ensures Put(r, x, shrink).limit == r.limit
  {}
}
