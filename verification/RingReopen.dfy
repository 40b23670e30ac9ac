/** What stays on disk: the header is never overwritten by a record, and says where everything is. */
module RingReopen {
  import opened Bytes
  import opened Frames
  import opened Ring
  import opened RingProofs
  import opened RingPut
  import opened RingPop
  import RingFifo

  predicate FitsWords(p: State) {
    && p.head < SIZE_T_LIMIT && p.next < SIZE_T_LIMIT && p.noman < SIZE_T_LIMIT
    && p.count < SIZE_T_LIMIT && p.limit < SIZE_T_LIMIT
  }

  /** `saveMeta` and a later `newRingBuFi` are inverse, whatever the limit passed in. */
  lemma {:induction false} StampThenOpen(p: State, limit: nat)
    requires FitsWords(p)
    ensures Open(Stamp(p).file, true, limit) == Stamp(p)
  {
    var m, s := Meta(p), Stamp(p);
    assert s.file[..META] == m;
    FiveWords(Word(p.head), Word(p.next), Word(p.noman), Word(p.count), Word(p.limit));
    HeaderWord(s.file, m, 0, p.head);
    HeaderWord(s.file, m, 8, p.next);
    HeaderWord(s.file, m, 16, p.noman);
    HeaderWord(s.file, m, 24, p.count);
    HeaderWord(s.file, m, 32, p.limit);
  }

  /** The file after a put, before `saveMeta`. */
  function Written(r: State, b: Record): State {
    if r.count == 0 then Place(r, META, b)
    else if r.next > r.head then
      if r.next + WORD + |b| > r.limit then PutWrap(r, b) else PutEnd(r, b)
    else PutBehind(r, b)
  }

  /** The header is there and records are added behind it. */
  predicate PastHeader(r: State) {
    META <= r.next && META <= |r.file|
  }

  /** No put writes a record over any of the header's bytes, safe or not. */
  lemma {:induction false} RecordsSpareHeader(r: State, b: Record)
    requires PastHeader(r)
    ensures META <= |Written(r, b).file| && Written(r, b).file[..META] == r.file[..META]
    ensures !Refused(r.limit, |b|) && r.count > 0 ==> Put(r, b, true) == Stamp(Written(r, b))
  {
    PlaceSpares(r, META, b);
    PlaceSpares(r, r.next, b);
    PutPlaces(r, b);
  }

  lemma {:induction false} PlaceSpares(r: State, at: nat, b: Record)
    requires META <= at && META <= |r.file|
    ensures META <= |Place(r, at, b).file| && Place(r, at, b).file[..META] == r.file[..META]
  {
    WriteAtKeeps(r.file, at, Frame(b), 0, META);
  }

  lemma {:induction false} RoomPlaces(r: State, size: nat)
    ensures MakeRoom(r, size).next == r.next || MakeRoom(r, size).next == META
    ensures MakeRoom(r, size).file == r.file
  {}

  lemma {:induction false} BehindPlaces(r: State, m: State, b: Record)
    requires m == MakeRoom(r, WORD + |b|)
    ensures PutBehind(r, b).file == WriteAt(r.file, m.next, Frame(b)) && PutBehind(r, b).next == m.next + WORD + |b|
  {
    RoomPlaces(r, WORD + |b|);
  }

  lemma {:induction false} PutPlaces(r: State, b: Record)
    ensures PutBehind(r, b).file == Place(r, r.next, b).file || PutBehind(r, b).file == Place(r, META, b).file
    ensures PutWrap(r, b).file == Place(r, META, b).file && PutEnd(r, b).file == Place(r, r.next, b).file
    ensures PutBehind(r, b).next >= r.next || PutBehind(r, b).next >= META
  {
    RoomPlaces(r, WORD + |b|);
    BehindPlaces(r, MakeRoom(r, WORD + |b|), b);
  }

  /** And every put and pop, from any file at all, leaves it so. */
  lemma {:induction false} StaysPastHeader(r: State, b: Record, shrink: bool)
    requires PastHeader(r)
    ensures PastHeader(Put(r, b, shrink)) && PastHeader(Pop(r, shrink))
  {
    RecordsSpareHeader(r, b);
    PutPlaces(r, b);
  }

  lemma {:induction false} RunFromPastHeader(r: State, ops: seq<RingFifo.Op>)
    requires PastHeader(r)
    ensures PastHeader(RingFifo.Run(r, ops))
    decreases |ops|
  {
    if ops != [] {
      var b := if ops[0].PutOp? then ops[0].record else [];
      StaysPastHeader(r, b, ops[0].shrink);
      RunFromPastHeader(RingFifo.Step(r, ops[0]), ops[1..]);
    }
  }

  /** So it is over every run of puts and pops on a new file, whatever the limit and whatever goes wrong. */
  lemma {:induction false} RunStaysPastHeader(limit: nat, ops: seq<RingFifo.Op>)
    ensures PastHeader(RingFifo.Run(Open([], false, limit), ops))
  {
    RunFromPastHeader(Open([], false, limit), ops);
  }

  /** After any completed put or pop that kept the queue, reopening gives the same words and the same queue. */
  lemma {:induction false} ReopenAfter(r: State, b: Record, shrink: bool, limit: nat)
    requires Valid(r)
    ensures Refused(r.limit, |b|) || PutSafe(r, |b|) ==> Open(Put(r, b, shrink).file, true, limit) == Put(r, b, shrink)
    ensures PopSafe(r) ==> Open(Pop(r, shrink).file, true, limit) == Pop(r, shrink)
  {
    PutCorrect(r, b, shrink);
    PopCorrect(r, shrink);
    if Valid(Put(r, b, shrink)) { ReopenRestores(Put(r, b, shrink), limit); }
    if Valid(Pop(r, shrink)) { ReopenRestores(Pop(r, shrink), limit); }
  }
}
