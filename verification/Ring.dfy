/** The file-backed ring buffer as a function of its five words and its bytes. */
module Ring {
  import opened Bytes
  import opened Frames

  /** `metaLen()`: five words. */
  const META := 40

  /** `file` is the whole file; the words are the in-memory copies of the header. */
  datatype State = State(file: seq<byte>, head: nat, next: nat, noman: nat, count: nat, limit: nat)

  function Meta(r: State): (s: seq<byte>)
    ensures |s| == META
  {
    Word(r.head) + Word(r.next) + Word(r.noman) + Word(r.count) + Word(r.limit)
  }

  /** `saveMeta` */
  function Stamp(r: State): State {
    r.(file := WriteAt(r.file, 0, Meta(r)))
  }

  /** `newRingBuFi`: a missing file is created, an existing one brings its own limit. */
  function Open(existing: seq<byte>, exists_: bool, limit: nat): State {
    if exists_ then
      State(existing, ReadWord(existing, 0), ReadWord(existing, 8), ReadWord(existing, 16),
            ReadWord(existing, 24), ReadWord(existing, 32))
    else
      Stamp(State([], META, META, META, 0, limit))
  }

  datatype Erased = Erased(head: nat, count: nat, freed: nat)

  /** `eraseEnoughSpaceOrEof`; the count is a `size_t` and wraps below zero. */
  function Erase(file: seq<byte>, noman: nat, head: nat, count: nat, freed: nat, want: nat): Erased
    decreases noman - head
  {
    if freed < want && head < noman then
      var size := ReadWord(file, head) + WORD;
      Erase(file, noman, head + size, Decrement(count), freed + size, want)
    else
      Erased(head, count, freed)
  }

  function Decrement(count: nat): nat {
    if count == 0 then SIZE_T_LIMIT - 1 else count - 1
  }

  function Increment(count: nat): nat {
    if count + 1 == SIZE_T_LIMIT then 0 else count + 1
  }

  function EraseFrom(r: State, freed: nat, want: nat): State {
    var e := Erase(r.file, r.noman, r.head, r.count, freed, want);
    r.(head := e.head, count := e.count)
  }

  /** A difference of two `size_t`, which wraps below zero. */
  function Sub(a: nat, b: nat): nat {
    if a >= b then a - b else (a - b) % SIZE_T_LIMIT
  }

  /** `sizeLimit - metaLen() < len + sizeof(len)`, or nothing to write. */
  predicate Refused(limit: nat, len: nat) {
    len == 0 || Sub(limit, META) < len + WORD
  }

  function Place(r: State, at: nat, b: Record): State {
    r.(file := WriteAt(r.file, at, Frame(b)))
  }

  function BackToStart(r: State): State {
    if r.head >= r.noman then r.(head := META) else r
  }

  /** Lines 93-109; `shrink` says whether `ftruncate` succeeded. */
  function PutFirst(r: State, b: Record, shrink: bool): State {
    var next := META + WORD + |b|;
    var s := Stamp(Place(r, META, b).(head := META, next := next, noman := next, count := 1));
    if shrink then s.(file := Truncate(s.file, next)) else s
  }

  /** Lines 111-125; each non-empty case of a put ends in `saveMeta`, see `Put`. */
  function PutWrap(r: State, b: Record): State {
    var e := Place(EraseFrom(r, Sub(r.head, META), WORD + |b|), META, b);
    var t := BackToStart(e.(count := Increment(e.count), noman := r.next));
    t.(next := WORD + |b| + META)
  }

  /** Lines 128-134 */
  function PutEnd(r: State, b: Record): State {
    var next := r.next + WORD + |b|;
    Place(r, r.next, b).(count := Increment(r.count), next := next, noman := next)
  }

  /** Lines 140-181: the space made before a record is written at `next <= head`. */
  function MakeRoom(r: State, size: nat): State {
    if Sub(r.head, r.next) >= size then r
    else if Sub(r.noman, r.next) >= size then BackToStart(EraseFrom(r, Sub(r.head, r.next), size))
    else if Sub(r.limit, r.next) >= size then EraseFrom(r, 0, r.limit).(head := META, noman := r.next)
    else if Sub(r.next, META) >= size then EraseFrom(r.(head := META, noman := r.next), 0, size)
    else r.(head := META, next := META, noman := META, count := 0)
  }

  /** Lines 182-189 */
  function PutBehind(r: State, b: Record): State {
    var m := MakeRoom(r, WORD + |b|);
    var p := Place(m, m.next, b);
    var t := p.(count := Increment(p.count), next := p.next + WORD + |b|);
    if t.next > t.head then t.(noman := t.next) else t
  }

  /** What every completed put and pop leaves behind, apart from the records themselves. */
  ghost predicate Shape(r: State, older: seq<Record>, newer: seq<Record>) {
    && META <= r.limit < OFFSET_LIMIT
    && META <= |r.file| <= r.limit
    && Storable(older) && Storable(newer)
    && r.count == |older| + |newer|
    && if r.count == 0 then
         r.head == META && r.next == META && r.noman == META
       else if r.head < r.next then
         Linear(r, older) && newer == []
       else
         Wrapped(r, older, newer)
  }

  /** One run of records in `[head, next)`. The mark may be stale: beyond `next` after a pop
      crossed it, or below `next` after one long record replaced everything. */
  ghost predicate Linear(r: State, q: seq<Record>) {
    && META <= r.head < r.next <= r.limit && r.next <= |r.file|
    && r.file[r.head..r.next] == Flat(q)
    && META < r.noman <= r.limit
    && (r.next <= r.noman || (|q| == 1 && r.head == META))
  }

  /** The oldest records in `[head, nomanland)`, the newest in `[META, next)`. */
  ghost predicate Wrapped(r: State, older: seq<Record>, newer: seq<Record>) {
    && META < r.next <= r.head < r.noman <= r.limit && r.noman <= |r.file|
    && r.file[r.head..r.noman] == Flat(older)
    && r.file[META..r.next] == Flat(newer)
  }

  /** The records the words and bytes stand for, oldest first. */
  function Older(r: State): seq<Record> {
    if r.count == 0 then []
    else if r.head < r.next then Slice(r.file, r.head, r.next)
    else Slice(r.file, r.head, r.noman)
  }

  function Newer(r: State): seq<Record> {
    if r.count == 0 || r.head < r.next then [] else Slice(r.file, META, r.next)
  }

  function Slice(file: seq<byte>, lo: nat, hi: nat): seq<Record> {
    if lo <= hi <= |file| then Parse(file[lo..hi]) else []
  }

  function Contents(r: State): seq<Record> {
    Older(r) + Newer(r)
  }

  /** A well-formed file whose header agrees with the words in memory. */
  ghost predicate Valid(r: State) {
    Shape(r, Older(r), Newer(r)) && r.file[..META] == Meta(r)
  }

  lemma ShapeContents(r: State, older: seq<Record>, newer: seq<Record>)
    requires Shape(r, older, newer)
    ensures older == Older(r) && newer == Newer(r)
    ensures Contents(r) == older + newer
  {
    ParseFlat(older);
    ParseFlat(newer);
  }

  function Put(r: State, b: Record, shrink: bool): State {
    if Refused(r.limit, |b|) then r
    else if r.count == 0 then PutFirst(r, b, shrink)
    else if r.next > r.head then
      Stamp(if r.next + WORD + |b| > r.limit then PutWrap(r, b) else PutEnd(r, b))
    else Stamp(PutBehind(r, b))
  }

  /** `int len = readSizet(...)`: a length read back through a 32-bit `int`. */
  function ToInt(v: nat): int {
    var low := v % 0x1_0000_0000;
    if low < 0x8000_0000 then low else low - 0x1_0000_0000
  }

  /** The next record's place as `pop` computes it. */
  function PopTarget(r: State): nat {
    (r.head + ToInt(ReadWord(r.file, r.head)) + WORD) % SIZE_T_LIMIT
  }

  /** Lines 217-221 */
  function PopHead(r: State): nat {
    if PopTarget(r) > r.next && PopTarget(r) >= r.noman then META else PopTarget(r)
  }

  function Pop(r: State, shrink: bool): State {
    if r.count == 0 then r
    else
      var p := r.(head := PopHead(r), count := r.count - 1);
      Stamp(if p.count > 0 then p
            else p.(file := if shrink then Truncate(p.file, META) else p.file,
                    head := META, next := META, noman := META))
  }

  datatype Peeked = Nothing | Peeked(record: Record)

  function Peek(r: State): Peeked {
    if r.head == r.next then Nothing
    else
      var from := Min(r.head + WORD, |r.file|);
      Peeked(r.file[from..Min(from + ReadWord(r.file, r.head), |r.file|)])
  }
}
