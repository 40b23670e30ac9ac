/** Records of one size: the file is exactly a first-in first-out queue of fixed capacity. */
module RingFifo {
  import opened Bytes
  import opened Frames
  import opened Ring
  import opened RingProofs
  import opened RingPut
  import opened RingPop

  /** Offset of the `i`-th record of `size` bytes. */
  function Slot(i: nat, size: nat): (offset: nat)
    ensures offset >= META
  {
    if i == 0 then META else Slot(i - 1, size) + size
  }

  lemma {:induction false} SlotStep(i: nat, j: nat, size: nat)
    requires size > 0
    ensures i < j ==> Slot(i, size) + size <= Slot(j, size)
    ensures i <= j ==> Slot(i, size) <= Slot(j, size)
    ensures i > j ==> Slot(i, size) > Slot(j, size)
    decreases i + j
  {
    if i < j { SlotStep(i, j - 1, size); }
    if i > j { SlotStep(i - 1, j, size); }
  }

  lemma {:induction false} SlotAdd(i: nat, j: nat, size: nat)
    ensures Slot(i + j, size) + META == Slot(i, size) + Slot(j, size)
  {
    if j > 0 { SlotAdd(i, j - 1, size); }
  }

  lemma {:induction false} SlotIsProduct(i: nat, size: nat)
    ensures Slot(i, size) == META + i * size
  {
    if i > 0 { SlotIsProduct(i - 1, size); }
  }

  ghost predicate OfSize(q: seq<Record>, size: nat) {
    forall r :: r in q ==> WORD + |r| == size
  }

  lemma {:induction false} SizeOfEqual(q: seq<Record>, size: nat)
    requires OfSize(q, size)
    ensures META + Size(q) == Slot(|q|, size)
  {
    if q != [] {
      assert q[0] in q;
      assert forall r :: r in q[1..] ==> r in q;
      SizeOfEqual(q[1..], size);
    }
  }

  /** How many records of `size` bytes the file can hold. */
  function Capacity(limit: nat, size: nat): nat
    requires size > 0
  {
    if limit < META then 0 else (limit - META) / size
  }

  lemma {:induction false} CapacityFits(limit: nat, size: nat)
    requires size > 0 && META <= limit
    ensures var k := Capacity(limit, size); Slot(k, size) <= limit < Slot(k + 1, size)
  {
    SlotIsProduct(Capacity(limit, size), size);
    SlotIsProduct(Capacity(limit, size) + 1, size);
    var n := limit - META;
    assert n == (n / size) * size + n % size;
  }

  /** Head and next stand at record boundaries, `a` and `b` slots in; a wrapped file ends at its capacity. */
  ghost predicate OnSlots(r: State, size: nat, a: nat, b: nat, k: nat) {
    r.count > 0 ==>
      && r.head == Slot(a, size) && r.next == Slot(b, size)
      && (if r.head < r.next then b <= k && (r.noman == r.next || r.noman == Slot(k, size))
          else r.noman == Slot(k, size))
  }

  ghost predicate Aligned(r: State, older: seq<Record>, newer: seq<Record>, size: nat, a: nat, b: nat, k: nat) {
    && Shape(r, older, newer) && OfSize(older, size) && OfSize(newer, size)
    && 0 < k && size > WORD && Slot(k, size) <= r.limit < Slot(k + 1, size)
    && OnSlots(r, size, a, b, k)
  }

  /** The positions say how many records there are. */
  lemma {:induction false} AlignedCount(r: State, older: seq<Record>, newer: seq<Record>, size: nat,
                                        a: nat, b: nat, k: nat)
    requires Aligned(r, older, newer, size, a, b, k) && r.count > 0
    ensures r.head < r.next ==> a < b && a + |older| == b && r.count == b - a
    ensures r.next <= r.head ==> 0 < b <= a < k && a + |older| == k && |newer| == b && r.count == k - a + b
    ensures r.count <= k
  {
    SizeOfEqual(older, size);
    SizeOfEqual(newer, size);
    FlatSize(older);
    FlatSize(newer);
    SlotAdd(a, |older|, size);
    var end := if r.head < r.next then b else k;
    SlotStep(a + |older|, end, size);
    SlotStep(end, a + |older|, size);
    if r.next <= r.head {
      SlotStep(|newer|, b, size);
      SlotStep(b, |newer|, size);
      SlotStep(a, b, size);
    }
  }

  /** Lines 153-180 are never reached: the records after the newest always leave room for one more. */
  lemma {:induction false} AlignedSafe(r: State, older: seq<Record>, newer: seq<Record>, size: nat,
                                       a: nat, b: nat, k: nat)
    requires Aligned(r, older, newer, size, a, b, k) && r.count > 0
    ensures r.next <= r.head ==> r.noman - r.next >= size
    ensures r.head < r.next ==> (r.next + size <= r.limit <==> b < k) && r.noman >= r.next
    ensures r.head < r.next && b == k ==> r.noman == r.next
    ensures PutSafe(r, size - WORD)
  {
    AlignedCount(r, older, newer, size, a, b, k);
    SlotStep(b, k, size);
    SlotStep(k, b, size);
    assert Slot(b + 1, size) == Slot(b, size) + size;
    SlotStep(b + 1, k, size);
  }

  // ---- one put ----

  /** With room for another record nothing is dropped; otherwise exactly the oldest is. */
  lemma {:induction false} AlignedDrops(r: State, older: seq<Record>, newer: seq<Record>, size: nat,
                                        a: nat, b: nat, k: nat, j: nat)
    requires Aligned(r, older, newer, size, a, b, k) && Least(r, older, newer, j, size)
    ensures j == if r.count == k then 1 else 0
  {
    if r.count > 0 {
      AlignedCount(r, older, newer, size, a, b, k);
      AlignedSafe(r, older, newer, size, a, b, k);
      SlotStep(a, b, size);
      SlotStep(b, a, size);
      SlotStep(0, a, size);
      assert older[..0] == [];
      assert older[..1] == [older[0]];
      SizeOfOne(older[0]);
      assert older[0] in older;
      assert newer[..0] == [];
      assert Room(r, older, newer, 0, size) <==> r.count < k;
      assert Room(r, older, newer, 1, size);
    }
  }

  lemma {:induction false} SlotsAtEnd(r: State, older: seq<Record>, size: nat, a: nat, b: nat, k: nat, x: Record)
    requires Aligned(r, older, [], size, a, b, k) && r.count > 0 && r.head < r.next && WORD + |x| == size && b < k
    ensures OnSlots(PutEnd(r, x), size, a, b + 1, k)
  {}

  lemma {:induction false} SlotsAtStart(r: State, older: seq<Record>, size: nat, a: nat, b: nat, k: nat,
                                        x: Record, p: State)
    requires Aligned(r, older, [], size, a, b, k) && r.count > 0 && r.head < r.next && WORD + |x| == size && b == k
    requires WrappedOnto(r, older, Cut(older, r.head - META, size), x, p)
    ensures OnSlots(p, size, if a > 0 then a else if k > 1 then 1 else 0, 1, k)
  {
    AlignedCount(r, older, [], size, a, b, k);
    SlotStep(0, a, size);
    assert older[0] in older;
    if a > 0 {
      SlotStep(1, a, size);
      assert older[..0] == [];
    } else {
      assert Cut(older, 0, size) == 1;
      assert older[..1] == [older[0]];
      SizeOfOne(older[0]);
    }
  }

  lemma {:induction false} SlotsBehind(r: State, older: seq<Record>, newer: seq<Record>, size: nat,
                                       a: nat, b: nat, k: nat, x: Record, p: State)
    requires Aligned(r, older, newer, size, a, b, k) && r.count > 0 && r.next <= r.head && WORD + |x| == size
    requires WrittenOver(r, older, Cut(older, r.head - r.next, size), x, p)
    ensures OnSlots(p, size, if a > b then a else if a + 1 < k then a + 1 else 0, b + 1, k)
  {
    AlignedCount(r, older, newer, size, a, b, k);
    SlotStep(b, a, size);
    SlotStep(b + 1, a, size);
    assert older[0] in older;
    if a > b {
      assert older[..0] == [];
    } else {
      assert Cut(older, 0, size) == 1;
      assert older[..1] == [older[0]];
      SizeOfOne(older[0]);
    }
  }

  /** The slots of head and next after a put. */
  function HeadAfterPut(r: State, a: nat, b: nat, k: nat): nat {
    if r.count == 0 then 0
    else if r.head < r.next then
      if b < k || a > 0 then a else if k > 1 then 1 else 0
    else
      if a > b then a else if a + 1 < k then a + 1 else 0
  }

  function NextAfterPut(r: State, b: nat, k: nat): nat {
    if r.count == 0 || (r.head < r.next && b >= k) then 1 else b + 1
  }

  lemma {:induction false} AlignedAccepts(r: State, older: seq<Record>, newer: seq<Record>, size: nat,
                                          a: nat, b: nat, k: nat)
    requires Aligned(r, older, newer, size, a, b, k)
    ensures !Refused(r.limit, size - WORD) && PutSafe(r, size - WORD)
  {
    SlotStep(1, k, size);
    assert Slot(1, size) == Slot(0, size) + size == META + size;
    if r.count > 0 { AlignedSafe(r, older, newer, size, a, b, k); }
  }

  lemma {:induction false} SlotsLinear(r: State, older: seq<Record>, size: nat, a: nat, b: nat, k: nat, x: Record)
    requires Aligned(r, older, [], size, a, b, k) && WORD + |x| == size && r.count > 0 && r.head < r.next
    ensures var t := if r.next + size > r.limit then PutWrap(r, x) else PutEnd(r, x);
            OnSlots(t, size, HeadAfterPut(r, a, b, k), NextAfterPut(r, b, k), k)
  {
    AlignedSafe(r, older, [], size, a, b, k);
    if b < k {
      SlotsAtEnd(r, older, size, a, b, k, x);
    } else {
      PutWrapOnto(r, older, x);
      SlotsAtStart(r, older, size, a, b, k, x, PutWrap(r, x));
    }
  }

  lemma {:induction false} SlotsWrapped(r: State, older: seq<Record>, newer: seq<Record>, size: nat,
                                        a: nat, b: nat, k: nat, x: Record, p: State)
    requires Aligned(r, older, newer, size, a, b, k) && WORD + |x| == size && r.count > 0 && r.next <= r.head
    requires WrittenOver(r, older, Cut(older, r.head - r.next, WORD + |x|), x, p)
    ensures OnSlots(p, size, HeadAfterPut(r, a, b, k), NextAfterPut(r, b, k), k)
  {
    SlotsBehind(r, older, newer, size, a, b, k, x, p);
  }

  lemma {:induction false} PutSlotsFirst(r: State, size: nat, k: nat, x: Record, shrink: bool)
    requires r.count == 0 && WORD + |x| == size && 0 < k
    ensures OnSlots(PutFirst(r, x, shrink), size, 0, 1, k)
  {
    assert Slot(1, size) == Slot(0, size) + size;
  }

  lemma {:induction false} PutSlotsWrapped(r: State, older: seq<Record>, newer: seq<Record>, size: nat,
                                           a: nat, b: nat, k: nat, x: Record)
    requires Aligned(r, older, newer, size, a, b, k) && WORD + |x| == size && r.count > 0 && r.next <= r.head
    requires size <= r.noman - r.next
    ensures OnSlots(PutBehind(r, x), size, HeadAfterPut(r, a, b, k), NextAfterPut(r, b, k), k)
  {
    PutOlderOver(r, older, newer, x);
    SlotsWrapped(r, older, newer, size, a, b, k, x, PutBehind(r, x));
  }

  lemma {:induction false} AlignedPutSlots(r: State, older: seq<Record>, newer: seq<Record>, size: nat,
                                           a: nat, b: nat, k: nat, x: Record, shrink: bool)
    requires Aligned(r, older, newer, size, a, b, k) && WORD + |x| == size
    ensures OnSlots(Put(r, x, shrink), size, HeadAfterPut(r, a, b, k), NextAfterPut(r, b, k), k)
  {
    AlignedAccepts(r, older, newer, size, a, b, k);
    if r.count == 0 {
      PutSlotsFirst(r, size, k, x, shrink);
    } else if r.head < r.next {
      SlotsLinear(r, older, size, a, b, k, x);
    } else {
      AlignedSafe(r, older, newer, size, a, b, k);
      PutSlotsWrapped(r, older, newer, size, a, b, k, x);
    }
  }

  lemma {:induction false} OfSizeParts(q: seq<Record>, x: Record, j: nat, older: seq<Record>, newer: seq<Record>,
                                       size: nat)
    requires OfSize(q, size) && WORD + |x| == size && j <= |q| && older + newer == q[j..] + [x]
    ensures OfSize(older, size) && OfSize(newer, size)
  {
    forall r | r in older || r in newer ensures WORD + |r| == size {
      assert r in older + newer;
      assert r in q[j..] || r == x;
      assert r in q[j..] ==> r in q;
    }
  }

  lemma {:induction false} FifoAfter(r: State, older: seq<Record>, newer: seq<Record>, size: nat,
                                     a: nat, b: nat, k: nat, j: nat, x: Record)
    requires Aligned(r, older, newer, size, a, b, k) && WORD + |x| == size
    requires Least(r, older, newer, j, WORD + |x|)
    ensures (older + newer)[j..] + [x] == FifoPut(older + newer, x, k)
  {
    AlignedDrops(r, older, newer, size, a, b, k, j);
    if r.count > 0 { AlignedCount(r, older, newer, size, a, b, k); }
    DroppedOne(older + newer, j, k, x);
  }

  lemma {:induction false} DroppedOne(q: seq<Record>, j: nat, k: nat, x: Record)
    requires |q| <= k && 0 < k && j == if |q| == k then 1 else 0
    ensures q[j..] + [x] == FifoPut(q, x, k)
  {}

  lemma {:induction false} AlignedAfter(r: State, older: seq<Record>, newer: seq<Record>, size: nat,
                                        a: nat, b: nat, k: nat, j: nat, x: Record, t: State, a': nat, b': nat)
    requires Aligned(r, older, newer, size, a, b, k) && WORD + |x| == size
    requires Appended(r, older, newer, t, j, x) && OnSlots(t, size, a', b', k)
    ensures Aligned(t, Older(t), Newer(t), size, a', b', k)
  {
    assert forall y :: y in older + newer ==> y in older || y in newer;
    OfSizeParts(older + newer, x, j, Older(t), Newer(t), size);
  }

  lemma {:induction false} AlignedPutAppends(r: State, older: seq<Record>, newer: seq<Record>, size: nat,
                                             a: nat, b: nat, k: nat, x: Record, shrink: bool)
    requires Aligned(r, older, newer, size, a, b, k) && WORD + |x| == size
    ensures exists j :: Appended(r, older, newer, Put(r, x, shrink), j, x)
  {
    AlignedAccepts(r, older, newer, size, a, b, k);
    PutAppends(r, older, newer, x, shrink);
  }

  lemma {:induction false} AlignedPutDone(r: State, older: seq<Record>, newer: seq<Record>, size: nat,
                                          a: nat, b: nat, k: nat, j: nat, x: Record, t: State, a': nat, b': nat)
    requires Aligned(r, older, newer, size, a, b, k) && WORD + |x| == size
    requires Appended(r, older, newer, t, j, x)
    requires OnSlots(t, size, a', b', k)
    ensures Aligned(t, Older(t), Newer(t), size, a', b', k) && Contents(t) == FifoPut(older + newer, x, k)
  {
    AlignedAfter(r, older, newer, size, a, b, k, j, x, t, a', b');
    FifoAfter(r, older, newer, size, a, b, k, j, x);
  }

  lemma {:induction false} AlignedPut(r: State, size: nat, a: nat, b: nat, k: nat, x: Record, shrink: bool)
    requires Aligned(r, Older(r), Newer(r), size, a, b, k) && WORD + |x| == size
    ensures var t := Put(r, x, shrink);
            && Valid(t) && Aligned(t, Older(t), Newer(t), size, HeadAfterPut(r, a, b, k), NextAfterPut(r, b, k), k)
            && Contents(t) == FifoPut(Contents(r), x, k)
  {
    AlignedPutSlots(r, Older(r), Newer(r), size, a, b, k, x, shrink);
    AlignedPutAppends(r, Older(r), Newer(r), size, a, b, k, x, shrink);
    var j :| Appended(r, Older(r), Newer(r), Put(r, x, shrink), j, x);
    AlignedPutDone(r, Older(r), Newer(r), size, a, b, k, j, x, Put(r, x, shrink),
                   HeadAfterPut(r, a, b, k), NextAfterPut(r, b, k));
  }

  /** The model: a queue that drops its oldest entry when it holds `k`. */
  function FifoPut(q: seq<Record>, x: Record, k: nat): seq<Record> {
    (if q != [] && |q| >= k then q[1..] else q) + [x]
  }

  function FifoPop(q: seq<Record>): seq<Record> {
    if q == [] then [] else q[1..]
  }

  // ---- one pop ----

  lemma {:induction false} PopSlotsLinear(r: State, size: nat, a: nat, b: nat, k: nat, t: State)
    requires OnSlots(r, size, a, b, k) && r.count > 0 && r.head < r.next && a + 1 < b && size > 0
    requires t.next == r.next && t.noman == r.noman && t.head == r.head + size
    ensures OnSlots(t, size, a + 1, b, k)
  {
    assert Slot(a + 1, size) == Slot(a, size) + size;
    SlotStep(a + 1, b, size);
  }

  lemma {:induction false} PopSlotsWrapped(r: State, size: nat, a: nat, b: nat, k: nat, t: State)
    requires OnSlots(r, size, a, b, k) && r.count > 0 && r.next <= r.head && 0 < b <= a < k && size > 0
    requires t.next == r.next && t.noman == r.noman
    requires t.head == if r.head + size >= r.noman then META else r.head + size
    ensures OnSlots(t, size, if a + 1 == k then 0 else a + 1, b, k)
  {
    assert Slot(a + 1, size) == Slot(a, size) + size;
    SlotStep(a + 1, k, size);
    SlotStep(b, a + 1, size);
  }

  lemma {:induction false} PopSlots(r: State, older: seq<Record>, newer: seq<Record>, size: nat,
                                    a: nat, b: nat, k: nat, t: State)
    requires Aligned(r, older, newer, size, a, b, k) && r.count > 1 && older != []
    requires t.next == r.next && t.noman == r.noman && t.count == r.count - 1
    requires var head := r.head + WORD + |older[0]|;
             t.head == if r.head >= r.next && head >= r.noman then META else head
    ensures OnSlots(t, size, if r.next <= r.head && a + 1 == k then 0 else a + 1, b, k)
  {
    AlignedCount(r, older, newer, size, a, b, k);
    assert older[0] in older;
    if r.head < r.next {
      PopSlotsLinear(r, size, a, b, k, t);
    } else {
      PopSlotsWrapped(r, size, a, b, k, t);
    }
  }

  lemma {:induction false} AlignedPopSlots(r: State, older: seq<Record>, newer: seq<Record>, size: nat,
                                           a: nat, b: nat, k: nat, shrink: bool)
    requires Aligned(r, older, newer, size, a, b, k) && r.count > 1 && PopSafe(r)
    ensures OnSlots(Pop(r, shrink), size, if r.next <= r.head && a + 1 == k then 0 else a + 1, b, k)
  {
    SafeTarget(r, older, newer);
    PopWords(r, shrink);
    PopSlots(r, older, newer, size, a, b, k, Pop(r, shrink));
  }

  lemma {:induction false} AlignedPopSafe(r: State, size: nat, a: nat, b: nat, k: nat)
    requires Valid(r) && Aligned(r, Older(r), Newer(r), size, a, b, k) && size < WORD + 0x8000_0000
    ensures PopSafe(r)
  {
    if r.count > 0 {
      OldestRecord(r, Older(r), Newer(r));
      assert Older(r)[0] in Older(r);
    }
  }

  lemma {:induction false} RestOfSize(q: seq<Record>, older: seq<Record>, newer: seq<Record>, size: nat)
    requires q != [] && OfSize(q, size) && older + newer == q[1..]
    ensures OfSize(older, size) && OfSize(newer, size)
  {
    forall r | r in older || r in newer ensures WORD + |r| == size {
      assert r in older + newer;
      assert r in q[1..] ==> r in q;
    }
  }

  lemma {:induction false} AlignedPop(r: State, size: nat, a: nat, b: nat, k: nat, shrink: bool)
    requires Valid(r) && Aligned(r, Older(r), Newer(r), size, a, b, k) && size < WORD + 0x8000_0000
    ensures var t := Pop(r, shrink);
            && Valid(t) && Contents(t) == FifoPop(Contents(r)) && t.limit == r.limit
            && exists a' :: Aligned(t, Older(t), Newer(t), size, a', b, k)
  {
    var t := Pop(r, shrink);
    if r.count == 0 {
      assert t == r;
    } else {
      var a' := if r.next <= r.head && a + 1 == k then 0 else a + 1;
      AlignedPopSafe(r, size, a, b, k);
      PopCorrect(r, shrink);
      assert forall y :: y in Contents(r) ==> y in Older(r) || y in Newer(r);
      RestOfSize(Contents(r), Older(t), Newer(t), size);
      if r.count > 1 {
        AlignedPopSlots(r, Older(r), Newer(r), size, a, b, k, shrink);
      }
      assert Aligned(t, Older(t), Newer(t), size, a', b, k);
    }
  }

  // ---- every run ----

  datatype Op = PutOp(record: Record, shrink: bool) | PopOp(shrink: bool)

  function Step(r: State, op: Op): State {
    match op
    case PutOp(x, shrink) => Put(r, x, shrink)
    case PopOp(shrink) => Pop(r, shrink)
  }

  function Run(r: State, ops: seq<Op>): State
    decreases |ops|
  {
    if ops == [] then r else Run(Step(r, ops[0]), ops[1..])
  }

  function FifoStep(q: seq<Record>, op: Op, k: nat): seq<Record> {
    match op
    case PutOp(x, _) => FifoPut(q, x, k)
    case PopOp(_) => FifoPop(q)
  }

  function FifoRun(q: seq<Record>, ops: seq<Op>, k: nat): seq<Record>
    decreases |ops|
  {
    if ops == [] then q else FifoRun(FifoStep(q, ops[0], k), ops[1..], k)
  }

  ghost predicate PutsOfSize(ops: seq<Op>, size: nat) {
    forall op :: op in ops && op.PutOp? ==> WORD + |op.record| == size
  }

  /** `t` stands on slots and holds `q`. */
  ghost predicate Holds(t: State, q: seq<Record>, size: nat, k: nat, limit: nat) {
    && Valid(t) && t.limit == limit && Contents(t) == q
    && exists a, b :: Aligned(t, Older(t), Newer(t), size, a, b, k)
  }

  lemma {:induction false} PutHolds(r: State, q: seq<Record>, x: Record, shrink: bool, size: nat, k: nat, limit: nat)
    requires Holds(r, q, size, k, limit) && WORD + |x| == size
    ensures Holds(Put(r, x, shrink), FifoPut(q, x, k), size, k, limit)
  {
    var a, b :| Aligned(r, Older(r), Newer(r), size, a, b, k);
    AlignedPut(r, size, a, b, k, x, shrink);
    PutLimit(r, x, shrink);
  }

  lemma {:induction false} PopHolds(r: State, q: seq<Record>, shrink: bool, size: nat, k: nat, limit: nat)
    requires Holds(r, q, size, k, limit) && size < WORD + 0x8000_0000
    ensures Holds(Pop(r, shrink), FifoPop(q), size, k, limit)
  {
    var a, b :| Aligned(r, Older(r), Newer(r), size, a, b, k);
    AlignedPop(r, size, a, b, k, shrink);
  }

  lemma {:induction false} StepHolds(r: State, q: seq<Record>, op: Op, size: nat, k: nat, limit: nat)
    requires Holds(r, q, size, k, limit) && size < WORD + 0x8000_0000
    requires op.PutOp? ==> WORD + |op.record| == size
    ensures Holds(Step(r, op), FifoStep(q, op, k), size, k, limit)
  {
    if op.PutOp? {
      PutHolds(r, q, op.record, op.shrink, size, k, limit);
    } else {
      PopHolds(r, q, op.shrink, size, k, limit);
    }
  }

  lemma {:induction false} RunHolds(r: State, q: seq<Record>, ops: seq<Op>, size: nat, k: nat, limit: nat)
    requires Holds(r, q, size, k, limit) && PutsOfSize(ops, size) && size < WORD + 0x8000_0000
    ensures Holds(Run(r, ops), FifoRun(q, ops, k), size, k, limit)
    decreases |ops|
  {
    if ops != [] {
      assert ops[0] in ops && forall o :: o in ops[1..] ==> o in ops;
      StepHolds(r, q, ops[0], size, k, limit);
      RunHolds(Step(r, ops[0]), FifoStep(q, ops[0], k), ops[1..], size, k, limit);
    }
  }

  lemma {:induction false} NewHolds(limit: nat, size: nat)
    requires WORD < size && META + size <= limit < OFFSET_LIMIT
    ensures Holds(Open([], false, limit), [], size, Capacity(limit, size), limit)
  {
    var r, k := Open([], false, limit), Capacity(limit, size);
    FreshFileIsEmpty(limit);
    CapacityFits(limit, size);
    assert Slot(1, size) == Slot(0, size) + size;
    assert k > 0;
    assert Aligned(r, [], [], size, 0, 0, k);
  }

  /** With records of one size, every run of puts and pops on a new file is a run of a first-in first-out
      queue of `(sizeLimit - 40) / (8 + len)` records, and the file never outgrows its limit. */
  lemma {:induction false} RunIsFifo(limit: nat, ops: seq<Op>, len: nat)
    requires 1 <= len < 0x8000_0000 && META + WORD + len <= limit < OFFSET_LIMIT
    requires PutsOfSize(ops, WORD + len)
    ensures var t := Run(Open([], false, limit), ops);
            && Valid(t)
            && Contents(t) == FifoRun([], ops, Capacity(limit, WORD + len))
            && t.next <= limit && t.noman <= limit && |t.file| <= limit
  {
    NewHolds(limit, WORD + len);
    RunHolds(Open([], false, limit), [], ops, WORD + len, Capacity(limit, WORD + len), limit);
  }

  /** The one case where `peek` misses a record that is there: a wrapped file at its capacity. */
  lemma {:induction false} FullPeekMisses(r: State, size: nat, a: nat, b: nat, k: nat)
    requires Valid(r) && Aligned(r, Older(r), Newer(r), size, a, b, k) && r.count > 0
    ensures Peek(r) == Nothing <==> r.next <= r.head && |Contents(r)| == k
  {
    AlignedCount(r, Older(r), Newer(r), size, a, b, k);
    PeekIsOldest(r);
    SlotStep(a, b, size);
    SlotStep(b, a, size);
  }

  /** `peek` gives the queue's head, unless the queue is empty or the file is wrapped and at its capacity. */
  predicate PeekSees(t: State, q: seq<Record>, k: nat) {
    Peek(t) == if q == [] || (|q| == k && t.next <= t.head) then Nothing else Peeked(q[0])
  }

  lemma {:induction false} PeekHolds(t: State, q: seq<Record>, size: nat, k: nat, limit: nat)
    requires Holds(t, q, size, k, limit)
    ensures PeekSees(t, q, k)
  {
    var a, b :| Aligned(t, Older(t), Newer(t), size, a, b, k);
    PeekIsOldest(t);
    CountBound(t);
    if t.count > 0 { FullPeekMisses(t, size, a, b, k); }
  }

  lemma {:induction false} PeekAfter(r: State, q: seq<Record>, ops: seq<Op>, size: nat, k: nat, limit: nat)
    requires Holds(r, q, size, k, limit) && PutsOfSize(ops, size) && size < WORD + 0x8000_0000
    ensures PeekSees(Run(r, ops), FifoRun(q, ops, k), k)
  {
    RunHolds(r, q, ops, size, k, limit);
    PeekHolds(Run(r, ops), FifoRun(q, ops, k), size, k, limit);
  }

  /** After any run with records of one size on a new file. */
  lemma {:induction false} PeekInRun(limit: nat, ops: seq<Op>, len: nat)
    requires 1 <= len < 0x8000_0000 && META + WORD + len <= limit < OFFSET_LIMIT
    requires PutsOfSize(ops, WORD + len)
    ensures var k := Capacity(limit, WORD + len);
            PeekSees(Run(Open([], false, limit), ops), FifoRun([], ops, k), k)
  {
    NewHolds(limit, WORD + len);
    PeekAfter(Open([], false, limit), [], ops, WORD + len, Capacity(limit, WORD + len), limit);
  }
}
