/** The sender's three queues as a state machine: every interleaving of its callers with its worker. */
module Pipeline {
  import opened Bytes
  import opened Frames
  import R = Ring
  import opened RingProofs
  import opened RingPut
  import RingPop
  import opened Codec
  import opened Subsequences

  /** `saving` is the list `flushIncomingQueueToFile` has detached and is still writing; `accepted` and
      `sent` record what callers handed in, after what the file already held, and what was removed after a
      successful publish. */
  datatype Queues = Queues(accepted: seq<Message>, sent: seq<Message>, sending: seq<Message>, ring: R.State,
                           saving: seq<Message>, incoming: seq<Message>)

  datatype Event =
    | Enqueue(m: Message)
    | Detach
    | SaveOne(shrink: bool)
    | Fetch(shrink: bool)
    | Take
    | Discard
    | PublishOk
    | PublishFail

  /** Enabled when the worker stands where the code does this; callers may enqueue at any time. */
  predicate Enabled(s: Queues, e: Event) {
    match e
    case Enqueue(_) => true
    case Detach => s.saving == []
    case SaveOne(_) => s.saving != []
    case Fetch(_) => s.sending == [] && s.saving == []
    case Take => s.sending == [] && s.saving == [] && s.ring.count == 0
    case Discard => s.sending != []
    case PublishOk => s.sending != []
    case PublishFail => s.sending != []
  }

  /** The message in a record that was peeked; `OutOfBounds` would read past the buffer. */
  function Fetched(p: R.Peeked): seq<Message> {
    if p == R.Nothing || p.record == [] || Deserialize(p.record) == OutOfBounds then []
    else [Deserialize(p.record).msg]
  }

  function Next(s: Queues, e: Event): Queues
    requires Enabled(s, e)
  {
    match e
    case Enqueue(m) => s.(accepted := s.accepted + [m], incoming := s.incoming + [m])
    case Detach => s.(saving := s.incoming, incoming := [])
    case SaveOne(shrink) =>
      s.(ring := R.Put(s.ring, Serialize(s.saving[0]), shrink), saving := s.saving[1..])
    case Fetch(shrink) => s.(sending := Fetched(R.Peek(s.ring)), ring := R.Pop(s.ring, shrink))
    case Take => s.(sending := s.incoming, incoming := [])
    case Discard => s.(sending := s.sending[1..])
    case PublishOk => s.(sent := s.sent + [s.sending[0]], sending := s.sending[1..])
    case PublishFail => s
  }

  // ---- comparing messages up to what the file does not keep ----

  /** Without the retain flag, and with nothing for an empty payload or certificate path. */
  function Canon(m: Message): Message {
    Normal(m).(retain := 0)
  }

  function Canons(q: seq<Message>): (r: seq<Message>)
    ensures |r| == |q|
  {
    MapSeq(Canon, q)
  }

  function Seen(r: Record): Message {
    match Deserialize(r)
    case Parsed(m) => Canon(m)
    case OutOfBounds => Message(Null, Null, Null, Null, 0, Null, Null)
  }

  function Sees(q: seq<Record>): (r: seq<Message>)
    ensures |r| == |q|
  {
    MapSeq(Seen, q)
  }

  /** A sender on a new file, or on one that a previous run left. */
  function Start(ring: R.State): Queues {
    Queues(Sees(R.Contents(ring)), [], [], ring, [], [])
  }

  /** What a caller may hand in: strings and lengths the code can carry. */
  ghost predicate Fine(m: Message) {
    Sendable(m) && AllShort(m)
  }

  ghost predicate AllFine(q: seq<Message>) {
    forall m :: m in q ==> Fine(m)
  }

  ghost predicate FineRecords(q: seq<Record>) {
    forall r :: r in q ==> exists m :: Fine(m) && r == Serialize(m)
  }

  /** Everything accepted and not lost, in the order it will leave. */
  ghost function Chain(s: Queues): seq<Message> {
    Canons(s.sent) + Canons(s.sending) + Sees(R.Contents(s.ring)) + Canons(s.saving) + Canons(s.incoming)
  }

  ghost predicate RingFine(r: R.State) {
    R.Valid(r) && r.limit < 0x8000_0000 && FineRecords(R.Contents(r))
  }

  ghost predicate Inv(s: Queues) {
    && RingFine(s.ring) && AllFine(s.saving) && AllFine(s.incoming)
    && Subseq(Chain(s), Canons(s.accepted))
  }

  /** How many accepted messages are nowhere any more. */
  ghost function Missing(s: Queues): int {
    |s.accepted| - |Chain(s)|
  }

  /** The step keeps the ring a queue: a put the file refuses or one that is safe. */
  ghost predicate Safe(s: Queues, e: Event)
    requires Enabled(s, e)
  {
    e.SaveOne? ==>
      var len := |Serialize(s.saving[0])|;
      R.Refused(s.ring.limit, len) || PutSafe(s.ring, len)
  }

  /** The step loses nothing: no overflow, no oversize message, no peek into a full ring, no known bad broker. */
  ghost predicate Lossless(s: Queues, e: Event)
    requires Enabled(s, e)
  {
    match e
    case SaveOne(_) =>
      var len := |Serialize(s.saving[0])|;
      !R.Refused(s.ring.limit, len) && HasGap(s.ring, WORD + len)
    case Fetch(_) => s.ring.count == 0 || s.ring.head != s.ring.next
    case Discard => false
    case _ => true
  }

  /** The file gives back a message that differs only in what `Canon` leaves out. */
  lemma {:induction false} SeenSerialized(m: Message)
    requires Fine(m)
    ensures Deserialize(Serialize(m)) == Parsed(Restored(m)) && Canon(Restored(m)) == Canon(m)
    ensures Seen(Serialize(m)) == Canon(m)
  {
    RoundTrip(m, []);
    assert Serialize(m) + [] == Serialize(m);
    RestoredExactly(m);
  }

  // ---- one step ----

  lemma {:induction false} EnqueueStep(s: Queues, m: Message)
    requires Inv(s) && Fine(m)
    ensures Inv(Next(s, Enqueue(m))) && Missing(Next(s, Enqueue(m))) == Missing(s)
  {
    var t := Next(s, Enqueue(m));
    MapSeqConcat(Canon, s.incoming, [m]);
    MapSeqConcat(Canon, s.accepted, [m]);
    assert Canons([m]) == [Canon(m)];
    assert Chain(t) == Chain(s) + [Canon(m)];
    SubseqSuffix(Chain(s), Canons(s.accepted), [Canon(m)]);
  }

  lemma {:induction false} Shifted<T>(a: seq<T>, b: seq<T>, c: seq<T>, d: seq<T>, e: seq<T>)
    ensures a + b + c + [] + d == a + b + c + d + []
    ensures a + [] + [] + [] + e == a + e + [] + [] + []
    ensures (a + b) + c + d + e == a + (b + c) + d + e
    ensures a + (b + c) + d + e == a + b + (c + d + e)
    ensures a + b + c + d + e == (a + b + c) + (d + e)
  {}

  lemma {:induction false} DetachStep(s: Queues)
    requires Inv(s) && s.saving == []
    ensures Inv(Next(s, Detach)) && Missing(Next(s, Detach)) == Missing(s)
  {
    Shifted(Canons(s.sent), Canons(s.sending), Sees(R.Contents(s.ring)), Canons(s.incoming), []);
    assert Canons([]) == [];
    assert Chain(Next(s, Detach)) == Chain(s);
  }

  lemma {:induction false} TakeStep(s: Queues)
    requires Inv(s) && Enabled(s, Take)
    ensures Inv(Next(s, Take)) && Missing(Next(s, Take)) == Missing(s)
  {
    assert Canons([]) == [] && Sees([]) == [] && R.Contents(s.ring) == [];
    Shifted(Canons(s.sent), [], [], [], Canons(s.incoming));
    assert Chain(Next(s, Take)) == Chain(s);
  }

  lemma {:induction false} PublishStep(s: Queues)
    requires Inv(s) && s.sending != []
    ensures Inv(Next(s, PublishOk)) && Missing(Next(s, PublishOk)) == Missing(s)
  {
    var a, x, b := Canons(s.sent), [Canon(s.sending[0])], Canons(s.sending[1..]);
    var c, d, e := Sees(R.Contents(s.ring)), Canons(s.saving), Canons(s.incoming);
    MapSeqFirst(Canon, s.sending);
    MapSeqConcat(Canon, s.sent, [s.sending[0]]);
    assert Canons([s.sending[0]]) == x;
    Regroup(a, x, b, c, d, e);
    assert Chain(s) == Chain(Next(s, PublishOk));
  }

  lemma {:induction false} Regroup<T>(a: seq<T>, x: seq<T>, b: seq<T>, c: seq<T>, d: seq<T>, e: seq<T>)
    ensures (a + x) + b + c + d + e == a + (x + b) + c + d + e
    ensures a + (x + b) + c + d + e == a + x + (b + c + d + e)
    ensures a + b + c + d + e == a + (b + c + d + e)
  {}

  lemma {:induction false} DiscardStep(s: Queues)
    requires Inv(s) && s.sending != []
    ensures Inv(Next(s, Discard)) && Missing(Next(s, Discard)) == Missing(s) + 1
  {
    var a, x, b := Canons(s.sent), [Canon(s.sending[0])], Canons(s.sending[1..]);
    var c, d, e := Sees(R.Contents(s.ring)), Canons(s.saving), Canons(s.incoming);
    MapSeqFirst(Canon, s.sending);
    Regroup(a, x, b, c, d, e);
    SubseqLose(Chain(Next(s, Discard)), a, x, b + c + d + e, Canons(s.accepted));
  }

  lemma {:induction false} RefusedStep(s: Queues, shrink: bool)
    requires Inv(s) && s.saving != [] && R.Refused(s.ring.limit, |Serialize(s.saving[0])|)
    ensures var t := Next(s, SaveOne(shrink)); Inv(t) && Missing(t) == Missing(s) + 1
  {
    var t := Next(s, SaveOne(shrink));
    assert t.ring == s.ring;
    var a, b, c := Canons(s.sent), Canons(s.sending), Sees(R.Contents(s.ring));
    var x, d, e := [Canon(s.saving[0])], Canons(s.saving[1..]), Canons(s.incoming);
    MapSeqFirst(Canon, s.saving);
    assert forall m :: m in s.saving[1..] ==> m in s.saving;
    LaterRegroup(a, b, c, x, d, e);
    SubseqLose(Chain(t), a + b + c, x, d + e, Canons(s.accepted));
  }

  lemma {:induction false} LaterRegroup<T>(a: seq<T>, b: seq<T>, c: seq<T>, x: seq<T>, d: seq<T>, e: seq<T>)
    ensures a + b + c + (x + d) + e == (a + b + c) + x + (d + e)
    ensures a + b + c + d + e == (a + b + c) + (d + e)
  {}

  /** A record that reads back as `m`. */
  ghost predicate Reads(b: Record, m: Message) {
    Seen(b) == Canon(m) && exists n :: Fine(n) && b == Serialize(n)
  }

  lemma {:induction false} SerializedReads(m: Message)
    requires Fine(m)
    ensures Reads(Serialize(m), m)
  {
    SeenSerialized(m);
  }

  lemma {:induction false} SeesAppended(c: seq<Record>, b: Record, m: Message, k: nat)
    requires FineRecords(c) && Reads(b, m) && k <= |c|
    ensures FineRecords(c[k..] + [b])
    ensures Sees(c[k..] + [b]) == Sees(c)[k..] + [Canon(m)]
  {
    assert forall x :: x in c[k..] + [b] ==> x in c || x == b;
    MapSeqConcat(Seen, c[k..], [b]);
    MapSeqDrop(Seen, c, k);
    assert Sees([b]) == [Canon(m)];
  }

  lemma {:induction false} DropRegroup<T>(p: seq<T>, c: seq<T>, k: nat, x: seq<T>, d: seq<T>, e: seq<T>)
    requires k <= |c|
    ensures p + (c[k..] + x) + d + e == p + (c[k..] + x + d + e)
    ensures p + c + (x + d) + e == p + c[..k] + (c[k..] + x + d + e)
  {
    assert c == c[..k] + c[k..];
  }

  lemma {:induction false} SavedStep(s: Queues, t: Queues, k: nat)
    requires Inv(s) && s.saving != [] && t == s.(ring := t.ring, saving := s.saving[1..])
    requires k <= |R.Contents(s.ring)| && RingFine(t.ring)
    requires Sees(R.Contents(t.ring)) == Sees(R.Contents(s.ring))[k..] + [Canon(s.saving[0])]
    ensures Inv(t) && Missing(t) == Missing(s) + k
  {
    var p, c := Canons(s.sent) + Canons(s.sending), Sees(R.Contents(s.ring));
    var x, d, e := [Canon(s.saving[0])], Canons(s.saving[1..]), Canons(s.incoming);
    MapSeqFirst(Canon, s.saving);
    assert forall m :: m in s.saving[1..] ==> m in s.saving;
    DropRegroup(p, c, k, x, d, e);
    SubseqLose(Chain(t), p, c[..k], c[k..] + x + d + e, Canons(s.accepted));
  }

  /** The put dropped the `k` oldest records and added `m`; none were dropped just when there was a gap. */
  ghost predicate SeesPut(r: R.State, m: Message, b: Record, t: R.State, k: nat) {
    && k <= |R.Contents(r)|
    && Sees(R.Contents(t)) == Sees(R.Contents(r))[k..] + [Canon(m)]
    && (k == 0 <==> HasGap(r, WORD + |b|))
  }

  lemma {:induction false} FilePut(r: R.State, m: Message, b: Record, t: R.State)
    requires RingFine(r) && Reads(b, m) && R.Valid(t) && t.limit == r.limit
    requires exists k :: Rotated(r, t, k, b)
    ensures RingFine(t) && exists k :: SeesPut(r, m, b, t, k)
  {
    var k :| Rotated(r, t, k, b);
    SeesAppended(R.Contents(r), b, m, k);
    assert SeesPut(r, m, b, t, k);
  }

  lemma {:induction false} PutStep(s: Queues, t: Queues)
    requires Inv(s) && s.saving != [] && t == s.(ring := t.ring, saving := s.saving[1..])
    requires RingFine(t.ring) && exists k :: SeesPut(s.ring, s.saving[0], Serialize(s.saving[0]), t.ring, k)
    ensures Inv(t) && Missing(t) >= Missing(s)
    ensures Missing(t) == Missing(s) <==>
            HasGap(s.ring, WORD + |Serialize(s.saving[0])|)
  {
    var k :| SeesPut(s.ring, s.saving[0], Serialize(s.saving[0]), t.ring, k);
    SavedStep(s, t, k);
  }

  lemma {:induction false} SaveStep(s: Queues, shrink: bool)
    requires Inv(s) && s.saving != [] && Safe(s, SaveOne(shrink))
    ensures var t := Next(s, SaveOne(shrink)); Inv(t) && Missing(t) >= Missing(s)
    ensures Missing(Next(s, SaveOne(shrink))) == Missing(s) <==> Lossless(s, SaveOne(shrink))
  {
    var m := s.saving[0];
    assert m in s.saving;
    if R.Refused(s.ring.limit, |Serialize(m)|) {
      RefusedStep(s, shrink);
    } else {
      PutRotates(s.ring, Serialize(m), shrink);
      SerializedReads(m);
      FilePut(s.ring, m, Serialize(m), R.Put(s.ring, Serialize(m), shrink));
      PutStep(s, Next(s, SaveOne(shrink)));
    }
  }

  // ---- fetching ----

  lemma {:induction false} FetchedIsSeen(r: Record)
    requires FineRecords([r])
    ensures Canons(Fetched(R.Peeked(r))) == [Seen(r)]
  {
    assert r in [r];
    var m :| Fine(m) && r == Serialize(m);
    SeenSerialized(m);
    SerializeFits(m);
  }

  lemma {:induction false} RingLosesFirst(r: R.State, c: seq<Record>, t: R.State)
    requires RingFine(r) && R.Contents(r) == c && c != []
    requires R.Valid(t) && t.limit == r.limit && R.Contents(t) == c[1..]
    ensures RingFine(t) && Sees(c) == [Seen(c[0])] + Sees(R.Contents(t)) && FineRecords([c[0]])
  {
    MapSeqFirst(Seen, c);
    assert forall x :: x in c[1..] ==> x in c;
    assert c[0] in c;
  }

  lemma {:induction false} PopsFirst(r: R.State, shrink: bool)
    requires R.Valid(r) && r.limit < 0x8000_0000 && r.count > 0
    ensures var c, t := R.Contents(r), R.Pop(r, shrink);
            c != [] && R.Valid(t) && t.limit == r.limit && R.Contents(t) == c[1..]
  {
    CountBound(r);
    RingPop.SmallLimitPops(r);
    RingPop.PopCorrect(r, shrink);
  }

  lemma {:induction false} RingAfterPop(r: R.State, shrink: bool)
    requires RingFine(r) && r.count > 0
    ensures var c, t := R.Contents(r), R.Pop(r, shrink);
            && c != [] && RingFine(t)
            && Sees(c) == [Seen(c[0])] + Sees(R.Contents(t))
            && Canons(Fetched(R.Peek(r))) == if r.head == r.next then [] else [Seen(c[0])]
  {
    PopsFirst(r, shrink);
    RingLosesFirst(r, R.Contents(r), R.Pop(r, shrink));
    RingPop.PeekIsOldest(r);
    FetchedIsSeen(R.Contents(r)[0]);
  }

  lemma {:induction false} FetchStep(s: Queues, shrink: bool)
    requires Inv(s) && Enabled(s, Fetch(shrink))
    ensures var e := Fetch(shrink);
            var t := Next(s, e);
            && Inv(t) && Missing(t) >= Missing(s)
            && (Missing(t) == Missing(s) <==> Lossless(s, e))
  {
    var t := Next(s, Fetch(shrink));
    if s.ring.count == 0 {
      RingPop.PeekIsOldest(s.ring);
      assert t == s;
    } else {
      RingAfterPop(s.ring, shrink);
      var first, rest := [Seen(R.Contents(s.ring)[0])], Sees(R.Contents(t.ring));
      assert Canons([]) == [];
      Regroup(Canons(s.sent), first, rest, Canons(s.saving), Canons(s.incoming), []);
      FetchRegroup(Canons(s.sent), first, rest, Canons(s.saving), Canons(s.incoming));
      if s.ring.head == s.ring.next {
        SubseqLose(Chain(t), Canons(s.sent), first, rest + Canons(s.saving) + Canons(s.incoming), Canons(s.accepted));
      }
    }
  }

  lemma {:induction false} FetchRegroup<T>(a: seq<T>, x: seq<T>, c: seq<T>, d: seq<T>, e: seq<T>)
    ensures a + [] + (x + c) + d + e == a + x + c + d + e
    ensures a + [] + (x + c) + d + e == a + x + (c + d + e)
    ensures a + [] + c + d + e == a + (c + d + e)
  {}

  // ---- every run ----

  lemma {:induction false} StepKeeps(s: Queues, e: Event)
    requires Inv(s) && Enabled(s, e) && Safe(s, e) && (e.Enqueue? ==> Fine(e.m))
    ensures Inv(Next(s, e)) && Missing(Next(s, e)) >= Missing(s)
    ensures Missing(Next(s, e)) == Missing(s) <==> Lossless(s, e)
  {
    match e
    case Enqueue(m) => EnqueueStep(s, m);
    case Detach => DetachStep(s);
    case SaveOne(shrink) => SaveStep(s, shrink);
    case Fetch(shrink) => FetchStep(s, shrink);
    case Take => TakeStep(s);
    case Discard => DiscardStep(s);
    case PublishOk => PublishStep(s);
    case PublishFail =>
  }

  /** Each event is enabled where it happens, and callers hand in only what the code can carry. */
  ghost predicate Legal(s: Queues, es: seq<Event>)
    decreases |es|
  {
    es != [] ==> Enabled(s, es[0]) && (es[0].Enqueue? ==> Fine(es[0].m)) && Legal(Next(s, es[0]), es[1..])
  }

  function After(s: Queues, es: seq<Event>): Queues
    decreases |es|
  {
    if es == [] || !Enabled(s, es[0]) then s else After(Next(s, es[0]), es[1..])
  }

  ghost predicate AllSafe(s: Queues, es: seq<Event>)
    decreases |es|
  {
    es != [] && Enabled(s, es[0]) ==> Safe(s, es[0]) && AllSafe(Next(s, es[0]), es[1..])
  }

  ghost predicate AllLossless(s: Queues, es: seq<Event>)
    decreases |es|
  {
    es != [] && Enabled(s, es[0]) ==> Lossless(s, es[0]) && AllLossless(Next(s, es[0]), es[1..])
  }

  /** The file is a queue of messages, in order, before and after every event. */
  ghost predicate AlwaysGood(s: Queues, es: seq<Event>)
    decreases |es|
  {
    Inv(s) && (es != [] && Enabled(s, es[0]) ==> AlwaysGood(Next(s, es[0]), es[1..]))
  }

  /** A put that needs no room of anyone cannot go wrong. */
  lemma {:induction false} LosslessIsSafe(s: Queues, e: Event)
    requires Inv(s) && Enabled(s, e) && Lossless(s, e)
    ensures Safe(s, e)
  {}

  lemma {:induction false} UnsafeSaveBreaks(s: Queues, shrink: bool)
    requires Inv(s) && s.saving != [] && !Safe(s, SaveOne(shrink))
    ensures !Inv(Next(s, SaveOne(shrink)))
  {
    var b := Serialize(s.saving[0]);
    PutCorrect(s.ring, b, shrink);
    assert Next(s, SaveOne(shrink)).ring == R.Put(s.ring, b, shrink);
  }

  /** A step keeps the queues good exactly when it is safe. */
  lemma {:induction false} StepGoodExactly(s: Queues, e: Event)
    requires Inv(s) && Enabled(s, e) && (e.Enqueue? ==> Fine(e.m))
    ensures Inv(Next(s, e)) <==> Safe(s, e)
  {
    if Safe(s, e) {
      StepKeeps(s, e);
    } else {
      UnsafeSaveBreaks(s, e.shrink);
    }
  }

  lemma {:induction false} RunKeeps(s: Queues, es: seq<Event>)
    requires Inv(s) && Legal(s, es) && AllSafe(s, es)
    ensures Inv(After(s, es)) && Missing(After(s, es)) >= Missing(s)
    ensures Missing(After(s, es)) == Missing(s) <==> AllLossless(s, es)
    decreases |es|
  {
    if es != [] {
      StepKeeps(s, es[0]);
      RunKeeps(Next(s, es[0]), es[1..]);
    }
  }

  /** Over every run the file stays a queue exactly as long as every put is safe. */
  lemma {:induction false} GoodExactly(s: Queues, es: seq<Event>)
    requires Inv(s) && Legal(s, es)
    ensures AlwaysGood(s, es) <==> AllSafe(s, es)
    decreases |es|
  {
    if es != [] {
      StepGoodExactly(s, es[0]);
      if Safe(s, es[0]) {
        GoodExactly(Next(s, es[0]), es[1..]);
      } else {
        assert !AlwaysGood(Next(s, es[0]), es[1..]);
      }
    }
  }

  lemma {:induction false} LosslessRunIsSafe(s: Queues, es: seq<Event>)
    requires Inv(s) && Legal(s, es) && AllLossless(s, es)
    ensures AllSafe(s, es)
    decreases |es|
  {
    if es != [] {
      LosslessIsSafe(s, es[0]);
      StepKeeps(s, es[0]);
      LosslessRunIsSafe(Next(s, es[0]), es[1..]);
    }
  }

  lemma {:induction false} SeenIsCanon(r: Record)
    ensures Canon(Seen(r)) == Seen(r)
  {}

  lemma {:induction false} AloneInLine<T>(c: seq<T>)
    ensures [] + [] + c + [] + [] == c
  {}

  lemma {:induction false} StartIsGood(ring: R.State)
    requires RingFine(ring)
    ensures Inv(Start(ring)) && Chain(Start(ring)) == Canons(Start(ring).accepted)
  {
    var c := Sees(R.Contents(ring));
    forall i | 0 <= i < |c| ensures Canon(c[i]) == c[i] {
      SeenIsCanon(R.Contents(ring)[i]);
    }
    assert Canons(c) == c && Canons([]) == [];
    AloneInLine(c);
    SubseqSame(c);
  }

  /** Order and conservation, over every interleaving and from any file that is a queue. While puts are safe,
      what has been sent, what is being sent, the file, the list being written and the incoming list are, in that
      order, an in-order part of what the file held and what was accepted since. They are all of it, with every
      put safe, exactly when no event lost a message. */
  lemma {:induction false} OrderAndConservation(ring: R.State, es: seq<Event>)
    requires RingFine(ring) && Legal(Start(ring), es)
    ensures var t := After(Start(ring), es);
            && (AllSafe(Start(ring), es) ==> Subseq(Chain(t), Canons(t.accepted)))
            && (AllSafe(Start(ring), es) && Chain(t) == Canons(t.accepted) <==> AllLossless(Start(ring), es))
  {
    var s, t := Start(ring), After(Start(ring), es);
    StartIsGood(ring);
    if AllLossless(s, es) { LosslessRunIsSafe(s, es); }
    if AllSafe(s, es) {
      RunKeeps(s, es);
      SubseqLength(Chain(t), Canons(t.accepted));
    }
  }

  /** So without a loss the messages sent are a prefix of what the file held and what was accepted since. */
  lemma {:induction false} SentInOrder(ring: R.State, es: seq<Event>)
    requires RingFine(ring) && Legal(Start(ring), es) && AllLossless(Start(ring), es)
    ensures var t := After(Start(ring), es); Canons(t.sent) <= Canons(t.accepted)
  {
    OrderAndConservation(ring, es);
    var t := After(Start(ring), es);
    assert Chain(t)[..|t.sent|] == Canons(t.sent);
  }

  // ---- runs in pieces ----

  lemma {:induction false} AfterConcat(s: Queues, a: seq<Event>, b: seq<Event>)
    requires Legal(s, a)
    ensures After(s, a + b) == After(After(s, a), b)
    ensures Legal(s, a + b) <==> Legal(After(s, a), b)
    ensures AllSafe(s, a + b) <==> AllSafe(s, a) && AllSafe(After(s, a), b)
    decreases |a|
  {
    if a == [] {
      assert a + b == b;
    } else {
      assert (a + b)[1..] == a[1..] + b;
      AfterConcat(Next(s, a[0]), a[1..], b);
    }
  }

  lemma {:induction false} AfterOne(s: Queues, e: Event)
    requires Enabled(s, e)
    ensures After(s, [e]) == Next(s, e) && (Legal(s, [e]) <==> (e.Enqueue? ==> Fine(e.m)))
    ensures AllSafe(s, [e]) <==> Safe(s, e)
  {
    assert [e][1..] == [];
    assert After(Next(s, e), []) == Next(s, e) && Legal(Next(s, e), []) && AllSafe(Next(s, e), []);
  }
}
