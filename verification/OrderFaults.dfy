/** When the broker comes back, messages are sent out of order. */
module OrderFaults {
  import opened Bytes
  import R = Ring
  import RingDisorder
  import opened Codec
  import opened Subsequences
  import opened Pipeline
  import opened Passes
  import opened Outages

  /** A pass that writes the one incoming message to the file and sends the one at hand. */
  lemma {:induction false} FlushingPass(s: Queues, x: Message, n: Message, shrink: bool)
    requires s.sending == [x] && s.saving == [] && s.incoming == [n]
    ensures Do(s, Work(shrink, Confirmed)) ==
            Queues(s.accepted, s.sent + [x], [], R.Put(s.ring, Serialize(n), shrink), [], [])
  {
    RefillLeaves(s, shrink);
    OnePut(s.ring, n, shrink);
  }

  lemma {:induction false} OnePut(r: R.State, n: Message, shrink: bool)
    ensures PutAll(r, Serials([n]), shrink) == R.Put(r, Serialize(n), shrink)
  {
    var q := Serials([n]);
    assert q == [Serialize(n)] && q[1..] == [];
    assert PutAll(R.Put(r, q[0], shrink), [], shrink) == R.Put(r, q[0], shrink);
  }

  lemma {:induction false} FetchedIs(m: Message)
    requires Fine(m)
    ensures Fetched(R.Peeked(Serialize(m))) == [Restored(m)]
  {
    SeenSerialized(m);
    SerializeFits(m);
  }

  /** A pass that finds one record of the file and sends it; `r` is the file after the incoming messages. */
  lemma {:induction false} FetchingPass(s: Queues, r: R.State, m: Message, shrink: bool)
    requires s.sending == s.saving == [] && s.ring.count > 0
    requires r == PutAll(s.ring, Serials(s.incoming), shrink) && Fetched(R.Peek(r)) == [m]
    ensures Do(s, Work(shrink, Confirmed)) == Queues(s.accepted, s.sent + [m], [], R.Pop(r, shrink), [], [])
  {
    RefillLeaves(s, shrink);
    FetchedNext(Queues(s.accepted, s.sent, [], r, [], []), m, shrink);
    PublishedNext(Queues(s.accepted, s.sent, [m], R.Pop(r, shrink), [], []), m);
  }

  lemma {:induction false} FetchedNext(u: Queues, m: Message, shrink: bool)
    requires u.sending == u.saving == [] && Fetched(R.Peek(u.ring)) == [m]
    ensures Next(u, Fetch(shrink)) == u.(sending := [m], ring := R.Pop(u.ring, shrink))
  {}

  lemma {:induction false} PublishedNext(u: Queues, m: Message)
    requires u.sending == [m]
    ensures Publish(u, Confirmed) == u.(sent := u.sent + [m], sending := [])
  {}

  /** One more message, and the broker is back: two passes, another message, another pass. */
  function Recovery(n: Message, y: Message, shrink: bool): seq<Act> {
    var work := Work(shrink, Confirmed);
    [Call(n), work, work, Call(y), work]
  }

  lemma {:induction false} RunFive(s: Queues, a: Act, b: Act, c: Act, d: Act, e: Act)
    ensures Run(s, [a, b, c, d, e]) == Do(Do(Do(Do(Do(s, a), b), c), d), e)
  {
    var t := Do(Do(s, a), b);
    assert [a, b, c, d, e] == [a, b] + [c, d, e];
    assert [a, b][1..] == [b] && [c, d, e][1..] == [d, e] && [d, e][1..] == [e];
    RunConcat(s, [a, b], [c, d, e]);
    RunOne(Do(s, a), b);
    RunOne(Do(Do(t, c), d), e);
  }

  /** The put of `n`, the pop that takes it, the put of `y`, as the file shows them. */
  ghost predicate ComesBack(r: R.State, n: Message, y: Message, z: Message, shrink: bool) {
    var p := R.Put(r, Serialize(n), shrink);
    var t := R.Pop(p, shrink);
    var v := R.Put(t, Serialize(y), shrink);
    && p.count > 0 && R.Peek(p) == R.Peeked(Serialize(n)) && t.count > 0
    && R.Peek(v) == R.Peeked(Serialize(z))
  }

  lemma {:induction false} RecoveryFlushes(s: Queues, x: Message, n: Message, shrink: bool)
    requires s.sending == [x] && s.sent == s.saving == s.incoming == []
    ensures Do(Do(s, Call(n)), Work(shrink, Confirmed)) ==
            Queues(s.accepted + [n], [x], [], R.Put(s.ring, Serialize(n), shrink), [], [])
  {
    assert [] + [n] == [n] && [] + [x] == [x];
    FlushingPass(Next(s, Enqueue(n)), x, n, shrink);
  }

  lemma {:induction false} RecoveryFetches(s: Queues, n: Message, shrink: bool)
    requires s.sending == s.saving == s.incoming == [] && s.ring.count > 0 && Fine(n)
    requires R.Peek(s.ring) == R.Peeked(Serialize(n))
    ensures Do(s, Work(shrink, Confirmed)) ==
            Queues(s.accepted, s.sent + [Restored(n)], [], R.Pop(s.ring, shrink), [], [])
  {
    assert Serials([]) == [];
    FetchedIs(n);
    FetchingPass(s, s.ring, Restored(n), shrink);
  }

  lemma {:induction false} RecoveryEnds(s: Queues, y: Message, z: Message, shrink: bool)
    requires s.sending == s.saving == s.incoming == [] && s.ring.count > 0 && Fine(z)
    requires R.Peek(R.Put(s.ring, Serialize(y), shrink)) == R.Peeked(Serialize(z))
    ensures var t := Do(Do(s, Call(y)), Work(shrink, Confirmed));
            t.accepted == s.accepted + [y] && t.sent == s.sent + [Restored(z)]
  {
    assert [] + [y] == [y];
    OnePut(s.ring, y, shrink);
    FetchedIs(z);
    FetchingPass(Next(s, Enqueue(y)), R.Put(s.ring, Serialize(y), shrink), Restored(z), shrink);
  }

  lemma {:induction false} RecoverySends(s: Queues, x: Message, n: Message, y: Message, z: Message, shrink: bool)
    requires s.sending == [x] && s.sent == s.saving == s.incoming == [] && Fine(n) && Fine(z)
    requires ComesBack(s.ring, n, y, z, shrink)
    ensures var t := Run(s, Recovery(n, y, shrink));
            t.accepted == s.accepted + [n] + [y] && t.sent == [x] + [Restored(n)] + [Restored(z)]
  {
    var work, p := Work(shrink, Confirmed), R.Put(s.ring, Serialize(n), shrink);
    RunFive(s, Call(n), work, work, Call(y), work);
    RecoveryFlushes(s, x, n, shrink);
    var t := Queues(s.accepted + [n], [x], [], p, [], []);
    RecoveryFetches(t, n, shrink);
    RecoveryEnds(Queues(t.accepted, [x] + [Restored(n)], [], R.Pop(p, shrink), [], []), y, z, shrink);
  }

  lemma {:induction false} OutageComesBack(q: seq<Message>, n: Message, y: Message, len: nat, limit: nat, shrink: bool)
    requires Alike(q, len, limit) && |q| == 6 && TooLong(n, len, limit) && !R.Refused(limit, MessageLen(y))
    ensures ComesBack(Waiting(q, limit, shrink).ring, n, y, q[4], shrink)
  {
    RestFills(q, len, limit);
    SerializeFits(n);
    SerializeFits(y);
    RingDisorder.OrderIsLost(Serials(q[1..]), Serialize(n), Serialize(y), limit, WORD + len, shrink);
    assert Serials(q[1..])[3] == Serialize(q[1..][3]) && q[1..][3] == q[4];
  }

  lemma {:induction false} OnlyBehind<T>(x: T, z: T, a: seq<T>, b: seq<T>)
    requires x !in a && Subseq([x, z], a + b)
    ensures Subseq([x, z], b)
    decreases |a|
  {
    if a == [] {
      assert a + b == b;
    } else {
      assert (a + b)[0] == a[0] && (a + b)[1..] == a[1..] + b;
      OnlyBehind(x, z, a[1..], b);
    }
  }

  lemma {:induction false} PairsDiffer<T>(x: T, y: T, z: T)
    requires z != y
    ensures !Subseq([x, z], [x, y])
  {
    assert [x, y][1..] == [y] && [y][1..] == [] && [x, z][1..] == [z];
    assert !Subseq([z], []) && !Subseq([z], [y]);
    assert !Subseq([x, z], []) && !Subseq([x, z], [y]);
  }

  /** What stands behind `x`, which occurs at the end only, is `y` and nothing else. */
  lemma {:induction false} NotBehind<T>(w: T, x: T, y: T, z: T, a: seq<T>)
    requires x !in a && z != y
    ensures !Subseq([w, x, z], a + [x, y])
  {
    if Subseq([w, x, z], a + [x, y]) {
      SubseqTail([w, x, z], a + [x, y]);
      assert [w, x, z][1..] == [x, z];
      OnlyBehind(x, z, a, [x, y]);
      PairsDiffer(x, y, z);
    }
  }

  lemma {:induction false} LongerIsOther(q: seq<Message>, n: Message, len: nat)
    requires (forall m :: m in q ==> MessageLen(m) == len) && MessageLen(n) != len
    ensures Canon(n) !in Canons(q)
  {
    assert MessageLen(Canon(n)) == MessageLen(n);
    forall i | 0 <= i < |q| ensures Canons(q)[i] != Canon(n) {
      assert q[i] in q && MessageLen(Canon(q[i])) == MessageLen(q[i]);
    }
  }

  lemma {:induction false} ThreeCanons(x: Message, n: Message, z: Message)
    requires Fine(n) && Fine(z)
    ensures Canons([x] + [Restored(n)] + [Restored(z)]) == [Canon(x), Canon(n), Canon(z)]
  {
    SeenSerialized(n);
    SeenSerialized(z);
    ThreeMapped(x, Restored(n), Restored(z));
  }

  lemma {:induction false} ThreeMapped(a: Message, b: Message, c: Message)
    ensures Canons([a] + [b] + [c]) == [Canon(a), Canon(b), Canon(c)]
  {}

  lemma {:induction false} AcceptedCanons(q: seq<Message>, n: Message, y: Message)
    ensures Canons(q + [n] + [y]) == Canons(q) + [Canon(n), Canon(y)]
  {
    MapSeqConcat(Canon, q + [n], [y]);
    MapSeqConcat(Canon, q, [n]);
  }

  /** Order fails. The broker is away while one message is at hand and five more of its length go to the file; then
      a longer one is handed in and the broker is back. The longer one goes through lines 164-171 and is sent next;
      one more message, and what is sent after it is the fifth, which was accepted before the longer one and given
      up for it. In a file of 211 bytes six messages of 49 bytes and one of 50 do. */
  lemma {:induction false} OrderFails(q: seq<Message>, n: Message, y: Message, len: nat, limit: nat, shrink: bool)
    requires Alike(q, len, limit) && |q| == 6 && TooLong(n, len, limit)
    requires !R.Refused(limit, MessageLen(y)) && Canon(y) != Canon(q[4])
    ensures var t := Run(New(limit), Outage(q, shrink) + Recovery(n, y, shrink));
            && Canons(t.accepted) == Canons(q) + [Canon(n), Canon(y)]
            && Canons(t.sent) == [Canon(q[0]), Canon(n), Canon(q[4])]
            && !Subseq(Canons(t.sent), Canons(t.accepted))
  {
    RunConcat(New(limit), Outage(q, shrink), Recovery(n, y, shrink));
    OutageWaits(q, limit, shrink);
    OutageComesBack(q, n, y, len, limit, shrink);
    assert q[4] in q;
    RecoverySends(Waiting(q, limit, shrink), q[0], n, y, q[4], shrink);
    ThreeCanons(q[0], n, q[4]);
    AcceptedCanons(q, n, y);
    LongerIsOther(q, n, len);
    NotBehind(Canon(q[0]), Canon(n), Canon(y), Canon(q[4]), Canons(q));
  }

  /** Four empty strings and a payload of these bytes. */
  function Plain(payload: seq<byte>): Message {
    Message(Str([]), Str([]), Str([]), Str([]), 0, Str(payload), Null)
  }

  /** Six messages, each with a different byte for its payload. */
  function Six(): seq<Message> {
    [Plain([0]), Plain([1]), Plain([2]), Plain([3]), Plain([4]), Plain([5])]
  }

  lemma {:induction false} SixAreAlike(limit: nat)
    requires limit == 214
    ensures Alike(Six(), 50, limit)
  {
  }

  ghost predicate Distinct<T>(q: seq<T>) {
    forall i, j :: 0 <= i < j < |q| ==> q[i] != q[j]
  }

  lemma {:induction false} SixAreDistinct(n: Message, y: Message)
    requires n == Plain([0, 0]) && y == Plain([6])
    ensures Distinct(Canons(Six()) + [Canon(n), Canon(y)])
  {
    var all := Canons(Six()) + [Canon(n), Canon(y)];
    assert forall i :: 0 <= i < 6 ==> all[i] == Canon(Six()[i]) && all[i].payload == Str([i as byte]);
    assert all[6].payload == Str([0, 0]) && all[7].payload == Str([6]);
    forall i, j | 0 <= i < j < 8 ensures all[i] != all[j] {
      assert all[i].payload.bytes != all[j].payload.bytes;
    }
  }

  /** Eight messages, no two alike, in a file of 214 bytes: sent are the first, the seventh, the fifth. */
  lemma {:induction false} OrderFailsInFact(limit: nat, shrink: bool)
    requires limit == 214
    ensures exists acts ::
              var t := Run(New(limit), acts);
              Distinct(Canons(t.accepted)) && |t.sent| == 3 && !Subseq(Canons(t.sent), Canons(t.accepted))
  {
    var q, n, y := Six(), Plain([0, 0]), Plain([6]);
    SixAreAlike(limit);
    SixAreDistinct(n, y);
    PlainFits(n, y, q[4], limit);
    OrderFails(q, n, y, 50, limit, shrink);
    ShowsDisorder(Run(New(limit), Outage(q, shrink) + Recovery(n, y, shrink)), [Canon(q[0]), Canon(n), Canon(q[4])]);
  }

  lemma {:induction false} PlainFits(n: Message, y: Message, z: Message, limit: nat)
    requires n == Plain([0, 0]) && y == Plain([6]) && z == Plain([4]) && limit == 214
    ensures TooLong(n, 50, limit) && !R.Refused(limit, MessageLen(y)) && Canon(y) != Canon(z)
  {}

  lemma {:induction false} ShowsDisorder(t: Queues, c: seq<Message>)
    requires Canons(t.sent) == c && |c| == 3
    ensures |t.sent| == 3
  {}
}
