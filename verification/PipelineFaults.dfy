/** Ordinary calls and a broker that is away lead the sender to a put that breaks its file. */
module PipelineFaults {
  import opened Bytes
  import opened Frames
  import R = Ring
  import RingProofs
  import RingFifo
  import RingDisorder
  import opened RingFaults
  import opened Codec
  import opened Subsequences
  import opened Pipeline
  import opened Passes
  import opened Outages

  ghost predicate Reaches(s: Queues, t: Queues) {
    exists es :: Legal(s, es) && AllSafe(s, es) && After(s, es) == t
  }

  lemma {:induction false} ReachesSelf(s: Queues)
    ensures Reaches(s, s)
  {
    assert Legal(s, []) && AllSafe(s, []) && After(s, []) == s;
  }

  lemma {:induction false} ReachesNext(s: Queues, t: Queues, e: Event)
    requires Reaches(s, t) && Enabled(t, e) && Safe(t, e) && (e.Enqueue? ==> Fine(e.m))
    ensures Reaches(s, Next(t, e))
  {
    var es :| Legal(s, es) && AllSafe(s, es) && After(s, es) == t;
    AfterConcat(s, es, [e]);
    AfterOne(t, e);
  }

  lemma {:induction false} ReachesCalls(s: Queues, t: Queues, q: seq<Message>)
    requires Reaches(s, t) && AllFine(q)
    ensures Reaches(s, t.(accepted := t.accepted + q, incoming := t.incoming + q))
    decreases |q|
  {
    if q != [] {
      assert q[0] in q && forall m :: m in q[1..] ==> m in q;
      ReachesNext(s, t, Enqueue(q[0]));
      ReachesCalls(s, Next(t, Enqueue(q[0])), q[1..]);
      assert t.accepted + [q[0]] + q[1..] == t.accepted + q && t.incoming + [q[0]] + q[1..] == t.incoming + q;
    } else {
      assert t.accepted + [] == t.accepted && t.incoming + [] == t.incoming;
    }
  }

  lemma {:induction false} FilledTakesMore(q: seq<Record>, limit: nat, size: nat, shrink: bool)
    requires Fills(q, limit, size) && |q| <= 5
    ensures var r := Filled(q, limit, shrink);
            !R.Refused(r.limit, size - WORD) && RingProofs.PutSafe(r, size - WORD)
  {
    var r, n := Filled(q, limit, shrink), |q|;
    FilledAt(q, limit, size, shrink);
    RingFifo.AlignedAccepts(r, R.Older(r), R.Newer(r), size, HeadAfter(n), NextAfter(n), 3);
  }

  lemma {:induction false} SerialsMore(p: seq<Message>, m: Message, limit: nat, shrink: bool)
    ensures Filled(Serials(p + [m]), limit, shrink) == R.Put(Filled(Serials(p), limit, shrink), Serialize(m), shrink)
  {
    MapSeqConcat(Serialize, p, [m]);
    assert Serials([m]) == [Serialize(m)];
    FilledMore(Serials(p), Serialize(m), limit, shrink);
  }

  lemma {:induction false} SaveIsSafe(t: Queues, p: seq<Message>, m: Message, len: nat, limit: nat, shrink: bool)
    requires t.ring == Filled(Serials(p), limit, shrink) && t.saving != [] && t.saving[0] == m
    requires Alike(p, len, limit) && |p| < 5 && MessageLen(m) == len
    ensures Safe(t, SaveOne(shrink))
  {
    AlikeFills(p, len, limit);
    SerializeFits(m);
    FilledTakesMore(Serials(p), limit, WORD + len, shrink);
  }

  /** The messages in `p` are in the file and those in `c` are still being written. */
  lemma {:induction false} ReachesSaved(s: Queues, t: Queues, p: seq<Message>, c: seq<Message>, all: seq<Message>,
                                        len: nat, limit: nat, shrink: bool)
    requires Reaches(s, t) && t.ring == Filled(Serials(p), limit, shrink) && t.saving == c
    requires all == p + c && Alike(all, len, limit) && |all| <= 5
    ensures Reaches(s, t.(ring := Filled(Serials(all), limit, shrink), saving := []))
    decreases |c|
  {
    if c == [] {
      assert p == all;
      assert t.(ring := Filled(Serials(all), limit, shrink), saving := []) == t;
    } else {
      var m, more := c[0], p + [c[0]];
      assert m in all && forall x :: x in p ==> x in all;
      SaveIsSafe(t, p, m, len, limit, shrink);
      ReachesNext(s, t, SaveOne(shrink));
      SerialsMore(p, m, limit, shrink);
      Moved(p, c);
      ReachesSaved(s, t.(ring := Filled(Serials(more), limit, shrink), saving := c[1..]), more, c[1..], all,
                   len, limit, shrink);
    }
  }

  lemma {:induction false} ReachesTaken(m: Message, limit: nat)
    requires R.META <= limit < 0x8000_0000 && Fine(m)
    ensures Reaches(New(limit), Queues([m], [], [m], New(limit).ring, [], []))
  {
    var s := New(limit);
    NewIsFine(limit);
    ReachesSelf(s);
    ReachesNext(s, s, Enqueue(m));
    assert [] + [m] == [m];
    ReachesNext(s, Next(s, Enqueue(m)), Take);
  }

  lemma {:induction false} ReachesHanded(m: Message, rest: seq<Message>, limit: nat)
    requires R.META <= limit < 0x8000_0000 && Fine(m) && AllFine(rest)
    ensures Reaches(New(limit), Queues([m] + rest, [], [m], New(limit).ring, rest, []))
  {
    var s := New(limit);
    ReachesTaken(m, limit);
    ReachesCalls(s, Queues([m], [], [m], s.ring, [], []), rest);
    assert [] + rest == rest;
    ReachesNext(s, Queues([m] + rest, [], [m], s.ring, [], rest), Detach);
  }

  /** No put fails to be safe during the outage. */
  lemma {:induction false} OutageIsSafe(q: seq<Message>, len: nat, limit: nat, shrink: bool)
    requires Alike(q, len, limit) && |q| == 6
    ensures Reaches(New(limit), Waiting(q, limit, shrink))
  {
    var rest := q[1..];
    assert q[0] in q && forall x :: x in rest ==> x in q;
    assert [q[0]] + rest == q;
    ReachesHanded(q[0], rest, limit);
    ReachesFilled(New(limit), q, rest, len, limit, shrink);
  }

  lemma {:induction false} ReachesFilled(s: Queues, q: seq<Message>, rest: seq<Message>, len: nat, limit: nat,
                                         shrink: bool)
    requires Alike(q, len, limit) && |q| == 6 && rest == q[1..]
    requires Reaches(s, Queues(q, [], [q[0]], R.Open([], false, limit), rest, []))
    ensures Reaches(s, Waiting(q, limit, shrink))
  {
    assert forall x :: x in rest ==> x in q;
    assert Serials([]) == [] && [] + rest == rest;
    ReachesSaved(s, Queues(q, [], [q[0]], R.Open([], false, limit), rest, []), [], rest, rest, len, limit, shrink);
  }

  // ---- the put that is not ----

  /** One more message has been handed in and is about to be written. */
  function Poised(q: seq<Message>, n: Message, limit: nat, shrink: bool): Queues
    requires q != []
  {
    Waiting(q, limit, shrink).(accepted := q + [n], saving := [n])
  }

  lemma {:induction false} ReachesPoised(t: Queues, q: seq<Message>, n: Message, len: nat, limit: nat, shrink: bool)
    requires Alike(q, len, limit) && |q| == 6 && Fine(n) && t == Poised(q, n, limit, shrink)
    ensures Reaches(New(limit), t)
  {
    var s, w := New(limit), Waiting(q, limit, shrink);
    OutageIsSafe(q, len, limit, shrink);
    ReachesNext(s, w, Enqueue(n));
    assert [] + [n] == [n];
    ReachesNext(s, Next(w, Enqueue(n)), Detach);
  }

  lemma {:induction false} ReachedIsGood(ring: R.State, t: Queues)
    requires RingFine(ring) && Reaches(Start(ring), t)
    ensures Inv(t)
  {
    var s := Start(ring);
    var es :| Legal(s, es) && AllSafe(s, es) && After(s, es) == t;
    StartIsGood(ring);
    RunKeeps(s, es);
  }

  lemma {:induction false} PoisedIsUnsafe(t: Queues, q: seq<Message>, n: Message, len: nat, limit: nat, shrink: bool)
    requires Alike(q, len, limit) && |q| == 6 && TooLong(n, len, limit) && t == Poised(q, n, limit, shrink)
    ensures !Safe(t, SaveOne(shrink))
  {
    RestFills(q, len, limit);
    SerializeFits(n);
    TailBranchIsReached(Serials(q[1..]), MessageLen(n), limit, WORD + len, shrink);
  }

  lemma {:induction false} PoisedLeavesOne(t: Queues, q: seq<Message>, n: Message, len: nat, limit: nat, shrink: bool)
    requires Alike(q, len, limit) && |q| == 6 && TooLong(n, len, limit) && t == Poised(q, n, limit, shrink)
    ensures R.Contents(R.Put(t.ring, Serialize(n), shrink)) == [Serialize(n)]
  {
    RestFills(q, len, limit);
    SerializeFits(n);
    RingDisorder.TailPutLeavesOne(Serials(q[1..]), Serialize(n), limit, WORD + len, shrink);
  }

  lemma {:induction false} PoisedKeepsOrder(t: Queues, q: seq<Message>, n: Message, len: nat, limit: nat, shrink: bool)
    requires Alike(q, len, limit) && |q| == 6 && TooLong(n, len, limit) && t == Poised(q, n, limit, shrink)
    ensures var u := Next(t, SaveOne(shrink)); Subseq(Chain(u), Canons(u.accepted))
  {
    PoisedLeavesOne(t, q, n, len, limit, shrink);
    assert [n][1..] == [];
    EndsInOrder(q, n, Next(t, SaveOne(shrink)));
  }

  /** One message is taken for sending, five more of its length are flushed to the file, then a longer one: its put
      is the first that is not safe, and after it the file is no queue, while order still holds. */
  lemma {:induction false} UnsafeSaveIsReached(q: seq<Message>, n: Message, len: nat, limit: nat, shrink: bool)
    requires Alike(q, len, limit) && |q| == 6 && TooLong(n, len, limit)
    ensures var t := Poised(q, n, limit, shrink);
            var u := Next(t, SaveOne(shrink));
            && Reaches(New(limit), t) && Inv(t)
            && !Safe(t, SaveOne(shrink)) && !Inv(u) && Subseq(Chain(u), Canons(u.accepted))
  {
    var t := Poised(q, n, limit, shrink);
    ReachesPoised(t, q, n, len, limit, shrink);
    NewIsFine(limit);
    ReachedIsGood(R.Open([], false, limit), t);
    PoisedIsUnsafe(t, q, n, len, limit, shrink);
    UnsafeSaveBreaks(t, shrink);
    PoisedKeepsOrder(t, q, n, len, limit, shrink);
  }

  lemma {:induction false} TwoInLine<T>(x: T, z: T)
    ensures [] + [x] + [z] + [] + [] == [x] + [z]
  {}

  lemma {:induction false} OneCanon(m: Message)
    ensures Canons([m]) == [Canon(m)] && Canons([]) == []
  {}

  lemma {:induction false} EndsInOrder(q: seq<Message>, n: Message, u: Queues)
    requires q != [] && Fine(n) && u == Queues(q + [n], [], [q[0]], u.ring, [], [])
    requires R.Contents(u.ring) == [Serialize(n)]
    ensures Subseq(Chain(u), Canons(u.accepted))
  {
    SeenSerialized(n);
    assert Sees([Serialize(n)]) == [Canon(n)];
    OneCanon(q[0]);
    OneCanon(n);
    TwoInLine(Canon(q[0]), Canon(n));
    MapSeqConcat(Canon, q, [n]);
    MapSeqFirst(Canon, q);
    SubseqWithout([Canon(q[0])], Canons(q[1..]), [Canon(n)]);
  }
}
