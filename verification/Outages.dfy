/** The broker is away while messages come in: what the worker's passes leave in a new file. */
module Outages {
  import opened Bytes
  import opened Frames
  import R = Ring
  import RingProofs
  import opened RingFaults
  import opened Codec
  import opened Subsequences
  import opened Pipeline
  import opened Passes

  /** Messages of one length, of which the file has room for three. */
  ghost predicate Alike(q: seq<Message>, len: nat, limit: nat) {
    RoomForThree(limit, WORD + len) && limit < 0x8000_0000 && forall m :: m in q ==> Fine(m) && MessageLen(m) == len
  }

  lemma {:induction false} AlikeFills(q: seq<Message>, len: nat, limit: nat)
    requires Alike(q, len, limit)
    ensures Fills(Serials(q), limit, WORD + len)
  {
    forall x | x in Serials(q) ensures WORD + |x| == WORD + len {
      var i :| 0 <= i < |q| && x == Serials(q)[i];
      SerializeFits(q[i]);
      assert q[i] in q;
    }
  }

  // ---- what an outage leads to ----

  function Calls(q: seq<Message>): seq<Act> {
    MapSeq(m => Call(m), q)
  }

  /** A message is taken for sending, the others are handed in and flushed, and the broker stays away. */
  function Outage(q: seq<Message>, shrink: bool): seq<Act>
    requires q != []
  {
    [Call(q[0]), Work(shrink, NoConnection)] + (Calls(q[1..]) + [Work(shrink, NoConnection)])
  }

  function New(limit: nat): Queues { Start(R.Open([], false, limit)) }

  /** The first message is being sent, and all the others were put into a new file one after the other. */
  function Waiting(q: seq<Message>, limit: nat, shrink: bool): Queues
    requires q != []
  {
    Queues(q, [], [q[0]], Filled(Serials(q[1..]), limit, shrink), [], [])
  }

  lemma {:induction false} RunCalls(s: Queues, q: seq<Message>)
    ensures Run(s, Calls(q)) == s.(accepted := s.accepted + q, incoming := s.incoming + q)
    decreases |q|
  {
    if q != [] {
      var t := Next(s, Enqueue(q[0]));
      assert Calls(q)[1..] == Calls(q[1..]);
      RunCalls(t, q[1..]);
      assert s.accepted + [q[0]] + q[1..] == s.accepted + q && s.incoming + [q[0]] + q[1..] == s.incoming + q;
    } else {
      assert s.accepted + [] == s.accepted && s.incoming + [] == s.incoming;
    }
  }

  lemma {:induction false} RunOne(s: Queues, a: Act)
    ensures Run(s, [a]) == Do(s, a)
  {
    assert [a][1..] == [];
  }

  lemma {:induction false} Moved<T>(p: seq<T>, c: seq<T>)
    requires c != []
    ensures (p + [c[0]]) + c[1..] == p + c
  {}

  lemma {:induction false} PutAllFills(r: R.State, p: seq<Record>, q: seq<Record>, all: seq<Record>, limit: nat,
                                       shrink: bool)
    requires r == Filled(p, limit, shrink) && all == p + q
    ensures PutAll(r, q, shrink) == Filled(all, limit, shrink)
    decreases |q|
  {
    if q == [] {
      assert p == all;
    } else {
      var more := p + [q[0]];
      FilledMore(p, q[0], limit, shrink);
      Moved(p, q);
      PutAllFills(R.Put(r, q[0], shrink), more, q[1..], all, limit, shrink);
    }
  }

  lemma {:induction false} NewIsFine(limit: nat)
    requires R.META <= limit < 0x8000_0000
    ensures RingFine(R.Open([], false, limit)) && New(limit).accepted == [] && New(limit).ring.count == 0
  {
    RingProofs.FreshFileIsEmpty(limit);
  }

  /** A pass with an empty file takes the incoming list over; without a connection nothing leaves. */
  lemma {:induction false} TakingPass(s: Queues, shrink: bool)
    requires s.sending == s.saving == [] && s.ring.count == 0
    ensures Do(s, Work(shrink, NoConnection)) == s.(sending := s.incoming, incoming := [])
  {
    RefillLeaves(s, shrink);
  }

  lemma {:induction false} FirstTaken(m: Message, limit: nat, shrink: bool)
    requires R.META <= limit < 0x8000_0000
    ensures Run(New(limit), [Call(m), Work(shrink, NoConnection)]) == Queues([m], [], [m], New(limit).ring, [], [])
  {
    NewIsFine(limit);
    var s := Next(New(limit), Enqueue(m));
    assert [Call(m), Work(shrink, NoConnection)][1..] == [Work(shrink, NoConnection)];
    RunOne(s, Work(shrink, NoConnection));
    assert [] + [m] == [m];
    TakingPass(s, shrink);
  }

  /** A pass that writes everything incoming to a new file; nothing leaves. */
  lemma {:induction false} OutagePass(s: Queues, limit: nat, shrink: bool)
    requires s.sending != [] && s.saving == [] && s.ring == R.Open([], false, limit)
    ensures Do(s, Work(shrink, NoConnection)) ==
            s.(ring := Filled(Serials(s.incoming), limit, shrink), incoming := [])
  {
    var all := Serials(s.incoming);
    RefillLeaves(s, shrink);
    assert [] + all == all && Filled([], limit, shrink) == s.ring;
    PutAllFills(s.ring, [], all, all, limit, shrink);
  }

  lemma {:induction false} OutageWaits(q: seq<Message>, limit: nat, shrink: bool)
    requires q != [] && R.META <= limit < 0x8000_0000
    ensures Run(New(limit), Outage(q, shrink)) == Waiting(q, limit, shrink)
  {
    var m, rest, work := q[0], q[1..], Work(shrink, NoConnection);
    var s := Queues([m], [], [m], New(limit).ring, [], []);
    FirstTaken(m, limit, shrink);
    RunConcat(New(limit), [Call(m), work], Calls(rest) + [work]);
    CallsThenWork(s, q, rest, limit, shrink);
  }

  lemma {:induction false} CallsThenWork(s: Queues, q: seq<Message>, rest: seq<Message>, limit: nat, shrink: bool)
    requires q != [] && rest == q[1..] && s == Queues([q[0]], [], [q[0]], R.Open([], false, limit), [], [])
    ensures Run(s, Calls(rest) + [Work(shrink, NoConnection)]) == Waiting(q, limit, shrink)
  {
    var t := Queues(q, [], [q[0]], s.ring, [], rest);
    assert [q[0]] + rest == q && [] + rest == rest;
    RunCalls(s, rest);
    RunConcat(s, Calls(rest), [Work(shrink, NoConnection)]);
    RunOne(t, Work(shrink, NoConnection));
    OutagePass(t, limit, shrink);
  }

  lemma {:induction false} RestFills(q: seq<Message>, len: nat, limit: nat)
    requires Alike(q, len, limit) && |q| == 6
    ensures Fills(Serials(q[1..]), limit, WORD + len)
  {
    assert forall m :: m in q[1..] ==> m in q;
    AlikeFills(q[1..], len, limit);
  }

  /** A message that is longer than the others, but not more than two of their records. */
  ghost predicate TooLong(n: Message, len: nat, limit: nat) {
    Fine(n) && limit - R.META - 2 * (WORD + len) < WORD + MessageLen(n) <= 2 * (WORD + len)
  }
}
