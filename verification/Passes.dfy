/** The worker's loop, pass by pass, as runs of the machine in `Pipeline`. */
module Passes {
  import opened Frames
  import R = Ring
  import opened Codec
  import opened Pipeline
  import opened Subsequences

  function Saves(n: nat, shrink: bool): seq<Event> {
    seq(n, _ => SaveOne(shrink))
  }

  /** `flushIncomingQueueToFile` */
  function FlushEvents(incoming: nat, shrink: bool): seq<Event> {
    if incoming == 0 then [] else [Detach] + Saves(incoming, shrink)
  }

  /** Lines 527-563: refill, through the file whenever the file is not empty. */
  function RefillEvents(s: Queues, shrink: bool): seq<Event> {
    if s.sending != [] then FlushEvents(|s.incoming|, shrink)
    else if s.ring.count > 0 then FlushEvents(|s.incoming|, shrink) + [Fetch(shrink)]
    else if s.incoming != [] then [Take]
    else []
  }

  /** How an attempt to publish can end: the broker is known to be bad, no connection can be made, the publish
      call fails, its completion is not confirmed in time, or it is confirmed. */
  datatype Attempt = KnownBad | NoConnection | PublishRejected | Unconfirmed | Confirmed

  function AttemptEvent(a: Attempt): Event {
    match a
    case KnownBad => Discard
    case Confirmed => PublishOk
    case NoConnection | PublishRejected | Unconfirmed => PublishFail
  }

  /** Lines 565-649: what becomes of the message at the head of the sending list. */
  function Publish(s: Queues, a: Attempt): Queues {
    if s.sending == [] then s else Next(s, AttemptEvent(a))
  }

  function Refill(s: Queues, shrink: bool): Queues { After(s, RefillEvents(s, shrink)) }

  /** One pass of the worker's loop. */
  function Pass(s: Queues, shrink: bool, a: Attempt): Queues { Publish(Refill(s, shrink), a) }

  /** A caller's message between two passes, or a pass. */
  datatype Act = Call(m: Message) | Work(shrink: bool, a: Attempt)

  function Do(s: Queues, act: Act): Queues {
    match act
    case Call(m) => Next(s, Enqueue(m))
    case Work(shrink, a) => Pass(s, shrink, a)
  }

  function Run(s: Queues, acts: seq<Act>): Queues
    decreases |acts|
  {
    if acts == [] then s else Run(Do(s, acts[0]), acts[1..])
  }

  // ---- the events of a pass are enabled where they happen ----

  lemma {:induction false} SavesUnroll(n: nat, shrink: bool)
    requires n > 0
    ensures Saves(n, shrink)[0] == SaveOne(shrink) && Saves(n, shrink)[1..] == Saves(n - 1, shrink)
  {}

  lemma {:induction false} SavesAreLegal(s: Queues, shrink: bool)
    ensures Legal(s, Saves(|s.saving|, shrink)) && After(s, Saves(|s.saving|, shrink)).saving == []
    ensures After(s, Saves(|s.saving|, shrink)).sending == s.sending
    decreases |s.saving|
  {
    if s.saving != [] {
      SavesUnroll(|s.saving|, shrink);
      SavesAreLegal(Next(s, SaveOne(shrink)), shrink);
    }
  }

  lemma {:induction false} FlushIsLegal(s: Queues, shrink: bool)
    requires s.saving == []
    ensures Legal(s, FlushEvents(|s.incoming|, shrink))
    ensures var t := After(s, FlushEvents(|s.incoming|, shrink)); t.saving == [] && t.sending == s.sending
  {
    if s.incoming != [] {
      SavesAreLegal(Next(s, Detach), shrink);
      AfterOne(s, Detach);
      AfterConcat(s, [Detach], Saves(|s.incoming|, shrink));
    }
  }

  lemma {:induction false} RefillIsLegal(s: Queues, shrink: bool)
    requires s.saving == []
    ensures Legal(s, RefillEvents(s, shrink)) && Refill(s, shrink).saving == []
  {
    FlushIsLegal(s, shrink);
    var flush := FlushEvents(|s.incoming|, shrink);
    if s.sending == [] && s.ring.count > 0 {
      AfterConcat(s, flush, [Fetch(shrink)]);
      AfterOne(After(s, flush), Fetch(shrink));
    } else if s.sending == [] && s.incoming != [] {
      AfterOne(s, Take);
    }
  }

  lemma {:induction false} RefillKeeps(s: Queues, shrink: bool)
    requires s.saving == []
    ensures Inv(s) && AllSafe(s, RefillEvents(s, shrink)) ==> Inv(Refill(s, shrink))
  {
    RefillIsLegal(s, shrink);
    if Inv(s) && AllSafe(s, RefillEvents(s, shrink)) { RunKeeps(s, RefillEvents(s, shrink)); }
  }

  // ---- what a pass leaves ----

  function Serials(q: seq<Message>): seq<Record> {
    MapSeq(Serialize, q)
  }

  function PutAll(r: R.State, q: seq<Record>, shrink: bool): R.State
    decreases |q|
  {
    if q == [] then r else PutAll(R.Put(r, q[0], shrink), q[1..], shrink)
  }

  /** The incoming list is written to the file. */
  function Flushed(s: Queues, shrink: bool): Queues {
    s.(ring := PutAll(s.ring, Serials(s.incoming), shrink), incoming := [])
  }

  lemma {:induction false} SavesLeave(s: Queues, shrink: bool)
    ensures After(s, Saves(|s.saving|, shrink)) == s.(ring := PutAll(s.ring, Serials(s.saving), shrink), saving := [])
    decreases |s.saving|
  {
    if s.saving != [] {
      SavesUnroll(|s.saving|, shrink);
      MapSeqFirst(Serialize, s.saving);
      SavesLeave(Next(s, SaveOne(shrink)), shrink);
    } else {
      assert Saves(0, shrink) == [];
    }
  }

  lemma {:induction false} FlushLeaves(s: Queues, shrink: bool)
    requires s.saving == []
    ensures After(s, FlushEvents(|s.incoming|, shrink)) == Flushed(s, shrink)
  {
    if s.incoming != [] {
      AfterOne(s, Detach);
      AfterConcat(s, [Detach], Saves(|s.incoming|, shrink));
      SavesLeave(Next(s, Detach), shrink);
    } else {
      assert Serials([]) == [];
    }
  }

  lemma {:induction false} RefillLeaves(s: Queues, shrink: bool)
    requires s.saving == []
    ensures Refill(s, shrink) ==
            if s.sending != [] then Flushed(s, shrink)
            else if s.ring.count > 0 then Next(Flushed(s, shrink), Fetch(shrink))
            else s.(sending := s.incoming, incoming := [])
  {
    FlushIsLegal(s, shrink);
    FlushLeaves(s, shrink);
    if s.sending == [] && s.ring.count > 0 {
      AfterConcat(s, FlushEvents(|s.incoming|, shrink), [Fetch(shrink)]);
      AfterOne(Flushed(s, shrink), Fetch(shrink));
    } else if s.sending == [] && s.incoming != [] {
      AfterOne(s, Take);
    }
  }

  lemma {:induction false} RunConcat(s: Queues, a: seq<Act>, b: seq<Act>)
    ensures Run(s, a + b) == Run(Run(s, a), b)
    decreases |a|
  {
    if a == [] {
      assert a + b == b;
    } else {
      assert (a + b)[1..] == a[1..] + b;
      RunConcat(Do(s, a[0]), a[1..], b);
    }
  }

  // ---- progress ----

  /** How many messages are still to be sent. */
  function Left(s: Queues): nat {
    |s.sending| + |R.Contents(s.ring)| + |s.incoming|
  }

  ghost predicate Settled(s: Queues) {
    Inv(s) && s.saving == []
  }

  lemma {:induction false} ChainLength(s: Queues)
    requires s.saving == []
    ensures |Chain(s)| == |s.sent| + Left(s) && Missing(s) == |s.accepted| - |s.sent| - Left(s)
  {}

  ghost predicate SafePass(s: Queues, shrink: bool) {
    AllSafe(s, RefillEvents(s, shrink))
  }

  ghost predicate LosslessPass(s: Queues, shrink: bool) {
    AllLossless(s, RefillEvents(s, shrink))
  }

  /** `t` comes from `s` without anything sent or accepted; `whole` says whether nothing was lost. */
  ghost predicate Comes(s: Queues, t: Queues, whole: bool) {
    && Settled(t) && t.sent == s.sent && t.accepted == s.accepted
    && Left(t) <= Left(s) && (Left(t) == Left(s) <==> whole)
  }

  lemma {:induction false} EventsCome(s: Queues, es: seq<Event>, t: Queues)
    requires Inv(s) && s.saving == [] && Legal(s, es) && AllSafe(s, es) && t == After(s, es)
    requires t.saving == [] && t.sent == s.sent && t.accepted == s.accepted
    ensures Comes(s, t, AllLossless(s, es))
  {
    RunKeeps(s, es);
    ChainLength(s);
    ChainLength(t);
  }

  /** A refill sends nothing and accepts nothing. */
  lemma {:induction false} RefillHistory(s: Queues, shrink: bool)
    requires s.saving == []
    ensures Refill(s, shrink).sent == s.sent && Refill(s, shrink).accepted == s.accepted
  {
    RefillLeaves(s, shrink);
  }

  lemma {:induction false} RefillComes(s: Queues, shrink: bool)
    requires Settled(s) && SafePass(s, shrink)
    ensures Comes(s, Refill(s, shrink), LosslessPass(s, shrink))
  {
    RefillIsLegal(s, shrink);
    RefillHistory(s, shrink);
    EventsCome(s, RefillEvents(s, shrink), Refill(s, shrink));
  }

  lemma {:induction false} FlushComes(s: Queues, shrink: bool)
    requires Settled(s) && SafePass(s, shrink) && s.sending == [] && s.ring.count > 0
    ensures exists whole :: Comes(s, Flushed(s, shrink), whole)
  {
    var flush := FlushEvents(|s.incoming|, shrink);
    FlushIsLegal(s, shrink);
    FlushLeaves(s, shrink);
    AfterConcat(s, flush, [Fetch(shrink)]);
    EventsCome(s, flush, Flushed(s, shrink));
  }

  lemma {:induction false} PopLeavesLess(r: R.State, shrink: bool)
    requires RingFine(r)
    ensures var t := R.Pop(r, shrink);
            if r.count == 0 then R.Contents(r) == R.Contents(t) == [] else |R.Contents(t)| == |R.Contents(r)| - 1
  {
    if r.count > 0 { PopsFirst(r, shrink); }
  }

  lemma {:induction false} FetchMisses(u: Queues, shrink: bool)
    requires RingFine(u.ring) && u.saving == u.sending == [] && Next(u, Fetch(shrink)).sending == []
    ensures var t := Next(u, Fetch(shrink));
            Left(t) == if u.ring.count == 0 then |u.incoming| else Left(u) - 1
  {
    PopLeavesLess(u.ring, shrink);
  }

  lemma {:induction false} FlushThenMiss(s: Queues, u: Queues, shrink: bool)
    requires exists whole :: Comes(s, u, whole)
    requires u.sending == u.incoming == [] && Next(u, Fetch(shrink)).sending == [] && Left(s) > 0
    ensures Left(Next(u, Fetch(shrink))) < Left(s)
  {
    FetchMisses(u, shrink);
  }

  /** A refill that leaves nothing to send has lost something, or there was nothing. */
  lemma {:induction false} NothingFetched(s: Queues, shrink: bool, t: Queues)
    requires Settled(s) && SafePass(s, shrink) && t == Refill(s, shrink) && t.sending == [] && Left(s) > 0
    ensures Left(t) < Left(s)
  {
    RefillLeaves(s, shrink);
    if s.ring.count > 0 {
      FlushComes(s, shrink);
      FlushThenMiss(s, Flushed(s, shrink), shrink);
    }
  }

  lemma {:induction false} PublishSends(u: Queues)
    requires Settled(u) && u.sending != []
    ensures var t := Next(u, PublishOk);
            Settled(t) && t.accepted == u.accepted && |t.sent| == |u.sent| + 1 && Left(t) == Left(u) - 1
  {
    StepKeeps(u, PublishOk);
  }

  /** What a confirmed pass brings: no less goes missing, and nothing just when its refill loses nothing. */
  ghost predicate Progress(s: Queues, t: Queues, whole: bool) {
    && Settled(t) && t.accepted == s.accepted && |s.sent| <= |t.sent| <= |s.sent| + 1
    && (if Left(s) == 0 then Left(t) == 0 else Left(t) < Left(s))
    && |t.sent| + Left(t) <= |s.sent| + Left(s)
    && (|t.sent| + Left(t) == |s.sent| + Left(s) <==> whole)
  }

  lemma {:induction false} NoneToSend(s: Queues, u: Queues, whole: bool)
    requires Comes(s, u, whole) && u.sending == [] && (Left(s) > 0 ==> Left(u) < Left(s))
    ensures Progress(s, u, whole)
  {}

  lemma {:induction false} SentOn(s: Queues, u: Queues, t: Queues, whole: bool)
    requires Comes(s, u, whole) && u.sending != [] && Settled(t) && t.accepted == u.accepted
    requires |t.sent| == |u.sent| + 1 && Left(t) == Left(u) - 1
    ensures Progress(s, t, whole)
  {}

  lemma {:induction false} IdlePass(s: Queues, u: Queues, shrink: bool, t: Queues)
    requires Settled(s) && SafePass(s, shrink) && u == Refill(s, shrink) && u.sending == [] && t == u
    ensures Progress(s, t, LosslessPass(s, shrink))
  {
    RefillComes(s, shrink);
    if Left(s) > 0 { NothingFetched(s, shrink, u); }
    NoneToSend(s, u, LosslessPass(s, shrink));
  }

  lemma {:induction false} SendingPass(s: Queues, u: Queues, shrink: bool, t: Queues)
    requires Settled(s) && SafePass(s, shrink) && u == Refill(s, shrink) && u.sending != [] && t == Next(u, PublishOk)
    ensures Progress(s, t, LosslessPass(s, shrink))
  {
    RefillComes(s, shrink);
    PublishSends(u);
    SentOn(s, u, t, LosslessPass(s, shrink));
  }

  lemma {:induction false} PassProgresses(s: Queues, shrink: bool, t: Queues)
    requires Settled(s) && SafePass(s, shrink) && t == Pass(s, shrink, Confirmed)
    ensures Progress(s, t, LosslessPass(s, shrink))
  {
    var u := Refill(s, shrink);
    if u.sending == [] { IdlePass(s, u, shrink, t); } else { SendingPass(s, u, shrink, t); }
  }

  /** Without a loss a confirmed pass sends exactly one message. */
  lemma {:induction false} PassSendsOne(s: Queues, shrink: bool)
    requires Settled(s) && LosslessPass(s, shrink) && Left(s) > 0
    ensures var t := Pass(s, shrink, Confirmed);
            Settled(t) && |t.sent| == |s.sent| + 1 && Left(t) == Left(s) - 1
  {
    RefillIsLegal(s, shrink);
    LosslessRunIsSafe(s, RefillEvents(s, shrink));
    PassProgresses(s, shrink, Pass(s, shrink, Confirmed));
  }

  /** Passes in which every attempt is confirmed, with no new messages. */
  function Drained(s: Queues, shrinks: seq<bool>): Queues
    decreases |shrinks|
  {
    if shrinks == [] then s else Drained(Pass(s, shrinks[0], Confirmed), shrinks[1..])
  }

  ghost predicate SafePasses(s: Queues, shrinks: seq<bool>)
    decreases |shrinks|
  {
    shrinks != [] ==> SafePass(s, shrinks[0]) && SafePasses(Pass(s, shrinks[0], Confirmed), shrinks[1..])
  }

  ghost predicate LosslessPasses(s: Queues, shrinks: seq<bool>)
    decreases |shrinks|
  {
    shrinks != [] ==> LosslessPass(s, shrinks[0]) && LosslessPasses(Pass(s, shrinks[0], Confirmed), shrinks[1..])
  }

  lemma {:induction false} DrainCounts(s: Queues, shrinks: seq<bool>)
    requires Settled(s) && SafePasses(s, shrinks)
    ensures var t := Drained(s, shrinks);
            && Settled(t) && t.accepted == s.accepted && (|shrinks| >= Left(s) ==> Left(t) == 0)
            && |t.sent| + Left(t) <= |s.sent| + Left(s)
            && (|t.sent| + Left(t) == |s.sent| + Left(s) <==> LosslessPasses(s, shrinks))
    decreases |shrinks|
  {
    if shrinks != [] {
      PassProgresses(s, shrinks[0], Pass(s, shrinks[0], Confirmed));
      DrainCounts(Pass(s, shrinks[0], Confirmed), shrinks[1..]);
    }
  }

  /** As many passes as there are messages still to be sent leave all three queues empty. Every message accepted
      has then been sent, in order, exactly when none was missing before and none was lost on the way. */
  lemma {:induction false} DrainSendsAll(s: Queues, shrinks: seq<bool>)
    requires Settled(s) && SafePasses(s, shrinks) && |shrinks| >= Left(s)
    ensures var t := Drained(s, shrinks);
            && t.sending == t.saving == t.incoming == [] && R.Contents(t.ring) == []
            && t.accepted == s.accepted && Subseq(Canons(t.sent), Canons(t.accepted))
            && (Canons(t.sent) == Canons(t.accepted) <==> Missing(s) == 0 && LosslessPasses(s, shrinks))
  {
    var t := Drained(s, shrinks);
    DrainCounts(s, shrinks);
    ChainLength(s);
    ChainLength(t);
    SubseqLength(Chain(s), Canons(s.accepted));
    SubseqLength(Chain(t), Canons(t.accepted));
    assert Canons([]) == [] && Sees([]) == [];
    assert Chain(t) == Canons(t.sent);
  }
}
