/** Messages kept in memory while the broker cannot take them. */
module MessageRing {
  import opened Counting
  import opened Wrappers

  const MSG_BUF_SIZE := 10240

  /** `sent` and `dropped` are the history: what the broker took, and what was overwritten. */
  datatype State<T> = Kept(buffer: seq<T>, sent: seq<T>, dropped: seq<T>)

  /** One call of `send_data`; `ok(k)` is whether the broker takes the `k`-th message it is given. */
  datatype Call<T> = Call(data: Option<T>, connected: bool, ok: nat -> bool)

  /** The newest message pushes out the oldest when the ring is full. */
  function Offer<T>(s: State<T>, x: T): State<T> {
    if |s.buffer| >= MSG_BUF_SIZE && s.buffer != [] then
      s.(buffer := s.buffer[1..] + [x], dropped := s.dropped + [s.buffer[0]])
    else s.(buffer := s.buffer + [x])
  }

  /** One turn of the drain loop: the oldest message is sent, or put back behind all the others. */
  function Turn<T>(s: State<T>, ok: bool): State<T>
    requires s.buffer != []
  {
    if ok then s.(buffer := s.buffer[1..], sent := s.sent + [s.buffer[0]])
    else s.(buffer := s.buffer[1..] + [s.buffer[0]])
  }

  /** What the drain loop leaves. */
  function Drained<T>(s: State<T>, ok: nat -> bool, k: nat): State<T>
    decreases |s.buffer|
  {
    if s.buffer == [] then s
    else if ok(k) then Drained(Turn(s, true), ok, k + 1)
    else Turn(s, false)
  }

  function Send<T>(s: State<T>, c: Call<T>): State<T> {
    if c.data == None then s
    else if c.connected && c.ok(0) then Drained(s.(sent := s.sent + [c.data.value]), c.ok, 1)
    else Offer(s, c.data.value)
  }

  function Run<T>(s: State<T>, calls: seq<Call<T>>): State<T>
    decreases |calls|
  {
    if calls == [] then s else Run(Send(s, calls[0]), calls[1..])
  }

  function Offered<T>(calls: seq<Call<T>>): seq<T> {
    if calls == [] then []
    else (if calls[0].data.Some? then [calls[0].data.value] else []) + Offered(calls[1..])
  }

  /** When the broker takes `j` messages and turns the next one down, those are gone from the front and that one
      goes behind the rest; when it takes all, nothing is left. */
  lemma {:induction false} DrainRotates<T>(s: State<T>, ok: nat -> bool, k: nat, j: nat)
    requires j <= |s.buffer| && (forall i: nat :: k <= i < k + j ==> ok(i)) && (j < |s.buffer| ==> !ok(k + j))
    ensures var t := Drained(s, ok, k);
            && t.sent == s.sent + s.buffer[..j] && t.dropped == s.dropped
            && t.buffer == if j < |s.buffer| then s.buffer[j + 1..] + [s.buffer[j]] else []
    decreases j
  {
    var b := s.buffer;
    if j == 0 {
      assert s.sent + b[..0] == s.sent;
    } else {
      DrainRotates(Turn(s, true), ok, k + 1, j - 1);
      assert s.sent + [b[0]] + b[1..][..j - 1] == s.sent + b[..j];
      assert j < |b| ==> b[1..][j..] == b[j + 1..];
    }
  }

  /** One call, in full. A message that cannot be sent waits behind all others, at the cost of the oldest when 10240
      wait; one that is sent is followed by all that wait up to the first the broker turns down, which goes behind
      the rest. */
  lemma {:induction false} SendExactly<T>(s: State<T>, c: Call<T>, j: nat)
    requires c.data.Some? && c.connected && c.ok(0) ==>
               j <= |s.buffer| && (forall i: nat :: 1 <= i < 1 + j ==> c.ok(i)) && (j < |s.buffer| ==> !c.ok(1 + j))
    ensures var b, t := s.buffer, Send(s, c);
            if c.data == None then t == s
            else if c.connected && c.ok(0) then
              && t.sent == s.sent + [c.data.value] + b[..j] && t.dropped == s.dropped
              && t.buffer == if j < |b| then b[j + 1..] + [b[j]] else []
            else
              && t.sent == s.sent
              && t.buffer == (if |b| >= 10240 then b[1..] else b) + [c.data.value]
              && t.dropped == if |b| >= 10240 then s.dropped + [b[0]] else s.dropped
  {
    if c.data.Some? && c.connected && c.ok(0) { DrainRotates(s.(sent := s.sent + [c.data.value]), c.ok, 1, j); }
  }

  // ---- nothing is lost ----

  ghost function Total<T>(s: State<T>, x: T): nat {
    Count(s.buffer, x) + Count(s.sent, x) + Count(s.dropped, x)
  }

  lemma {:induction false} TurnConserves<T>(s: State<T>, ok: bool, x: T)
    requires s.buffer != []
    ensures Total(Turn(s, ok), x) == Total(s, x)
  {
    var b := s.buffer;
    assert b == [b[0]] + b[1..];
    CountConcat([b[0]], b[1..], x);
    CountConcat(b[1..], [b[0]], x);
    CountConcat(s.sent, [b[0]], x);
  }

  /** The drain loop loses nothing, however many messages the broker takes. */
  lemma {:induction false} DrainConserves<T>(s: State<T>, ok: nat -> bool, k: nat, x: T)
    ensures var t := Drained(s, ok, k);
            Total(t, x) == Total(s, x) && t.dropped == s.dropped && |t.buffer| <= |s.buffer|
    decreases |s.buffer|
  {
    if s.buffer != [] {
      TurnConserves(s, ok(k), x);
      if ok(k) { DrainConserves(Turn(s, true), ok, k + 1, x); }
    }
  }

  lemma {:induction false} OfferConserves<T>(s: State<T>, m: T, x: T)
    ensures Total(Offer(s, m), x) == Total(s, x) + Count([m], x)
  {
    if |s.buffer| >= MSG_BUF_SIZE && s.buffer != [] {
      CountConcat(s.buffer[1..], [m], x);
      CountConcat(s.dropped, [s.buffer[0]], x);
    } else {
      CountConcat(s.buffer, [m], x);
    }
  }

  /** Over any calls, every message handed in was sent, is waiting, or was pushed out, once for each time. */
  lemma {:induction false} RunConserves<T>(s: State<T>, calls: seq<Call<T>>, x: T)
    ensures Total(Run(s, calls), x) == Total(s, x) + Count(Offered(calls), x)
    decreases |calls|
  {
    if calls != [] {
      var c := calls[0];
      RunConserves(Send(s, c), calls[1..], x);
      if c.data.Some? {
        CountConcat([c.data.value], Offered(calls[1..]), x);
        CountConcat(s.sent, [c.data.value], x);
        OfferConserves(s, c.data.value, x);
        DrainConserves(s.(sent := s.sent + [c.data.value]), c.ok, 1, x);
      } else {
        assert [] + Offered(calls[1..]) == Offered(calls[1..]);
      }
    }
  }

  /** A message is pushed out exactly when the ring is full and the new one cannot be sent; the oldest goes. */
  lemma {:induction false} DropsOnlyWhenFull<T>(s: State<T>, c: Call<T>)
    requires |s.buffer| <= MSG_BUF_SIZE
    ensures var t := Send(s, c);
            && |t.buffer| <= MSG_BUF_SIZE
            && (t.dropped != s.dropped <==> c.data.Some? && |s.buffer| == 10240 && !(c.connected && c.ok(0)))
            && (t.dropped != s.dropped ==> t.dropped == s.dropped + [s.buffer[0]])
  {
    if c.data.Some? { DrainConserves(s.(sent := s.sent + [c.data.value]), c.ok, 1, c.data.value); }
  }

  // ---- order ----

  /** Every message still to be seen by the broker or already seen by it, in the order it sees them. */
  function Line<T>(s: State<T>): seq<T> { s.sent + s.buffer }

  /** The call does not let a message overtake another: what goes out at once meets an empty ring, and what
      has to wait finds room. */
  predicate KeepsOrder<T>(s: State<T>, c: Call<T>) {
    || c.data == None
    || if c.connected && c.ok(0) then s.buffer == [] else |s.buffer| < MSG_BUF_SIZE
  }

  ghost predicate AllKeepOrder<T>(s: State<T>, calls: seq<Call<T>>)
    decreases |calls|
  {
    calls != [] ==> KeepsOrder(s, calls[0]) && AllKeepOrder(Send(s, calls[0]), calls[1..])
  }

  ghost predicate Distinct<T>(q: seq<T>) {
    forall i, j :: 0 <= i < j < |q| ==> q[i] != q[j]
  }

  lemma {:induction false} PrefixTrans<T>(a: seq<T>, b: seq<T>, c: seq<T>)
    requires a <= b <= c
    ensures a <= c
  {}

  lemma {:induction false} DrainSendsOn<T>(s: State<T>, ok: nat -> bool, k: nat)
    ensures var t := Drained(s, ok, k);
            s.sent <= t.sent && |Line(t)| == |Line(s)| && |t.buffer| <= |s.buffer| && t.dropped == s.dropped
    decreases |s.buffer|
  {
    if s.buffer != [] && ok(k) { DrainSendsOn(Turn(s, true), ok, k + 1); }
  }

  /** What is sent stays sent, and only what is overwritten leaves the line. */
  lemma {:induction false} SendGrows<T>(s: State<T>, c: Call<T>)
    requires |s.buffer| <= MSG_BUF_SIZE
    ensures var t := Send(s, c);
            && s.sent <= t.sent && |t.buffer| <= MSG_BUF_SIZE && |t.dropped| >= |s.dropped|
            && |Line(t)| + |t.dropped| == |Line(s)| + |s.dropped| + |Offered([c])|
  {
    if c.data.Some? { DrainSendsOn(s.(sent := s.sent + [c.data.value]), c.ok, 1); }
  }

  lemma {:induction false} RunGrows<T>(s: State<T>, calls: seq<Call<T>>)
    requires |s.buffer| <= MSG_BUF_SIZE
    ensures var t := Run(s, calls);
            && s.sent <= t.sent && |t.dropped| >= |s.dropped|
            && |Line(t)| + |t.dropped| == |Line(s)| + |s.dropped| + |Offered(calls)|
    decreases |calls|
  {
    if calls != [] {
      SendGrows(s, calls[0]);
      RunGrows(Send(s, calls[0]), calls[1..]);
      PrefixTrans(s.sent, Send(s, calls[0]).sent, Run(s, calls).sent);
    }
  }

  lemma {:induction false} KeptInLine<T>(s: State<T>, c: Call<T>)
    requires |s.buffer| <= MSG_BUF_SIZE && KeepsOrder(s, c)
    ensures Line(Send(s, c)) == Line(s) + Offered([c])
  {
    if c.data.Some? {
      assert Line(s) + [c.data.value] == s.sent + (s.buffer + [c.data.value]);
      if s.buffer == [] { assert s.sent + [c.data.value] + [] == s.sent + [] + [c.data.value]; }
    }
  }

  /** The new message is sent before the waiting ones. */
  lemma {:induction false} Overtakes<T>(s: State<T>, c: Call<T>)
    requires c.data.Some? && c.connected && c.ok(0)
    ensures s.sent + [c.data.value] <= Send(s, c).sent
  {
    DrainSendsOn(s.(sent := s.sent + [c.data.value]), c.ok, 1);
  }

  lemma {:induction false} OfferedFirst<T>(s: State<T>, calls: seq<Call<T>>)
    requires calls != []
    ensures Line(s) + Offered(calls) == Line(s) + Offered([calls[0]]) + Offered(calls[1..])
  {
    assert Offered([calls[0]][1..]) == [];
  }

  /** Once a call has broken the order no later call mends it. */
  lemma {:induction false} NeverMended<T>(s: State<T>, calls: seq<Call<T>>)
    requires |s.buffer| <= MSG_BUF_SIZE && calls != [] && !KeepsOrder(s, calls[0])
    requires calls[0].data.value !in s.buffer
    ensures Line(Run(s, calls)) != Line(s) + Offered(calls)
  {
    var c, u, t := calls[0], Send(s, calls[0]), Run(s, calls);
    SendGrows(s, c);
    RunGrows(u, calls[1..]);
    OfferedFirst(s, calls);
    if c.connected && c.ok(0) {
      Overtakes(s, c);
      PrefixTrans(s.sent + [c.data.value], u.sent, t.sent);
      var n, all := |s.sent|, Line(s) + Offered(calls);
      assert t.sent[n] == (s.sent + [c.data.value])[n] == c.data.value;
      assert Line(t)[n] == c.data.value && all[n] == s.buffer[0] && s.buffer[0] in s.buffer;
    }
  }

  /** The broker sees the messages in the order they were handed in, with none overwritten, if and only if no
      call let a new message overtake a waiting one or push one out. */
  lemma {:induction false} OrderExactly<T>(s: State<T>, calls: seq<Call<T>>)
    requires |s.buffer| <= MSG_BUF_SIZE && Distinct(Line(s) + Offered(calls))
    ensures Line(Run(s, calls)) == Line(s) + Offered(calls) <==> AllKeepOrder(s, calls)
    decreases |calls|
  {
    if calls != [] {
      if KeepsOrder(s, calls[0]) {
        KeptInLine(s, calls[0]);
        OfferedFirst(s, calls);
        SendGrows(s, calls[0]);
        OrderExactly(Send(s, calls[0]), calls[1..]);
      } else {
        var all, x := Line(s) + Offered(calls), calls[0].data.value;
        assert forall i :: 0 <= i < |s.buffer| ==> all[|s.sent| + i] == s.buffer[i];
        assert all[|Line(s)|] == x;
        NeverMended(s, calls);
      }
    }
  }

  /** The same for one call, by what a caller can see before it. */
  lemma {:induction false} CallKeepsOrder<T>(s: State<T>, c: Call<T>)
    requires |s.buffer| <= MSG_BUF_SIZE && (c.data.Some? ==> c.data.value !in s.buffer)
    ensures Line(Send(s, c)) == Line(s) + Offered([c]) <==> KeepsOrder(s, c)
  {
    if KeepsOrder(s, c) {
      KeptInLine(s, c);
    } else {
      NeverMended(s, [c]);
      assert [c][1..] == [];
      assert Run(s, [c]) == Send(s, c);
    }
  }

  /** From an empty ring: message 1 waits because there is no connection, message 2 goes out before it. */
  lemma {:induction false} SecondGoesFirst()
    ensures var calls := [Call(Some(1), false, (k: nat) => true), Call(Some(2), true, (k: nat) => true)];
            Offered(calls) == [1, 2] && Run(Kept([], [], []), calls).sent == [2, 1]
  {
    var ok := (k: nat) => true;
    var calls := [Call(Some(1), false, ok), Call(Some(2), true, ok)];
    var one, both := Kept([1], [], []), Kept([1], [2], []);
    assert Send(Kept([], [], []), calls[0]) == one;
    assert one.(sent := one.sent + [2]) == both && Turn(both, true) == Kept([], [2, 1], []);
    assert Drained(both, ok, 1) == Drained(Turn(both, true), ok, 2);
    assert calls[1..][1..] == [] && calls[1..][0] == calls[1];
    assert Run(one, calls[1..]) == Run(Send(one, calls[1]), []);
  }

  // ---- the ring ----

  function Index(head: nat, i: nat): (r: nat)
    requires head < MSG_BUF_SIZE && i <= MSG_BUF_SIZE
    ensures r < MSG_BUF_SIZE && r == (head + i) % MSG_BUF_SIZE
  {
    if head + i < MSG_BUF_SIZE then head + i else head + i - MSG_BUF_SIZE
  }

  /** What the ring holds, oldest first. */
  function Window<T>(data: seq<T>, head: nat, size: nat): (q: seq<T>)
    requires |data| == MSG_BUF_SIZE && head < MSG_BUF_SIZE && size <= MSG_BUF_SIZE
    ensures |q| == size
    ensures forall i :: 0 <= i < size ==> q[i] == data[Index(head, i)]
  {
    seq(size, i requires 0 <= i < size => data[Index(head, i)])
  }

  lemma {:induction false} WindowGrows<T>(data: seq<T>, head: nat, size: nat, x: T)
    requires |data| == MSG_BUF_SIZE && head < MSG_BUF_SIZE && size < MSG_BUF_SIZE
    ensures Window(data[Index(head, size) := x], head, size + 1) == Window(data, head, size) + [x]
  {}

  lemma {:induction false} WindowSlides<T>(data: seq<T>, head: nat, x: T)
    requires |data| == MSG_BUF_SIZE && head < MSG_BUF_SIZE
    ensures Window(data[head := x], Index(head, 1), MSG_BUF_SIZE) == Window(data, head, MSG_BUF_SIZE)[1..] + [x]
  {}

  class MemoryRing<T(0)> {
    const data: array<T>
    var head: nat
    var size: nat
    ghost var waiting: seq<T>
    ghost var sent: seq<T>
    ghost var dropped: seq<T>

    ghost predicate Valid()
      reads this, data
    {
      && data.Length == MSG_BUF_SIZE && head < MSG_BUF_SIZE && size <= MSG_BUF_SIZE
      && |waiting| == size && waiting == Window(data[..], head, size)
    }

    ghost function State(): State<T>
      reads this
    {
      Kept(waiting, sent, dropped)
    }

    constructor ()
      ensures Valid() && fresh(data) && State() == Kept([], [], [])
    {
      data := new T[MSG_BUF_SIZE];
      head, size, waiting, sent, dropped := 0, 0, [], [], [];
    }

    /** `put_buff_data`; it reports whether nothing was overwritten. */
    method Put(x: T) returns (kept: bool)
      requires Valid()
      modifies this, data
      ensures Valid() && State() == Offer(old(State()), x)
      ensures kept <==> old(size) < MSG_BUF_SIZE
    {
      ghost var before := data[..];
      var idx := (size + head) % MSG_BUF_SIZE;
      assert idx == Index(head, size);
      if size >= MSG_BUF_SIZE {
        WindowSlides(before, head, x);
        data[idx] := x;
        head := (head + 1) % MSG_BUF_SIZE;
        size := MSG_BUF_SIZE;
        assert data[..] == before[idx := x];
        waiting, dropped := waiting[1..] + [x], dropped + [waiting[0]];
        kept := false;
      } else {
        WindowGrows(before, head, size, x);
        data[idx] := x;
        size := size + 1;
        assert data[..] == before[idx := x];
        waiting := waiting + [x];
        kept := true;
      }
    }

    /** `get_buff_data`: nothing, with no change, when the ring is empty. */
    method Get() returns (x: Option<T>)
      requires Valid()
      modifies this
      ensures Valid() && sent == old(sent) && dropped == old(dropped)
      ensures old(size) == 0 ==> x == None && State() == old(State())
      ensures old(size) > 0 ==> x == Some(old(waiting)[0]) && waiting == old(waiting)[1..]
    {
      if size == 0 {
        return None;
      }
      x := Some(data[head]);
      head := (head + 1) % MSG_BUF_SIZE;
      size := size - 1;
      waiting := waiting[1..];
      assert waiting == Window(data[..], head, size);
    }

    method SendOldest(ok: bool)
      requires Valid() && size > 0
      modifies this, data
      ensures Valid() && State() == Turn(old(State()), ok)
    {
      var x := Get();
      if ok {
        sent := sent + [x.value];
      } else {
        var _ := Put(x.value);
      }
    }

    /** The drain loop of `send_data`. */
    method Drain(ok: nat -> bool, k: nat)
      requires Valid()
      modifies this, data
      ensures Valid() && State() == Drained(old(State()), ok, k)
    {
      var i := k;
      var rc := true;
      while rc && size > 0
        invariant Valid()
        invariant (if rc then Drained(State(), ok, i) else State()) == Drained(old(State()), ok, k)
        decreases rc, size
      {
        rc := ok(i);
        SendOldest(rc);
        i := i + 1;
      }
    }

    /** `send_data`; `ok` stands for the broker. */
    method SendData(c: Call<T>)
      requires Valid()
      modifies this, data
      ensures Valid() && State() == Send(old(State()), c)
    {
      if c.data == None {
        return;
      }
      if !c.connected || !c.ok(0) {
        var _ := Put(c.data.value);
      } else {
        sent := sent + [c.data.value];
        Drain(c.ok, 1);
      }
    }
  }
}
