/** Requests waiting for the device shadow's answer, in a fixed table of slots. */
module InFlight {

  const MAX_IN_FLIGHT := 100
  const MAX_UUID_LENGTH := 37

  /** What a slot remembers about a request; `callback` stands for the function and the context to call it with. */
  datatype Entry = Entry(id: string, callback: nat, timestamp: int, timeout: nat)

  datatype Slot = Slot(free: bool, entry: Entry)

  datatype Outcome = Accepted | Rejected | TimedOut

  datatype Completion = Completion(entry: Entry, outcome: Outcome, at: int)

  datatype Status = Success | TooManyInFlight | NoMatching

  /** `accepted` and `done` are the history: requests taken in, and callbacks made. */
  datatype Table = Table(vault: seq<Slot>, accepted: seq<Entry>, done: seq<Completion>)

  datatype Op =
    | Add(id: string, callback: nat, timeout: nat, now: int)
    | Respond(id: string, accepted: bool, now: int)
    | HouseKeep(now: int)

  function Lower(c: char): char {
    if 'A' <= c <= 'Z' then c - 'A' + 'a' else c
  }

  /** Two ids that agree here are equal to `strncasecmp` over `MAX_UUID_LENGTH` characters. */
  function Key(id: string): string {
    var n := if |id| < MAX_UUID_LENGTH then |id| else MAX_UUID_LENGTH;
    seq(n, i requires 0 <= i < n => Lower(id[i]))
  }

  /** The first of the slots from `from` on that satisfies `p`, or the number of slots. */
  function First(v: seq<Slot>, from: nat, p: Slot -> bool): (i: nat)
    requires from <= |v|
    ensures from <= i <= |v| && (i < |v| ==> p(v[i]))
    ensures forall j :: from <= j < i ==> !p(v[j])
    decreases |v| - from
  {
    if from == |v| || p(v[from]) then from else First(v, from + 1, p)
  }

  predicate IsFree(s: Slot) { s.free }

  predicate Waits(s: Slot, key: string) { !s.free && Key(s.entry.id) == key }

  predicate Overdue(s: Slot, now: int) { !s.free && now - s.entry.timestamp > s.entry.timeout }

  function ForKey(id: string): Slot -> bool { s => Waits(s, Key(id)) }

  /** `in_flight_message_add` */
  function AddStep(s: Table, op: Op): Table
    requires op.Add?
  {
    var e := Entry(op.id, op.callback, op.now, op.timeout);
    var i := First(s.vault, 0, IsFree);
    if i < |s.vault| then s.(vault := s.vault[i := Slot(false, e)], accepted := s.accepted + [e]) else s
  }

  /** `device_management_shadow_handle_response` */
  function RespondStep(s: Table, op: Op): Table
    requires op.Respond?
  {
    var i := First(s.vault, 0, ForKey(op.id));
    if i < |s.vault| then
      var c := Completion(s.vault[i].entry, if op.accepted then Accepted else Rejected, op.now);
      s.(vault := s.vault[i := s.vault[i].(free := true)], done := s.done + [c])
    else s
  }

  function Swept(v: seq<Slot>, now: int, n: nat): (r: seq<Slot>)
    ensures |r| == |v|
  {
    seq(|v|, i requires 0 <= i < |v| => if i < n && Overdue(v[i], now) then v[i].(free := true) else v[i])
  }

  function Expired(v: seq<Slot>, now: int, n: nat): seq<Completion>
    requires n <= |v|
  {
    if n == 0 then []
    else Expired(v, now, n - 1) + if Overdue(v[n - 1], now) then [Completion(v[n - 1].entry, TimedOut, now)] else []
  }

  /** `in_flight_message_house_keep` */
  function HouseKeepStep(s: Table, now: int): Table {
    s.(vault := Swept(s.vault, now, |s.vault|), done := s.done + Expired(s.vault, now, |s.vault|))
  }

  function Step(s: Table, op: Op): Table {
    match op
    case Add(_, _, _, _) => AddStep(s, op)
    case Respond(_, _, _) => RespondStep(s, op)
    case HouseKeep(now) => HouseKeepStep(s, now)
  }

  function Run(s: Table, ops: seq<Op>): Table
    decreases |ops|
  {
    if ops == [] then s else Run(Step(s, ops[0]), ops[1..])
  }

  // ---- conservation ----

  /** How often a request was taken in. */
  function Taken(q: seq<Entry>, e: Entry): nat {
    if q == [] then 0 else Taken(q[..|q| - 1], e) + if q[|q| - 1] == e then 1 else 0
  }

  /** How often a request's callback was made. */
  function Called(done: seq<Completion>, e: Entry): nat {
    if done == [] then 0 else Called(done[..|done| - 1], e) + if done[|done| - 1].entry == e then 1 else 0
  }

  /** How many of the first `n` slots hold a request. */
  function Flying(v: seq<Slot>, n: nat, e: Entry): nat
    requires n <= |v|
  {
    if n == 0 then 0 else Flying(v, n - 1, e) + if !v[n - 1].free && v[n - 1].entry == e then 1 else 0
  }

  /** Every request taken in is either still in flight or has been called back, once for each time. */
  ghost predicate Conserved(s: Table) {
    forall e :: Taken(s.accepted, e) == Called(s.done, e) + Flying(s.vault, |s.vault|, e)
  }

  lemma {:induction false} FlyingUpdate(v: seq<Slot>, i: nat, s: Slot, n: nat, e: Entry)
    requires i < |v| && n <= |v|
    ensures Flying(v[i := s], n, e) + (if i < n && !v[i].free && v[i].entry == e then 1 else 0)
            == Flying(v, n, e) + (if i < n && !s.free && s.entry == e then 1 else 0)
  {
    if n > 0 { FlyingUpdate(v, i, s, n - 1, e); }
  }

  lemma {:induction false} CalledAppend(a: seq<Completion>, b: seq<Completion>, e: Entry)
    ensures Called(a + b, e) == Called(a, e) + Called(b, e)
    decreases |b|
  {
    if b == [] {
      assert a + b == a;
    } else {
      assert (a + b)[..|a + b| - 1] == a + b[..|b| - 1];
      CalledAppend(a, b[..|b| - 1], e);
    }
  }

  lemma {:induction false} SweptConserves(v: seq<Slot>, now: int, n: nat, m: nat, e: Entry)
    requires n <= m <= |v|
    ensures Flying(v, n, e) == Called(Expired(v, now, n), e) + Flying(Swept(v, now, m), n, e)
  {
    if n > 0 {
      SweptConserves(v, now, n - 1, m, e);
      var last := if Overdue(v[n - 1], now) then [Completion(v[n - 1].entry, TimedOut, now)] else [];
      CalledAppend(Expired(v, now, n - 1), last, e);
      assert last != [] ==> last[..0] == [];
    }
  }

  lemma {:induction false} StepConserves(s: Table, op: Op, e: Entry)
    requires Taken(s.accepted, e) == Called(s.done, e) + Flying(s.vault, |s.vault|, e)
    ensures var t := Step(s, op);
            |t.vault| == |s.vault| && Taken(t.accepted, e) == Called(t.done, e) + Flying(t.vault, |t.vault|, e)
  {
    match op
    case Add(id, callback, timeout, now) =>
      var i := First(s.vault, 0, IsFree);
      if i < |s.vault| {
        FlyingUpdate(s.vault, i, Slot(false, Entry(id, callback, now, timeout)), |s.vault|, e);
        assert Step(s, op).accepted[..|s.accepted|] == s.accepted;
      }
    case Respond(id, _, _) =>
      var i := First(s.vault, 0, ForKey(id));
      if i < |s.vault| {
        FlyingUpdate(s.vault, i, s.vault[i].(free := true), |s.vault|, e);
        assert Step(s, op).done[..|s.done|] == s.done;
      }
    case HouseKeep(now) =>
      SweptConserves(s.vault, now, |s.vault|, |s.vault|, e);
      CalledAppend(s.done, Expired(s.vault, now, |s.vault|), e);
  }

  /** Over any mix of requests, answers and sweeps. */
  lemma {:induction false} RunConserves(s: Table, ops: seq<Op>)
    requires Conserved(s)
    ensures Conserved(Run(s, ops)) && |Run(s, ops).vault| == |s.vault|
    decreases |ops|
  {
    if ops != [] {
      var t := Step(s, ops[0]);
      forall e ensures Taken(t.accepted, e) == Called(t.done, e) + Flying(t.vault, |t.vault|, e) {
        StepConserves(s, ops[0], e);
      }
      StepConserves(s, ops[0], Entry("", 0, 0, 0));
      RunConserves(Step(s, ops[0]), ops[1..]);
    }
  }

  // ---- at most once ----

  /** The table as the client sets it up. */
  ghost predicate Fresh(s: Table) {
    && |s.vault| == MAX_IN_FLIGHT && (forall i :: 0 <= i < |s.vault| ==> s.vault[i].free)
    && s.accepted == [] && s.done == []
  }

  ghost predicate DistinctIds(q: seq<Entry>) {
    forall i, j :: 0 <= i < j < |q| ==> Key(q[i].id) != Key(q[j].id)
  }

  lemma {:induction false} NoneFlying(v: seq<Slot>, n: nat, e: Entry)
    requires n <= |v| && forall i :: 0 <= i < n ==> v[i].free || v[i].entry != e
    ensures Flying(v, n, e) == 0
  {
    if n > 0 { NoneFlying(v, n - 1, e); }
  }

  lemma {:induction false} TakenIsMember(q: seq<Entry>, e: Entry)
    ensures Taken(q, e) > 0 ==> e in q
    ensures DistinctIds(q) ==> Taken(q, e) <= 1
    decreases |q|
  {
    if q != [] {
      TakenIsMember(q[..|q| - 1], e);
      if Taken(q[..|q| - 1], e) > 0 && DistinctIds(q) {
        var i :| 0 <= i < |q| - 1 && q[i] == e;
        assert q[|q| - 1] != e;
      }
    }
  }

  lemma {:induction false} CalledAt(done: seq<Completion>, i: nat, j: nat)
    requires i < |done|
    ensures Called(done, done[i].entry) >= 1
    ensures i < j < |done| && done[i].entry == done[j].entry ==> Called(done, done[i].entry) >= 2
    decreases |done|
  {
    var last := |done| - 1;
    if i < last {
      CalledAt(done[..last], i, j);
    }
  }

  /** No two callbacks are ever made for requests whose ids differ from all others but for case. */
  lemma {:induction false} AtMostOnce(s: Table, ops: seq<Op>, i: nat, j: nat)
    requires Fresh(s) && DistinctIds(Run(s, ops).accepted)
    requires i < j < |Run(s, ops).done|
    ensures var done := Run(s, ops).done;
            Key(done[i].entry.id) != Key(done[j].entry.id)
  {
    var t := Run(s, ops);
    forall e ensures Taken(s.accepted, e) == Called(s.done, e) + Flying(s.vault, |s.vault|, e) {
      NoneFlying(s.vault, |s.vault|, e);
    }
    RunConserves(s, ops);
    var a, b := t.done[i].entry, t.done[j].entry;
    CalledAt(t.done, i, j);
    CalledAt(t.done, j, j);
    TakenIsMember(t.accepted, a);
    TakenIsMember(t.accepted, b);
    if a == b {
      assert false;
    }
  }

  // ---- capacity ----

  function Busy(v: seq<Slot>, n: nat): (r: nat)
    requires n <= |v|
    ensures r <= n
    ensures r == n <==> forall i :: 0 <= i < n ==> !v[i].free
  {
    if n == 0 then 0 else Busy(v, n - 1) + if v[n - 1].free then 0 else 1
  }

  ghost predicate Counted(s: Table) { |s.accepted| == |s.done| + Busy(s.vault, |s.vault|) }

  lemma {:induction false} BusyUpdate(v: seq<Slot>, i: nat, s: Slot, n: nat)
    requires i < |v| && n <= |v|
    ensures Busy(v[i := s], n) + (if i < n && !v[i].free then 1 else 0)
            == Busy(v, n) + (if i < n && !s.free then 1 else 0)
  {
    if n > 0 { BusyUpdate(v, i, s, n - 1); }
  }

  lemma {:induction false} BusySwept(v: seq<Slot>, now: int, n: nat, m: nat)
    requires n <= m <= |v|
    ensures Busy(v, n) == |Expired(v, now, n)| + Busy(Swept(v, now, m), n)
  {
    if n > 0 { BusySwept(v, now, n - 1, m); }
  }

  lemma {:induction false} StepCounts(s: Table, op: Op)
    requires Counted(s)
    ensures Counted(Step(s, op))
  {
    match op
    case Add(id, callback, timeout, now) =>
      var i := First(s.vault, 0, IsFree);
      if i < |s.vault| { BusyUpdate(s.vault, i, Slot(false, Entry(id, callback, now, timeout)), |s.vault|); }
    case Respond(id, _, _) =>
      var i := First(s.vault, 0, ForKey(id));
      if i < |s.vault| { BusyUpdate(s.vault, i, s.vault[i].(free := true), |s.vault|); }
    case HouseKeep(now) => BusySwept(s.vault, now, |s.vault|, |s.vault|);
  }

  lemma {:induction false} RunCounts(s: Table, ops: seq<Op>)
    requires Counted(s)
    ensures Counted(Run(s, ops)) && |Run(s, ops).vault| == |s.vault|
    decreases |ops|
  {
    if ops != [] {
      StepCounts(s, ops[0]);
      RunCounts(Step(s, ops[0]), ops[1..]);
    }
  }

  /** After any run a request is refused exactly when a hundred are waiting for their callback. */
  lemma {:induction false} RefusedWhenFull(s: Table, ops: seq<Op>, op: Op)
    requires Fresh(s) && op.Add?
    ensures var t := Run(s, ops);
            && |t.accepted| - |t.done| <= 100
            && (Step(t, op) == t <==> |t.accepted| == |t.done| + 100)
  {
    BusyNone(s.vault, |s.vault|);
    RunCounts(s, ops);
    var t := Run(s, ops);
    var i := First(t.vault, 0, IsFree);
    if i < |t.vault| { assert t.vault[i].free; }
  }

  lemma {:induction false} BusyNone(v: seq<Slot>, n: nat)
    requires n <= |v| && forall i :: 0 <= i < n ==> v[i].free
    ensures Busy(v, n) == 0
  {
    if n > 0 { BusyNone(v, n - 1); }
  }

  // ---- time ----

  /** Nothing is ever reported as timed out before its time. */
  ghost predicate TimelyTimeouts(done: seq<Completion>) {
    forall c :: c in done && c.outcome == TimedOut ==> c.at - c.entry.timestamp > c.entry.timeout
  }

  lemma {:induction false} ExpiredAreOverdue(v: seq<Slot>, now: int, n: nat)
    requires n <= |v|
    ensures TimelyTimeouts(Expired(v, now, n))
  {
    if n > 0 { ExpiredAreOverdue(v, now, n - 1); }
  }

  lemma {:induction false} NoEarlyTimeouts(s: Table, ops: seq<Op>)
    requires TimelyTimeouts(s.done)
    ensures TimelyTimeouts(Run(s, ops).done)
    decreases |ops|
  {
    if ops != [] {
      if ops[0].HouseKeep? { ExpiredAreOverdue(s.vault, ops[0].now, |s.vault|); }
      NoEarlyTimeouts(Step(s, ops[0]), ops[1..]);
    }
  }

  /** Once a sweep has run, every request whose time is up has had all its callbacks. */
  lemma {:induction false} SweepSettles(s: Table, now: int, e: Entry)
    requires Conserved(s) && now - e.timestamp > e.timeout
    ensures var t := Step(s, HouseKeep(now));
            Called(t.done, e) == Taken(t.accepted, e)
  {
    var t := Step(s, HouseKeep(now));
    StepConserves(s, HouseKeep(now), e);
    NoneFlying(t.vault, |t.vault|, e);
  }

  lemma {:induction false} FlyingAt(v: seq<Slot>, i: nat, n: nat)
    requires i < n <= |v| && !v[i].free
    ensures Flying(v, n, v[i].entry) >= 1
  {
    if i < n - 1 { FlyingAt(v, i, n - 1); }
  }

  lemma {:induction false} FlyingSomewhere(v: seq<Slot>, n: nat, e: Entry)
    requires n <= |v| && Flying(v, n, e) > 0
    ensures exists i :: 0 <= i < n && !v[i].free && v[i].entry == e
  {
    if v[n - 1].free || v[n - 1].entry != e { FlyingSomewhere(v, n - 1, e); }
  }

  /** An answer that names a request still in flight, in any case of letters, reaches that request and no
      other; an answer that names none changes nothing. */
  lemma {:induction false} AnswerReaches(s: Table, id: string, accepted: bool, now: int, e: Entry)
    requires Conserved(s) && DistinctIds(s.accepted) && Key(e.id) == Key(id)
    ensures Taken(s.accepted, e) > Called(s.done, e) ==>
              Step(s, Respond(id, accepted, now)).done
              == s.done + [Completion(e, if accepted then Accepted else Rejected, now)]
    ensures (forall f :: f in s.accepted && Key(f.id) == Key(id) ==> Called(s.done, f) > 0) ==>
              Step(s, Respond(id, accepted, now)) == s
  {
    var i := First(s.vault, 0, ForKey(id));
    if i < |s.vault| {
      var f := s.vault[i].entry;
      FlyingAt(s.vault, i, |s.vault|);
      TakenIsMember(s.accepted, f);
      TakenIsMember(s.accepted, e);
    } else if Taken(s.accepted, e) > Called(s.done, e) {
      FlyingSomewhere(s.vault, |s.vault|, e);
    }
  }

  class InFlightTable {
    const vault: array<Slot>
    ghost var accepted: seq<Entry>
    ghost var done: seq<Completion>

    ghost function State(): Table
      reads this, vault
    {
      Table(vault[..], accepted, done)
    }

    constructor ()
      ensures fresh(vault) && Fresh(State())
    {
      vault := new Slot[MAX_IN_FLIGHT](_ => Slot(true, Entry("", 0, 0, 0)));
      accepted, done := [], [];
    }

    /** `in_flight_message_add` */
    method AddMessage(id: string, callback: nat, timeout: nat, now: int) returns (rc: Status)
      modifies this, vault
      ensures State() == Step(old(State()), Add(id, callback, timeout, now))
      ensures rc == if old(State()) == State() then TooManyInFlight else Success
    {
      rc := TooManyInFlight;
      var i := 0;
      while i < vault.Length && !vault[i].free
        invariant 0 <= i <= vault.Length
        invariant First(vault[..], 0, IsFree) == First(vault[..], i, IsFree)
      {
        i := i + 1;
      }
      if i < vault.Length {
        var e := Entry(id, callback, now, timeout);
        vault[i] := Slot(false, e);
        accepted := accepted + [e];
        rc := Success;
      }
    }

    /** `device_management_shadow_handle_response`; the callback it makes, if any, is returned. */
    method HandleResponse(id: string, positive: bool, now: int) returns (rc: Status, called: seq<Completion>)
      modifies this, vault
      ensures State() == Step(old(State()), Respond(id, positive, now))
      ensures done == old(done) + called && rc == if called == [] then NoMatching else Success
    {
      rc, called := NoMatching, [];
      var i := 0;
      while i < vault.Length && !(!vault[i].free && Key(vault[i].entry.id) == Key(id))
        invariant 0 <= i <= vault.Length
        invariant First(vault[..], 0, ForKey(id)) == First(vault[..], i, ForKey(id))
      {
        i := i + 1;
      }
      if i < vault.Length {
        called := [Completion(vault[i].entry, if positive then Accepted else Rejected, now)];
        vault[i] := vault[i].(free := true);
        rc := Success;
      }
      done := done + called;
    }

    /** `in_flight_message_house_keep`; the callbacks it makes are returned in order. */
    method SweepOverdue(now: int) returns (called: seq<Completion>)
      modifies this, vault
      ensures State() == Step(old(State()), HouseKeep(now)) && done == old(done) + called
    {
      called := [];
      var i := 0;
      while i < vault.Length
        invariant 0 <= i <= vault.Length
        invariant vault[..] == Swept(old(vault[..]), now, i) && called == Expired(old(vault[..]), now, i)
        invariant accepted == old(accepted) && done == old(done)
      {
        if !vault[i].free && now - vault[i].entry.timestamp > vault[i].entry.timeout {
          called := called + [Completion(vault[i].entry, TimedOut, now)];
          vault[i] := vault[i].(free := true);
        }
        i := i + 1;
      }
      done := done + called;
    }
  }
}
