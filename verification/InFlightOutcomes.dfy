/** Which outcome a callback of the in-flight table is given, and what a slot keeps of its request. */
module InFlightOutcomes {
  import opened InFlight

  // ---- one sweep ----

  /** The slots among the first `n` whose request has waited longer than it allows, in order. */
  function Late(v: seq<Slot>, now: int, n: nat): seq<nat>
    requires n <= |v|
  {
    if n == 0 then []
    else if !v[n - 1].free && now - v[n - 1].entry.timestamp > v[n - 1].entry.timeout then Late(v, now, n - 1) + [n - 1]
    else Late(v, now, n - 1)
  }

  lemma {:induction false} LateExactly(v: seq<Slot>, now: int, n: nat)
    requires n <= |v|
    ensures forall i: nat :: i in Late(v, now, n) <==>
              i < n && !v[i].free && now - v[i].entry.timestamp > v[i].entry.timeout
    ensures forall j, k :: 0 <= j < k < |Late(v, now, n)| ==> Late(v, now, n)[j] < Late(v, now, n)[k]
  {
    if n > 0 {
      LateExactly(v, now, n - 1);
      var before := Late(v, now, n - 1);
      assert forall k :: 0 <= k < |before| ==> before[k] in before;
    }
  }

  /** One callback for each of those slots, in slot order. */
  ghost predicate OneEach(v: seq<Slot>, now: int, late: seq<nat>, called: seq<Completion>) {
    && |called| == |late|
    && forall j :: 0 <= j < |late| ==>
         && late[j] < |v| && called[j].entry == v[late[j]].entry
         && called[j].outcome == TimedOut && called[j].at == now
  }

  lemma {:induction false} ExpiredOneEach(v: seq<Slot>, now: int, n: nat)
    requires n <= |v|
    ensures OneEach(v, now, Late(v, now, n), Expired(v, now, n))
  {
    if n > 0 {
      ExpiredOneEach(v, now, n - 1);
      if !v[n - 1].free && now - v[n - 1].entry.timestamp > v[n - 1].entry.timeout {
        OneMore(v, now, Late(v, now, n - 1), Expired(v, now, n - 1), n - 1, Completion(v[n - 1].entry, TimedOut, now));
      }
    }
  }

  lemma {:induction false} OneMore(v: seq<Slot>, now: int, late: seq<nat>, called: seq<Completion>, i: nat,
                                   c: Completion)
    requires OneEach(v, now, late, called) && i < |v|
    requires c.entry == v[i].entry && c.outcome == TimedOut && c.at == now
    ensures OneEach(v, now, late + [i], called + [c])
  {}

  /** A sweep reports exactly the slots that are late, each once, in order, as timed out at the time of the sweep; it
      frees these and touches no other. */
  lemma {:induction false} SweepExactly(s: Table, now: int)
    ensures var t, late := Step(s, HouseKeep(now)), Late(s.vault, now, |s.vault|);
            && s.done <= t.done && OneEach(s.vault, now, late, t.done[|s.done|..])
            && t.accepted == s.accepted && |t.vault| == |s.vault|
            && forall i: nat :: i < |s.vault| ==>
                 && t.vault[i].entry == s.vault[i].entry
                 && (t.vault[i].free <==> s.vault[i].free || i in late)
  {
    ExpiredOneEach(s.vault, now, |s.vault|);
    LateExactly(s.vault, now, |s.vault|);
    var t := Step(s, HouseKeep(now));
    assert t.done[|s.done|..] == Expired(s.vault, now, |s.vault|);
  }

  // ---- every run ----

  /** The call that accounts for a callback: an answer to that id, with that verdict, or a sweep that came too late
      for it; and the callback is made at the time of the call. */
  predicate Explains(op: Op, c: Completion) {
    match c.outcome
    case Accepted => op.Respond? && op.accepted && op.now == c.at && Key(op.id) == Key(c.entry.id)
    case Rejected => op.Respond? && !op.accepted && op.now == c.at && Key(op.id) == Key(c.entry.id)
    case TimedOut => op.HouseKeep? && op.now == c.at && c.at - c.entry.timestamp > c.entry.timeout
  }

  lemma {:induction false} StepExplains(s: Table, op: Op)
    ensures var t := Step(s, op);
            s.done <= t.done && forall c :: c in t.done[|s.done|..] ==> Explains(op, c)
  {
    match op
    case Add(_, _, _, _) =>
    case Respond(id, _, _) =>
      var i := First(s.vault, 0, ForKey(id));
      if i < |s.vault| { assert Step(s, op).done[|s.done|..] == [Step(s, op).done[|s.done|]]; }
    case HouseKeep(now) =>
      SweepExactly(s, now);
      LateExactly(s.vault, now, |s.vault|);
      var late, called := Late(s.vault, now, |s.vault|), Step(s, op).done[|s.done|..];
      forall c | c in called ensures Explains(op, c) {
        var j :| 0 <= j < |called| && called[j] == c;
        assert late[j] in late;
      }
  }

  /** Over any run, a request is reported accepted or rejected only where an answer to its id said so, and timed out
      only by a sweep after its time. */
  lemma {:induction false} RunExplains(s: Table, ops: seq<Op>, c: Completion)
    requires c in Run(s, ops).done
    ensures c in s.done || exists op :: op in ops && Explains(op, c)
    decreases |ops|
  {
    if ops != [] {
      var t := Step(s, ops[0]);
      StepExplains(s, ops[0]);
      RunExplains(t, ops[1..], c);
      if c in t.done {
        assert t.done == s.done + t.done[|s.done|..];
        assert ops[0] in ops;
      } else {
        var op :| op in ops[1..] && Explains(op, c);
        assert op in ops;
      }
    }
  }

  // ---- what a slot keeps ----

  /** A request is kept as it was handed in, under the time of the call, in the first free slot. */
  lemma {:induction false} AddExactly(s: Table, id: string, callback: nat, timeout: nat, now: int)
    ensures var t := Step(s, Add(id, callback, timeout, now));
            && t.done == s.done && |t.vault| == |s.vault|
            && ((forall i :: 0 <= i < |s.vault| ==> !s.vault[i].free) ==> t == s)
            && ((exists i :: 0 <= i < |s.vault| && s.vault[i].free) ==>
                  && t.accepted == s.accepted + [Entry(id, callback, now, timeout)]
                  && exists i: nat :: SlotTaken(s.vault, t.vault, i, Entry(id, callback, now, timeout)))
  {
    var i := First(s.vault, 0, IsFree);
    if i < |s.vault| {
      assert SlotTaken(s.vault, Step(s, Add(id, callback, timeout, now)).vault, i, Entry(id, callback, now, timeout));
    }
  }

  ghost predicate SlotTaken(v: seq<Slot>, w: seq<Slot>, i: nat, e: Entry) {
    && i < |v| && v[i].free && (forall j :: 0 <= j < i ==> !v[j].free)
    && w == v[i := Slot(false, e)]
  }

  /** Every callback is made with what some request handed in: its id, its callback and its timeout, under the time
      at which it was handed in. */
  predicate Requested(op: Op, e: Entry) {
    op.Add? && op.id == e.id && op.callback == e.callback && op.timeout == e.timeout && op.now == e.timestamp
  }

  lemma {:induction false} RunRequested(s: Table, ops: seq<Op>, e: Entry)
    requires e in Run(s, ops).accepted
    ensures e in s.accepted || exists op :: op in ops && Requested(op, e)
    decreases |ops|
  {
    if ops != [] {
      var t := Step(s, ops[0]);
      RunRequested(t, ops[1..], e);
      if e in t.accepted {
        assert e in s.accepted || Requested(ops[0], e);
        assert ops[0] in ops;
      } else {
        var op :| op in ops[1..] && Requested(op, e);
        assert op in ops;
      }
    }
  }

  lemma {:induction false} CalledMember(done: seq<Completion>, c: Completion)
    requires c in done
    ensures Called(done, c.entry) > 0
    decreases |done|
  {
    var last := |done| - 1;
    if done[last].entry != c.entry {
      assert c in done[..last];
      CalledMember(done[..last], c);
    }
  }

  /** From a fresh table every callback is for a request that was handed in, with the callback, timeout and time of
      that request. */
  lemma {:induction false} CallbacksAreRequested(s: Table, ops: seq<Op>, c: Completion)
    requires Fresh(s) && c in Run(s, ops).done
    ensures exists op :: op in ops && Requested(op, c.entry)
  {
    forall e ensures Taken(s.accepted, e) == InFlight.Called(s.done, e) + Flying(s.vault, |s.vault|, e) {
      NoneFlying(s.vault, |s.vault|, e);
    }
    RunConserves(s, ops);
    var t := Run(s, ops);
    CalledMember(t.done, c);
    TakenIsMember(t.accepted, c.entry);
    RunRequested(s, ops, c.entry);
  }

  // ---- equal ids ----

  predicate SameLetter(a: char, b: char) {
    || a == b
    || ('A' <= a <= 'Z' && b as int == a as int + 32)
    || ('A' <= b <= 'Z' && a as int == b as int + 32)
  }

  /** Two ids count as equal when their first 37 characters are the same but for the case of letters. */
  lemma {:induction false} KeysAgree(a: string, b: string)
    ensures Key(a) == Key(b) <==>
              && (|a| == |b| || (|a| >= 37 && |b| >= 37))
              && forall i :: 0 <= i < |a| && i < |b| && i < 37 ==> SameLetter(a[i], b[i])
  {
    forall i | 0 <= i < |a| && i < |b| && i < 37 ensures Lower(a[i]) == Lower(b[i]) <==> SameLetter(a[i], b[i]) {}
    if Key(a) == Key(b) {
      forall i | 0 <= i < |a| && i < |b| && i < 37 ensures SameLetter(a[i], b[i]) {
        assert Key(a)[i] == Lower(a[i]) && Key(b)[i] == Lower(b[i]);
      }
    }
  }
}
