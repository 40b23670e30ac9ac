/** What becomes of a message when an attempt to publish it ends, over one attempt and over any run of the worker. */
module Attempts {
  import opened Codec
  import opened Pipeline
  import opened Passes

  /** A confirmed attempt moves the head to what was sent; a broker known to be bad costs the message; any other end
      leaves everything as it is, and so does a pass with nothing to send. */
  lemma {:induction false} PublishExactly(s: Queues, a: Attempt)
    ensures var t := Publish(s, a);
            && (t.sent == if a == Confirmed && s.sending != [] then s.sent + [s.sending[0]] else s.sent)
            && (t.sending == if (a == Confirmed || a == KnownBad) && s.sending != [] then s.sending[1..] else s.sending)
            && t == s.(sent := t.sent, sending := t.sending)
  {}

  /** The attempts that end in a confirmation. */
  function Confirmations(acts: seq<Act>): nat {
    if acts == [] then 0
    else (if acts[0].Work? && acts[0].a == Confirmed then 1 else 0) + Confirmations(acts[1..])
  }

  lemma {:induction false} PassSettles(s: Queues, shrink: bool, a: Attempt)
    requires s.saving == []
    ensures var t := Pass(s, shrink, a);
            && t.saving == [] && s.sent <= t.sent && |t.sent| <= |s.sent| + if a == Confirmed then 1 else 0
  {
    RefillLeaves(s, shrink);
    RefillHistory(s, shrink);
    PublishExactly(Refill(s, shrink), a);
  }

  lemma {:induction false} DoSettles(s: Queues, act: Act)
    requires s.saving == []
    ensures var t := Do(s, act);
            && t.saving == [] && s.sent <= t.sent
            && |t.sent| <= |s.sent| + if act.Work? && act.a == Confirmed then 1 else 0
  {
    if act.Work? { PassSettles(s, act.shrink, act.a); }
  }

  lemma {:induction false} PrefixTrans<T>(a: seq<T>, b: seq<T>, c: seq<T>)
    requires a <= b <= c
    ensures a <= c
  {}

  /** Over any run of calls and passes, with any file, what was sent stays sent and at most one message is counted as
      sent for each confirmed attempt; without one, none is. */
  lemma {:induction false} OnlyConfirmedSends(s: Queues, acts: seq<Act>)
    requires s.saving == []
    ensures var t := Run(s, acts);
            && t.saving == [] && s.sent <= t.sent && |t.sent| <= |s.sent| + Confirmations(acts)
            && (Confirmations(acts) == 0 ==> t.sent == s.sent)
    decreases |acts|
  {
    if acts != [] {
      var t := Do(s, acts[0]);
      DoSettles(s, acts[0]);
      OnlyConfirmedSends(t, acts[1..]);
      PrefixTrans(s.sent, t.sent, Run(s, acts).sent);
    }
  }

  /** A call, or a pass whose attempt fails for want of a connection, at the publish call, or unconfirmed. */
  predicate FailsOrCalls(act: Act) {
    act.Call? || act.a == NoConnection || act.a == PublishRejected || act.a == Unconfirmed
  }

  lemma {:induction false} HeadStays(s: Queues, act: Act)
    requires s.saving == [] && s.sending != [] && FailsOrCalls(act)
    ensures var t := Do(s, act);
            t.saving == [] && t.sending == s.sending && t.sent == s.sent
  {
    if act.Work? {
      RefillLeaves(s, act.shrink);
      PublishExactly(Refill(s, act.shrink), act.a);
    }
  }

  /** However often its attempts fail, and whatever is handed in meanwhile, the message at the head stays there with
      all behind it. */
  lemma {:induction false} FailuresKeepHead(s: Queues, acts: seq<Act>)
    requires s.saving == [] && s.sending != [] && forall act :: act in acts ==> FailsOrCalls(act)
    ensures var t := Run(s, acts);
            t.saving == [] && t.sending == s.sending && t.sent == s.sent
    decreases |acts|
  {
    if acts != [] {
      assert acts[0] in acts && forall act :: act in acts[1..] ==> act in acts;
      HeadStays(s, acts[0]);
      FailuresKeepHead(Do(s, acts[0]), acts[1..]);
    }
  }

  /** And the next confirmed attempt sends it and nothing else. */
  lemma {:induction false} RetriedUntilConfirmed(s: Queues, acts: seq<Act>, shrink: bool)
    requires s.saving == [] && s.sending != [] && forall act :: act in acts ==> FailsOrCalls(act)
    ensures var t := Run(s, acts + [Work(shrink, Confirmed)]);
            t.sent == s.sent + [s.sending[0]] && t.sending == s.sending[1..]
  {
    FailuresKeepHead(s, acts);
    RunConcat(s, acts, [Work(shrink, Confirmed)]);
    var t := Run(s, acts);
    assert [Work(shrink, Confirmed)][1..] == [];
    assert Run(t, [Work(shrink, Confirmed)]) == Run(Pass(t, shrink, Confirmed), []);
    RefillLeaves(t, shrink);
    PublishExactly(Refill(t, shrink), Confirmed);
  }

  /** A broker known to be bad costs exactly the message at the head, and it is not counted as sent. */
  lemma {:induction false} KnownBadLosesHead(s: Queues, shrink: bool)
    requires s.saving == [] && s.sending != []
    ensures var t := Pass(s, shrink, KnownBad);
            t.sent == s.sent && t.sending == s.sending[1..]
  {
    RefillLeaves(s, shrink);
    PublishExactly(Refill(s, shrink), KnownBad);
  }
}
