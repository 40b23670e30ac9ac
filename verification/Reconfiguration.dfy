/** Which requests a change of configuration sends, object by object, over the whole run that it starts. */
module Reconfiguration {
  import opened Wrappers
  import opened CovPass
  import opened CancelPass

  /** The device after the change, once `replies` have come. */
  function Reconfigured(d: Device, kind: SubType, change: Change, replies: seq<Reply>): Device
    requires d.stage != ReadObjectList
  {
    Run(CovPass.CancelIfNeed(StartPass(d, kind, change), kind), kind, replies)
  }

  /** As many replies as there are requests in the run. */
  ghost predicate Enough(d: Device, kind: SubType, change: Change, replies: seq<Reply>) {
    d.stage != ReadObjectList && |replies| == Requests(Marked(d.objects, change), kind)
  }

  // ---- what each object is sent ----

  /** Its object subscription is cancelled: the change says so, or an earlier cancel of this kind never went out and
      the change does not reach the object. */
  predicate LosesObject(o: Object, change: Change) {
    && o.cov != UnSupportSub
    && (|| change == TypeChanged(CancelTypeObject)
        || (change == IncrementChanged && !o.analog && o.cov == NeedToCancelObject))
  }

  /** Its property subscription is cancelled. */
  predicate LosesProperty(o: Object, change: Change) {
    && o.cov != UnSupportSub
    && (|| change == TypeChanged(CancelTypeProperty)
        || (change == IncrementChanged && (o.analog || o.cov == NeedToCancelProperty)))
  }

  /** It has not turned down this kind of subscription as the last thing it turned down. */
  predicate Accepts(o: Object, kind: SubType) {
    || kind == NoSubscribe
    || (kind == SubscribeObject && o.unSupport != UnSupportSubObject)
    || ((kind == SubscribeProperty || kind == SubscribePropertyWithIncrement) && o.unSupport != UnSupportSubProperty)
  }

  /** It is asked: every object on a change of type, and on a change of increment the analog ones and those an earlier
      pass had still to deal with. */
  predicate IsAsked(o: Object, kind: SubType, change: Change) {
    && o.cov != UnSupportSub && kind != NoSubscribe && Accepts(o, kind)
    && (|| change.TypeChanged? || o.analog || o.cov == NeedToSub
        || o.cov == NeedToCancelObject || o.cov == NeedToCancelProperty)
  }

  lemma {:induction false} MarkedFor(q: seq<Object>, kind: SubType, change: Change, i: nat)
    requires i < |q|
    ensures var m, r := Marked(q, change)[i], Resubscribing(Marked(q, change))[i];
            && (ToCancel(m) <==> LosesObject(q[i], change) || LosesProperty(q[i], change))
            && (LosesProperty(q[i], change) <==> m.cov == NeedToCancelProperty)
            && (kind != NoSubscribe ==> (ToSubscribe(kind, r) <==> IsAsked(q[i], kind, change)))
            && (q[i].cov == UnSupportSub ==> r == m == q[i])
            && r.unSupport == m.unSupport == q[i].unSupport && r.analog == m.analog == q[i].analog
  {}

  // ---- the requests of the run ----

  /** What was sent after the first `n` requests. */
  function Since(t: Device, n: nat): seq<Request> {
    if n <= |t.sent| then t.sent[n..] else []
  }

  /** The cancels come first, then the requests to subscribe, each at most once and in list order. */
  ghost predicate InListOrder(added: seq<Request>) {
    forall j, k :: 0 <= j < k < |added| ==>
      if added[j].Subscribe? == added[k].Subscribe? then added[j].index < added[k].index else added[k].Subscribe?
  }

  /** Exactly the requests the change calls for. */
  ghost predicate SendsExactly(q: seq<Object>, kind: SubType, change: Change, added: seq<Request>) {
    && (forall i: nat :: CancelObject(i) in added <==> i < |q| && LosesObject(q[i], change))
    && (forall i: nat :: CancelProperty(i) in added <==> i < |q| && LosesProperty(q[i], change))
    && (forall i: nat, k :: Subscribe(i, k) in added <==> i < |q| && k == kind && IsAsked(q[i], kind, change))
  }

  lemma {:induction false} CancelsHas(q: seq<Object>, r: Request)
    ensures Marks(q) == Places(q, 0, ToCancel) && forall i :: 0 <= i < |Marks(q)| ==> Marks(q)[i] < |q|
    ensures r in Cancels(q, Marks(q)) <==>
              !r.Subscribe? && r.index < |q| && ToCancel(q[r.index])
              && (r.CancelProperty? <==> q[r.index].cov == NeedToCancelProperty)
  {
    PlacesInRange(q, ToCancel);
    PlacesExact(q, 0, ToCancel);
    var p, c := Marks(q), Cancels(q, Marks(q));
    if r in c {
      var j :| 0 <= j < |c| && c[j] == r;
      assert p[j] in p;
    }
    if !r.Subscribe? && r.index in p {
      var j :| 0 <= j < |p| && p[j] == r.index;
      assert c[j] in c;
    }
  }

  lemma {:induction false} SubscribesHas(q: seq<Object>, kind: SubType, r: Request)
    ensures r in Subscribes(Places(q, 0, Wanting(kind)), kind) <==>
              r.Subscribe? && r.kind == kind && r.index < |q| && ToSubscribe(kind, q[r.index])
  {
    PlacesExact(q, 0, Wanting(kind));
    var p, c := Places(q, 0, Wanting(kind)), Subscribes(Places(q, 0, Wanting(kind)), kind);
    if r in c {
      var j :| 0 <= j < |c| && c[j] == r;
      assert p[j] in p;
    }
    if r.Subscribe? && r.index in p && r.kind == kind {
      var j :| 0 <= j < |p| && p[j] == r.index;
      assert c[j] in c;
    }
  }

  /** The requests of the run, as two lists. */
  function Calls(q: seq<Object>, kind: SubType): seq<Request> {
    PlacesInRange(q, ToCancel);
    if kind == NoSubscribe then Cancels(q, Marks(q)) else Cancels(q, Marks(q)) + Subscribes(Asks(q, kind), kind)
  }

  lemma {:induction false} CallsOnce(q: seq<Object>, kind: SubType)
    ensures InListOrder(Calls(q, kind))
  {
    PlacesInRange(q, ToCancel);
    PlacesExact(q, 0, ToCancel);
    PlacesExact(Resubscribing(q), 0, Wanting(kind));
    var c, a := Cancels(q, Marks(q)), Subscribes(Asks(q, kind), kind);
    assert forall j :: 0 <= j < |c| ==> !c[j].Subscribe? && c[j].index == Marks(q)[j];
    assert forall j :: 0 <= j < |a| ==> a[j].Subscribe? && a[j].index == Asks(q, kind)[j];
  }

  lemma {:induction false} CallsHas(q: seq<Object>, kind: SubType, change: Change, r: Request)
    ensures r in Calls(Marked(q, change), kind) <==>
              && r.index < |q|
              && match r
                 case CancelObject(i) => LosesObject(q[i], change)
                 case CancelProperty(i) => LosesProperty(q[i], change)
                 case Subscribe(i, k) => k == kind && IsAsked(q[i], kind, change)
  {
    var m := Marked(q, change);
    PlacesInRange(m, ToCancel);
    CancelsHas(m, r);
    if kind != NoSubscribe { SubscribesHas(Resubscribing(m), kind, r); }
    if r.index < |q| { MarkedFor(q, kind, change, r.index); }
  }

  lemma {:induction false} CallsExactly(q: seq<Object>, kind: SubType, change: Change)
    ensures SendsExactly(q, kind, change, Calls(Marked(q, change), kind))
  {
    var c := Calls(Marked(q, change), kind);
    forall i: nat ensures CancelObject(i) in c <==> i < |q| && LosesObject(q[i], change) {
      CallsHas(q, kind, change, CancelObject(i));
    }
    forall i: nat ensures CancelProperty(i) in c <==> i < |q| && LosesProperty(q[i], change) {
      CallsHas(q, kind, change, CancelProperty(i));
    }
    forall i: nat, k ensures Subscribe(i, k) in c <==> i < |q| && k == kind && IsAsked(q[i], kind, change) {
      CallsHas(q, kind, change, Subscribe(i, k));
    }
  }

  lemma {:induction false} RunSends(d: Device, kind: SubType, change: Change, replies: seq<Reply>)
    requires Enough(d, kind, change, replies)
    ensures var t := Reconfigured(d, kind, change, replies);
            InMainLoop(t) && t.sent == d.sent + Calls(Marked(d.objects, change), kind)
  {
    var s := StartPass(d, kind, change);
    PlacesInRange(s.objects, ToCancel);
    if kind == NoSubscribe {
      CancelOnlyPass(s, kind, replies);
    } else {
      ResubscribePass(s, kind, replies);
      var c, a := Cancels(s.objects, Marks(s.objects)), Subscribes(Asks(s.objects, kind), kind);
      assert d.sent + c + a == d.sent + (c + a);
    }
  }

  /** Whatever the replies, the run sends exactly the requests the change calls for, the cancels first, each once and
      in list order, and ends in the main loop. */
  lemma {:induction false} ChangeSends(d: Device, kind: SubType, change: Change, replies: seq<Reply>)
    requires Enough(d, kind, change, replies)
    ensures var t := Reconfigured(d, kind, change, replies);
            && InMainLoop(t) && d.sent <= t.sent
            && SendsExactly(d.objects, kind, change, Since(t, |d.sent|)) && InListOrder(Since(t, |d.sent|))
  {
    var t, c := Reconfigured(d, kind, change, replies), Calls(Marked(d.objects, change), kind);
    RunSends(d, kind, change, replies);
    CallsExactly(d.objects, kind, change);
    CallsOnce(Marked(d.objects, change), kind);
    assert Since(t, |d.sent|) == c;
  }

  // ---- while the run lasts ----

  /** The device takes no other request while a pass is under way. */
  predicate Quiet(d: Device) {
    d.disable && !d.sendNext && (d.stage == SubscribeAll || d.stage == CancelOnly || d.stage == CancelAndResubscribe)
  }

  lemma {:induction false} ReplyQuiet(d: Device, kind: SubType, reply: Reply)
    requires (Quiet(d) || InMainLoop(d)) && d.handle.Some? && d.handle.value < |d.objects|
    ensures Quiet(OnReply(d, kind, reply)) || InMainLoop(OnReply(d, kind, reply))
  {}

  lemma {:induction false} RunQuiet(d: Device, kind: SubType, replies: seq<Reply>)
    requires Quiet(d) || InMainLoop(d)
    ensures Quiet(Run(d, kind, replies)) || InMainLoop(Run(d, kind, replies))
    decreases |replies|
  {
    if replies != [] && d.handle.Some? && d.handle.value < |d.objects| {
      ReplyQuiet(d, kind, replies[0]);
      RunQuiet(OnReply(d, kind, replies[0]), kind, replies[1..]);
    }
  }

  /** After any number of replies the device either still keeps to its pass, disabled and sending nothing else, or is
      back in the main loop and enabled. */
  lemma {:induction false} ChangeQuiet(d: Device, kind: SubType, change: Change, replies: seq<Reply>)
    requires d.stage != ReadObjectList
    ensures var t := Reconfigured(d, kind, change, replies); Quiet(t) || InMainLoop(t)
  {
    RunQuiet(CovPass.CancelIfNeed(StartPass(d, kind, change), kind), kind, replies);
  }

  // ---- what stays ----

  /** An object that is given up is as it was, and of every object the kind is kept. */
  ghost predicate GivenUpStay(q: seq<Object>, r: seq<Object>) {
    |r| == |q| && forall i :: 0 <= i < |q| ==> r[i].analog == q[i].analog && (q[i].cov == UnSupportSub ==> r[i] == q[i])
  }

  lemma {:induction false} PlainSpares(q: seq<Object>, from: nat, kind: SubType, replies: seq<Reply>)
    requires from <= |q|
    ensures GivenUpStay(q, Plain(q, from, kind, replies))
    decreases |q| - from
  {
    if from < |q| {
      if !ToSubscribe(kind, q[from]) {
        PlainSpares(q[from := Unasked(q[from])], from + 1, kind, replies);
      } else if replies != [] {
        PlainSpares(q[from := Answered(q[from].(cov := SupportSub), kind, replies[0])], from + 1, kind, replies[1..]);
      }
    }
  }

  lemma {:induction false} MarkingSpares(q: seq<Object>, change: Change, r: seq<Object>)
    requires GivenUpStay(Resubscribing(Marked(q, change)), r)
    ensures GivenUpStay(q, r)
  {
    forall i | 0 <= i < |q| ensures r[i].analog == q[i].analog && (q[i].cov == UnSupportSub ==> r[i] == q[i]) {
      MarkedFor(q, NoSubscribe, change, i);
    }
  }

  lemma {:induction false} CancellingSpares(q: seq<Object>, change: Change, r: seq<Object>)
    requires r == Cancelled(Marked(q, change), |q|, SupportSub)
    ensures GivenUpStay(q, r)
  {
    forall i | 0 <= i < |q| ensures r[i].analog == q[i].analog && (q[i].cov == UnSupportSub ==> r[i] == q[i]) {
      MarkedFor(q, NoSubscribe, change, i);
    }
  }

  /** An object that has been given up stays as it is through every change and all replies. */
  lemma {:induction false} ChangeSpares(d: Device, kind: SubType, change: Change, replies: seq<Reply>)
    requires Enough(d, kind, change, replies)
    ensures GivenUpStay(d.objects, Reconfigured(d, kind, change, replies).objects)
  {
    var s, t := StartPass(d, kind, change), Reconfigured(d, kind, change, replies);
    var m := s.objects;
    if kind == NoSubscribe {
      CancelOnlyPass(s, kind, replies);
      CancellingSpares(d.objects, change, t.objects);
    } else {
      ResubscribePass(s, kind, replies);
      PlainSpares(Resubscribing(m), 0, kind, replies[|Marks(m)|..]);
      MarkingSpares(d.objects, change, t.objects);
    }
  }

  /** Subscriptions switched off: what was cancelled asks no more, and nothing else is changed but by the marking. */
  lemma {:induction false} SwitchedOff(d: Device, change: Change, replies: seq<Reply>, i: nat)
    requires Enough(d, NoSubscribe, change, replies) && i < |d.objects|
    ensures var o, r := d.objects[i], Reconfigured(d, NoSubscribe, change, replies).objects;
            && |r| == |d.objects| && r[i].unSupport == o.unSupport
            && r[i].cov == (if LosesObject(o, change) || LosesProperty(o, change) then SupportSub
                            else if o.cov != UnSupportSub && change.TypeChanged? then NeedToSub
                            else o.cov)
  {
    CancelOnlyPass(StartPass(d, NoSubscribe, change), NoSubscribe, replies);
    MarkedFor(d.objects, NoSubscribe, change, i);
  }
}
