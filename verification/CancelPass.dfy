/** Cancelling subscriptions after a configuration change, and subscribing again. */
module CancelPass {
  import opened Wrappers
  import opened CovPass

  /** The request that undoes an object's subscription. */
  function CancelFor(o: Object, place: nat): Request {
    if o.cov == NeedToCancelProperty then CancelProperty(place) else CancelObject(place)
  }

  function Cancels(q: seq<Object>, places: seq<nat>): (r: seq<Request>)
    requires forall i :: 0 <= i < |places| ==> places[i] < |q|
    ensures |r| == |places|
  {
    seq(|places|, i requires 0 <= i < |places| => CancelFor(q[places[i]], places[i]))
  }

  /** The first `n` objects with their cancels sent. */
  function Cancelled(q: seq<Object>, n: nat, next: SubState): (r: seq<Object>)
    ensures |r| == |q|
  {
    seq(|q|, j requires 0 <= j < |q| => if j < n && ToCancel(q[j]) then q[j].(cov := next) else q[j])
  }

  function NextState(stage: Stage): SubState {
    if stage == CancelAndResubscribe then NeedToSub else SupportSub
  }

  predicate IsCancelStage(stage: Stage) { stage == CancelOnly || stage == CancelAndResubscribe }

  lemma {:induction false} PlacesInRange(q: seq<Object>, p: Object -> bool)
    ensures forall i :: 0 <= i < |Places(q, 0, p)| ==> Places(q, 0, p)[i] < |q|
  {
    PlacesExact(q, 0, p);
    assert forall i :: 0 <= i < |Places(q, 0, p)| ==> Places(q, 0, p)[i] in Places(q, 0, p);
  }

  /** The pass that started on `q` is waiting for a reply about the object at `handle`. */
  ghost predicate Cancelling(d: Device, q: seq<Object>, rest: seq<nat>) {
    && IsCancelStage(d.stage) && d.handle.Some? && d.handle.value < |q|
    && d.objects == Cancelled(q, d.handle.value + 1, NextState(d.stage))
    && rest == Places(q, d.handle.value + 1, ToCancel)
  }

  ghost predicate SameFlags(d: Device, t: Device) {
    t.stage == d.stage && t.disable == d.disable && t.sendNext == d.sendNext
  }

  /** What the pass does once every cancel has been answered. */
  function AfterCancels(d: Device, q: seq<Object>, kind: SubType): Device
    requires IsCancelStage(d.stage)
  {
    var e := d.(objects := Cancelled(q, |q|, NextState(d.stage)));
    if d.stage == CancelAndResubscribe then
      SubscribeIfNeed(e.(handle := None, stage := SubscribeAll), kind)
    else
      EnterMainLoop(e)
  }

  lemma {:induction false} FirstMarked(d: Device, q: seq<Object>, from: nat)
    requires |d.objects| == |q| && from <= |q| && d.objects == Cancelled(q, from, NextState(d.stage))
    ensures FirstFrom(d.objects, from, ToCancel) == FirstFrom(q, from, ToCancel)
    ensures Cancelled(q, FirstFrom(q, from, ToCancel), NextState(d.stage)) == d.objects
    ensures var i := FirstFrom(q, from, ToCancel);
            i == |q| || d.objects[i] == q[i]
    ensures var i := FirstFrom(q, from, ToCancel);
            i == |q| || Cancelled(q, i + 1, NextState(d.stage)) == d.objects[i := q[i].(cov := NextState(d.stage))]
  {
    FirstSame(q, d.objects, from, ToCancel);
  }

  /** The pass that started on `q` has dealt with everything before the place it resumes at. */
  ghost predicate Resumes(d: Device, q: seq<Object>, rest: seq<nat>) {
    && IsCancelStage(d.stage) && |d.objects| == |q| && (d.handle.Some? ==> d.handle.value < |q|)
    && d.objects == Cancelled(q, ResumeAt(d), NextState(d.stage))
    && rest == Places(q, ResumeAt(d), ToCancel)
  }

  lemma {:induction false} CancelSends(d: Device, q: seq<Object>, kind: SubType, rest: seq<nat>)
    requires Resumes(d, q, rest) && rest != []
    ensures var t := CancelIfNeed(d, kind);
            && rest[0] < |q| && Cancelling(t, q, rest[1..]) && SameFlags(d, t)
            && t.sent == d.sent + [CancelFor(q[rest[0]], rest[0])]
  {
    PlacesFirst(q, ResumeAt(d), ToCancel);
    FirstMarked(d, q, ResumeAt(d));
  }

  lemma {:induction false} CancelEnds(d: Device, q: seq<Object>, kind: SubType)
    requires Resumes(d, q, [])
    ensures CancelIfNeed(d, kind) == AfterCancels(d, q, kind)
  {
    PlacesFirst(q, ResumeAt(d), ToCancel);
    FirstMarked(d, q, ResumeAt(d));
  }

  lemma {:induction false} CancelStep(d: Device, q: seq<Object>, kind: SubType, rest: seq<nat>)
    requires Resumes(d, q, rest)
    ensures rest == [] ==> CancelIfNeed(d, kind) == AfterCancels(d, q, kind)
    ensures rest != [] ==>
              var t := CancelIfNeed(d, kind);
              && rest[0] < |q| && Cancelling(t, q, rest[1..]) && SameFlags(d, t)
              && t.sent == d.sent + [CancelFor(q[rest[0]], rest[0])]
  {
    if rest == [] { CancelEnds(d, q, kind); } else { CancelSends(d, q, kind, rest); }
  }

  lemma {:induction false} CancelsSplit(q: seq<Object>, rest: seq<nat>, n: nat, sent: seq<Request>)
    requires forall i :: 0 <= i < |rest| ==> rest[i] < |q|
    requires 0 < n <= |rest|
    ensures sent + [CancelFor(q[rest[0]], rest[0])] + Cancels(q, rest[1..][..n - 1]) == sent + Cancels(q, rest[..n])
    ensures rest[1..][n - 1..] == rest[n..]
  {}

  /** Any replies at all carry the pass over the remaining marked objects, one cancel each, in list order. */
  lemma {:induction false} CancelRun(d: Device, q: seq<Object>, kind: SubType, rest: seq<nat>, replies: seq<Reply>)
    requires Cancelling(d, q, rest) && |replies| <= |rest|
    requires forall i :: 0 <= i < |rest| ==> rest[i] < |q|
    ensures var t := Run(d, kind, replies);
            && Cancelling(t, q, rest[|replies|..]) && SameFlags(d, t)
            && t.sent == d.sent + Cancels(q, rest[..|replies|])
    decreases |replies|
  {
    if replies == [] {
      assert rest[0..] == rest && d.sent + Cancels(q, rest[..0]) == d.sent;
    } else {
      CancelStep(d, q, kind, rest);
      CancelRun(OnReply(d, kind, replies[0]), q, kind, rest[1..], replies[1..]);
      CancelsSplit(q, rest, |replies|, d.sent);
    }
  }

  lemma {:induction false} RunConcat(d: Device, kind: SubType, a: seq<Reply>, b: seq<Reply>)
    ensures Run(d, kind, a + b) == Run(Run(d, kind, a), kind, b)
    decreases |a|
  {
    if a == [] {
      assert a + b == b;
    } else {
      assert (a + b)[1..] == a[1..] + b;
      if d.handle.Some? && d.handle.value < |d.objects| {
        RunConcat(OnReply(d, kind, a[0]), kind, a[1..], b);
      }
    }
  }

  lemma {:induction false} LastCancel(t: Device, q: seq<Object>, kind: SubType, rest: seq<nat>, replies: seq<Reply>)
    requires Cancelling(t, q, rest) && |replies| == |rest| + 1
    requires forall i :: 0 <= i < |rest| ==> rest[i] < |q|
    ensures Run(t, kind, replies) == AfterCancels(t.(sent := t.sent + Cancels(q, rest)), q, kind)
  {
    var n := |rest|;
    CancelRun(t, q, kind, rest, replies[..n]);
    var e := Run(t, kind, replies[..n]);
    assert rest[..n] == rest;
    assert replies == replies[..n] + [replies[n]];
    RunConcat(t, kind, replies[..n], [replies[n]]);
    CancelStep(e, q, kind, []);
    assert [replies[n]][1..] == [];
    assert Run(e, kind, [replies[n]]) == Run(OnReply(e, kind, replies[n]), kind, []);
  }

  lemma {:induction false} AfterSame(d: Device, t: Device, q: seq<Object>, kind: SubType)
    requires IsCancelStage(d.stage) && SameFlags(d, t) && d.sent == t.sent
    ensures AfterCancels(d, q, kind) == AfterCancels(t, q, kind)
  {
    var all := Cancelled(q, |q|, NextState(d.stage));
    var e, f := d.(objects := all), t.(objects := all);
    assert e.(handle := None, stage := SubscribeAll) == f.(handle := None, stage := SubscribeAll);
  }

  lemma {:induction false} CancelRest(d: Device, t: Device, q: seq<Object>, kind: SubType, marks: seq<nat>,
                                      replies: seq<Reply>)
    requires marks != [] && |replies| == |marks| && forall i :: 0 <= i < |marks| ==> marks[i] < |q|
    requires Cancelling(t, q, marks[1..]) && SameFlags(d, t) && t.sent == d.sent + [CancelFor(q[marks[0]], marks[0])]
    ensures IsCancelStage(d.stage)
    ensures Run(t, kind, replies) == AfterCancels(d.(sent := d.sent + Cancels(q, marks)), q, kind)
  {
    LastCancel(t, q, kind, marks[1..], replies);
    CancelsSplit(q, marks, |marks|, d.sent);
    assert marks[1..][..|marks| - 1] == marks[1..] && marks[..|marks|] == marks;
    AfterSame(d.(sent := d.sent + Cancels(q, marks)), t.(sent := t.sent + Cancels(q, marks[1..])), q, kind);
  }

  /** A whole cancel phase: every marked object, and no other, gets one cancel of its own kind in list order;
      as many replies as cancels lead to what follows the phase. */
  lemma {:induction false} CancelPhase(d: Device, kind: SubType, replies: seq<Reply>)
    requires IsCancelStage(d.stage) && d.handle == None
    requires |replies| == |Places(d.objects, 0, ToCancel)|
    ensures forall i :: 0 <= i < |replies| ==> Places(d.objects, 0, ToCancel)[i] < |d.objects|
    ensures Run(CancelIfNeed(d, kind), kind, replies)
            == AfterCancels(d.(sent := d.sent + Cancels(d.objects, Places(d.objects, 0, ToCancel))), d.objects, kind)
  {
    var q := d.objects;
    var marks := Places(q, 0, ToCancel);
    PlacesInRange(q, ToCancel);
    assert q == Cancelled(q, 0, NextState(d.stage));
    CancelStep(d, q, kind, marks);
    if marks == [] {
      assert d.sent + Cancels(q, marks) == d.sent;
    } else {
      CancelRest(d, CancelIfNeed(d, kind), q, kind, marks, replies);
    }
  }

  // ---- the whole of a re-subscription ----

  /** The objects as the subscribe phase finds them. */
  function Resubscribing(q: seq<Object>): (r: seq<Object>)
    ensures |r| == |q|
  {
    Cancelled(q, |q|, NeedToSub)
  }

  function Marks(q: seq<Object>): seq<nat> {
    Places(q, 0, ToCancel)
  }

  function Asks(q: seq<Object>, kind: SubType): seq<nat> {
    Places(Resubscribing(q), 0, Wanting(kind))
  }

  lemma {:induction false} AtMostTwice(q: seq<Object>, kind: SubType)
    ensures |Marks(q)| + |Asks(q, kind)| <= 2 * |q|
  {
    PlacesCount(q, 0, ToCancel);
    PlacesCount(Resubscribing(q), 0, Wanting(kind));
  }

  /** In the re-subscribing state, any replies at all lead through one cancel for each marked object and then
      one request for each object that asks, and into the main loop. */
  lemma {:induction false} ResubscribePass(d: Device, kind: SubType, replies: seq<Reply>)
    requires d.stage == CancelAndResubscribe && d.handle == None && kind != NoSubscribe
    requires |replies| == |Marks(d.objects)| + |Asks(d.objects, kind)|
    ensures var t := Run(CancelIfNeed(d, kind), kind, replies);
            && InMainLoop(t) && NobodyAsks(t.objects)
            && (forall i :: 0 <= i < |Marks(d.objects)| ==> Marks(d.objects)[i] < |d.objects|)
            && t.sent == d.sent + Cancels(d.objects, Marks(d.objects)) + Subscribes(Asks(d.objects, kind), kind)
            && t.objects == Plain(Resubscribing(d.objects), 0, kind, replies[|Marks(d.objects)|..])
  {
    var n, q := |Marks(d.objects)|, d.objects;
    CancelPhase(d, kind, replies[..n]);
    assert replies == replies[..n] + replies[n..];
    RunConcat(CancelIfNeed(d, kind), kind, replies[..n], replies[n..]);
    var u := d.(sent := d.sent + Cancels(q, Marks(q)), objects := Resubscribing(q), stage := SubscribeAll);
    assert AfterCancels(d.(sent := u.sent), q, kind) == SubscribeIfNeed(u, kind);
    SubscribePass(u, kind, replies[n..]);
    PassIsLoop(u, kind, replies[n..]);
  }

  /** When subscriptions are switched off the marked objects are cancelled and the device goes back to work. */
  lemma {:induction false} CancelOnlyPass(d: Device, kind: SubType, replies: seq<Reply>)
    requires d.stage == CancelOnly && d.handle == None && |replies| == |Marks(d.objects)|
    ensures var t := Run(CancelIfNeed(d, kind), kind, replies);
            && InMainLoop(t)
            && (forall i :: 0 <= i < |Marks(d.objects)| ==> Marks(d.objects)[i] < |d.objects|)
            && t.sent == d.sent + Cancels(d.objects, Marks(d.objects))
            && t.objects == Cancelled(d.objects, |d.objects|, SupportSub)
  {
    CancelPhase(d, kind, replies);
  }

  // ---- what starts a pass ----

  datatype Change = TypeChanged(cancelType: CancelType) | IncrementChanged
  datatype CancelType = UnNeedToCancel | CancelTypeObject | CancelTypeProperty

  function MarkObject(o: Object, change: Change): Object {
    if o.cov == UnSupportSub then o
    else match change
      case TypeChanged(CancelTypeObject) => o.(cov := NeedToCancelObject)
      case TypeChanged(CancelTypeProperty) => o.(cov := NeedToCancelProperty)
      case TypeChanged(UnNeedToCancel) => o.(cov := NeedToSub)
      case IncrementChanged => if o.analog then o.(cov := NeedToCancelProperty) else o
  }

  function Marked(q: seq<Object>, change: Change): (r: seq<Object>)
    ensures |r| == |q|
  {
    seq(|q|, i requires 0 <= i < |q| => MarkObject(q[i], change))
  }

  /** The marking loop, up to the call that starts the pass. */
  function StartPass(d: Device, kind: SubType, change: Change): Device {
    if d.stage == ReadObjectList then d
    else
      d.(handle := None, disable := true, sendNext := false, objects := Marked(d.objects, change),
         stage := if kind == NoSubscribe then CancelOnly else CancelAndResubscribe)
  }

  /** How many requests a change of configuration costs. */
  function Requests(q: seq<Object>, kind: SubType): nat {
    |Marks(q)| + if kind == NoSubscribe then 0 else |Asks(q, kind)|
  }

  /** After any change of configuration the device is back in the main loop once as many replies have come
      as there were requests, and those are at most two for each object. */
  lemma {:induction false} ChangeSettles(d: Device, kind: SubType, change: Change, replies: seq<Reply>)
    requires d.stage != ReadObjectList && |replies| == Requests(Marked(d.objects, change), kind)
    ensures |replies| <= 2 * |d.objects|
    ensures var t := Run(CancelIfNeed(StartPass(d, kind, change), kind), kind, replies);
            InMainLoop(t) && (kind == NoSubscribe || NobodyAsks(t.objects)) && |t.sent| == |d.sent| + |replies|
  {
    var s := StartPass(d, kind, change);
    AtMostTwice(s.objects, kind);
    if kind == NoSubscribe {
      CancelOnlyPass(s, kind, replies);
    } else {
      ResubscribePass(s, kind, replies);
    }
  }
}
