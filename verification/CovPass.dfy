/** The subscribe and cancel passes over a device's objects, one acknowledged request at a time. */
module CovPass {
  import opened Wrappers

  datatype SubState =
    | UnSupportSub | SupportSub | NeedToSub | Subscribed
    | NeedToCancelObject | NeedToCancelProperty | UnSupportSubObject | UnSupportSubProperty

  datatype SubType = NoSubscribe | SubscribeObject | SubscribeProperty | SubscribePropertyWithIncrement

  datatype Stage = InitState | ReadObjectList | SubscribeAll | CancelOnly | CancelAndResubscribe | MainLoop

  /** An object's subscription state, and which kind of subscription it has already turned down. */
  datatype Object = Object(cov: SubState, unSupport: SubState, analog: bool)

  datatype Request = Subscribe(index: nat, kind: SubType) | CancelObject(index: nat) | CancelProperty(index: nat)

  /** `handle` is the place in the list of the object the outstanding request is about; `sent` records
      every COV request put on the wire. */
  datatype Device = Device(objects: seq<Object>, handle: Option<nat>, stage: Stage, disable: bool, sendNext: bool,
                           sent: seq<Request>)

  datatype Reply = Ack | Failure

  predicate IsNeeded(kind: SubType, o: Object) {
    if kind == SubscribeObject then o.unSupport != UnSupportSubObject
    else if kind == SubscribeProperty || kind == SubscribePropertyWithIncrement then o.unSupport != UnSupportSubProperty
    else true
  }

  predicate ToSubscribe(kind: SubType, o: Object) { o.cov == NeedToSub && IsNeeded(kind, o) }

  function Wanting(kind: SubType): Object -> bool {
    o => ToSubscribe(kind, o)
  }

  predicate ToCancel(o: Object) { o.cov == NeedToCancelObject || o.cov == NeedToCancelProperty }

  function FirstFrom(q: seq<Object>, from: nat, p: Object -> bool): (i: nat)
    requires from <= |q|
    ensures from <= i <= |q|
    ensures forall j :: from <= j < i ==> !p(q[j])
    ensures i < |q| ==> p(q[i])
    decreases |q| - from
  {
    if from == |q| || p(q[from]) then from else FirstFrom(q, from + 1, p)
  }

  /** The places from `from` on that satisfy `p`, in list order. */
  function Places(q: seq<Object>, from: nat, p: Object -> bool): seq<nat>
    requires from <= |q|
    decreases |q| - from
  {
    if from == |q| then []
    else if p(q[from]) then [from] + Places(q, from + 1, p)
    else Places(q, from + 1, p)
  }

  function Header(d: Device): Option<nat> {
    if d.objects == [] then None else Some(0)
  }

  /** Where a pass resumes: at the start, or behind the object last handled. */
  function ResumeAt(d: Device): (i: nat)
    requires d.handle.Some? ==> d.handle.value < |d.objects|
    ensures i <= |d.objects|
  {
    if d.handle == None then 0 else d.handle.value + 1
  }

  function EnterMainLoop(d: Device): Device {
    d.(stage := MainLoop, handle := Header(d), disable := false, sendNext := true)
  }

  /** Objects in `[from, to)` that ask for a kind they have turned down are no longer asking. */
  function Settled(q: seq<Object>, from: nat, to: nat): (r: seq<Object>)
    ensures |r| == |q|
    ensures forall j :: 0 <= j < |q| && !(from <= j < to) ==> r[j] == q[j]
    ensures forall j :: 0 <= j < |q| && from <= j < to ==> r[j].cov != NeedToSub
    ensures forall j :: 0 <= j < |q| && q[j].cov != NeedToSub ==> r[j] == q[j]
  {
    seq(|q|, j requires 0 <= j < |q| =>
      if from <= j < to && q[j].cov == NeedToSub then q[j].(cov := SupportSub) else q[j])
  }

  /** `subscribe_if_need` */
  function SubscribeIfNeed(d: Device, kind: SubType): Device
    requires d.handle.Some? ==> d.handle.value < |d.objects|
  {
    if kind == NoSubscribe then EnterMainLoop(d)
    else
      var i := FirstFrom(d.objects, ResumeAt(d), Wanting(kind));
      var q := Settled(d.objects, ResumeAt(d), i);
      if i < |q| then
        d.(objects := q[i := q[i].(cov := SupportSub)], handle := Some(i), sent := d.sent + [Subscribe(i, kind)])
      else
        EnterMainLoop(d.(objects := q))
  }

  /** `cancel_subscribe_object_if_need` */
  function CancelIfNeed(d: Device, kind: SubType): Device
    requires d.handle.Some? ==> d.handle.value < |d.objects|
  {
    var i := FirstFrom(d.objects, ResumeAt(d), ToCancel);
    if i < |d.objects| then
      var request := if d.objects[i].cov == NeedToCancelProperty then CancelProperty(i) else CancelObject(i);
      var next := if d.stage == CancelAndResubscribe then NeedToSub else SupportSub;
      d.(objects := d.objects[i := d.objects[i].(cov := next)], handle := Some(i), sent := d.sent + [request])
    else if d.stage == CancelAndResubscribe then
      SubscribeIfNeed(d.(handle := None, stage := SubscribeAll), kind)
    else
      EnterMainLoop(d)
  }

  /** `handle_for_unexpected` on the object the outstanding request was about. */
  function Refused(o: Object, kind: SubType): Object {
    if kind == SubscribeProperty || kind == SubscribePropertyWithIncrement then
      if o.unSupport == UnSupportSubObject then o.(cov := UnSupportSub)
      else o.(cov := SupportSub, unSupport := UnSupportSubProperty)
    else if kind == SubscribeObject then
      if o.unSupport == UnSupportSubProperty then o.(cov := UnSupportSub)
      else o.(cov := SupportSub, unSupport := UnSupportSubObject)
    else o
  }

  /** A reply, or a timeout counted as a failure, while a pass is under way. */
  function OnReply(d: Device, kind: SubType, reply: Reply): Device
    requires d.handle.Some? ==> d.handle.value < |d.objects|
    requires d.stage == SubscribeAll && reply == Ack ==> d.handle.Some?
  {
    if d.stage == SubscribeAll then
      SubscribeIfNeed(if d.handle.Some? then WithReply(d, kind, reply) else d, kind)
    else if d.stage == CancelOnly || d.stage == CancelAndResubscribe then
      CancelIfNeed(d, kind)
    else d
  }

  /** The object the device answered about, before the pass goes on. */
  function Answered(o: Object, kind: SubType, reply: Reply): Object {
    if reply == Ack then o.(cov := Subscribed) else Refused(o, kind)
  }

  function WithReply(d: Device, kind: SubType, reply: Reply): Device
    requires d.handle.Some? && d.handle.value < |d.objects|
  {
    d.(objects := d.objects[d.handle.value := Answered(d.objects[d.handle.value], kind, reply)])
  }

  // ---- places ----

  lemma {:induction false} PlacesFirst(q: seq<Object>, from: nat, p: Object -> bool)
    requires from <= |q|
    ensures FirstFrom(q, from, p) == |q| ==> Places(q, from, p) == []
    ensures FirstFrom(q, from, p) < |q| ==>
              Places(q, from, p) == [FirstFrom(q, from, p)] + Places(q, FirstFrom(q, from, p) + 1, p)
    decreases |q| - from
  {
    if from < |q| && !p(q[from]) {
      PlacesFirst(q, from + 1, p);
    }
  }

  lemma {:induction false} PlacesSame(q: seq<Object>, r: seq<Object>, from: nat, p: Object -> bool)
    requires |q| == |r| && from <= |q| && forall j :: from <= j < |q| ==> p(q[j]) == p(r[j])
    ensures Places(q, from, p) == Places(r, from, p)
    decreases |q| - from
  {
    if from < |q| { PlacesSame(q, r, from + 1, p); }
  }

  /** Exactly the places that satisfy `p`, each once and in list order. */
  lemma {:induction false} PlacesExact(q: seq<Object>, from: nat, p: Object -> bool)
    requires from <= |q|
    ensures forall i: nat :: i in Places(q, from, p) <==> from <= i < |q| && p(q[i])
    ensures forall j, k :: 0 <= j < k < |Places(q, from, p)| ==> Places(q, from, p)[j] < Places(q, from, p)[k]
    decreases |q| - from
  {
    if from < |q| {
      PlacesExact(q, from + 1, p);
      var rest := Places(q, from + 1, p);
      assert forall k :: 0 <= k < |rest| ==> rest[k] in rest;
    }
  }

  lemma {:induction false} PlacesCount(q: seq<Object>, from: nat, p: Object -> bool)
    requires from <= |q|
    ensures |Places(q, from, p)| <= |q| - from
    decreases |q| - from
  {
    if from < |q| { PlacesCount(q, from + 1, p); }
  }

  // ---- the subscribe pass ----

  /** The pass is waiting for a reply about the object at `handle`; `rest` are still to be asked. */
  ghost predicate Subscribing(d: Device, kind: SubType, rest: seq<nat>) {
    && d.stage == SubscribeAll && d.handle.Some? && d.handle.value < |d.objects|
    && (forall j :: 0 <= j <= d.handle.value ==> d.objects[j].cov != NeedToSub)
    && rest == Places(d.objects, d.handle.value + 1, Wanting(kind))
  }

  /** The device takes part in the main loop. */
  ghost predicate InMainLoop(d: Device) {
    d.stage == MainLoop && !d.disable && d.sendNext && d.handle == Header(d)
  }

  ghost predicate NobodyAsks(q: seq<Object>) {
    forall j :: 0 <= j < |q| ==> q[j].cov != NeedToSub
  }

  function Subscribes(places: seq<nat>, kind: SubType): (r: seq<Request>)
    ensures |r| == |places|
  {
    seq(|places|, i requires 0 <= i < |places| => Subscribe(places[i], kind))
  }

  /** Nothing before the place the pass resumes at asks any more, and `rest` is what it has still to ask. */
  ghost predicate Resumes(d: Device, kind: SubType, rest: seq<nat>) {
    && kind != NoSubscribe && d.stage == SubscribeAll && (d.handle.Some? ==> d.handle.value < |d.objects|)
    && (forall j :: 0 <= j < ResumeAt(d) ==> d.objects[j].cov != NeedToSub)
    && rest == Places(d.objects, ResumeAt(d), Wanting(kind))
  }

  lemma {:induction false} SubscribeAsks(d: Device, kind: SubType, rest: seq<nat>)
    requires Resumes(d, kind, rest) && rest != []
    ensures var t := SubscribeIfNeed(d, kind);
            Subscribing(t, kind, rest[1..]) && t.sent == d.sent + [Subscribe(rest[0], kind)]
  {
    var p := Wanting(kind);
    PlacesFirst(d.objects, ResumeAt(d), p);
    var i := FirstFrom(d.objects, ResumeAt(d), p);
    PlacesSame(d.objects, SubscribeIfNeed(d, kind).objects, i + 1, p);
  }

  lemma {:induction false} SubscribeEnds(d: Device, kind: SubType, rest: seq<nat>)
    requires Resumes(d, kind, rest) && rest == []
    ensures var t := SubscribeIfNeed(d, kind);
            InMainLoop(t) && NobodyAsks(t.objects) && t.sent == d.sent
  {
    PlacesFirst(d.objects, ResumeAt(d), Wanting(kind));
  }

  /** One step of the pass asks the next object, or ends the pass when there is none. */
  lemma {:induction false} SubscribeStep(d: Device, kind: SubType, rest: seq<nat>)
    requires Resumes(d, kind, rest)
    ensures var t := SubscribeIfNeed(d, kind);
            if rest == [] then InMainLoop(t) && NobodyAsks(t.objects) && t.sent == d.sent
            else Subscribing(t, kind, rest[1..]) && t.sent == d.sent + [Subscribe(rest[0], kind)]
  {
    if rest == [] { SubscribeEnds(d, kind, rest); } else { SubscribeAsks(d, kind, rest); }
  }

  lemma {:induction false} SubscribeReply(d: Device, kind: SubType, rest: seq<nat>, reply: Reply)
    requires kind != NoSubscribe && Subscribing(d, kind, rest)
    ensures var t := OnReply(d, kind, reply);
            if rest == [] then InMainLoop(t) && NobodyAsks(t.objects) && t.sent == d.sent
            else Subscribing(t, kind, rest[1..]) && t.sent == d.sent + [Subscribe(rest[0], kind)]
  {
    var a := WithReply(d, kind, reply);
    PlacesSame(d.objects, a.objects, d.handle.value + 1, Wanting(kind));
    SubscribeStep(a, kind, rest);
  }

  function Run(d: Device, kind: SubType, replies: seq<Reply>): Device
    decreases |replies|
  {
    if replies == [] || d.handle == None || d.handle.value >= |d.objects| then d
    else Run(OnReply(d, kind, replies[0]), kind, replies[1..])
  }

  lemma {:induction false} SubscribesSplit(rest: seq<nat>, kind: SubType, n: nat, sent: seq<Request>)
    requires 0 < n <= |rest|
    ensures sent + [Subscribe(rest[0], kind)] + Subscribes(rest[1..][..n - 1], kind)
            == sent + Subscribes(rest[..n], kind)
    ensures rest[1..][n - 1..] == rest[n..]
  {}

  lemma {:induction false} SubscribesAll(rest: seq<nat>, kind: SubType, sent: seq<Request>)
    requires rest != []
    ensures sent + [Subscribe(rest[0], kind)] + Subscribes(rest[1..], kind) == sent + Subscribes(rest, kind)
  {}

  lemma {:induction false} SubscribesNone(rest: seq<nat>, kind: SubType, sent: seq<Request>)
    ensures sent + Subscribes(rest[..0], kind) == sent && rest[0..] == rest && sent + Subscribes([], kind) == sent
  {}

  /** Whatever mix of replies arrives, the objects still waiting are asked once each and in list order, and
      the pass is over with the reply about the last of them. */
  lemma {:induction false} SubscribeRun(d: Device, kind: SubType, rest: seq<nat>, replies: seq<Reply>)
    requires kind != NoSubscribe && Subscribing(d, kind, rest) && |replies| <= |rest| + 1
    ensures var t := Run(d, kind, replies);
            if |replies| == |rest| + 1 then
              InMainLoop(t) && NobodyAsks(t.objects) && t.sent == d.sent + Subscribes(rest, kind)
            else
              Subscribing(t, kind, rest[|replies|..]) && t.sent == d.sent + Subscribes(rest[..|replies|], kind)
    decreases |replies|
  {
    var n := |replies|;
    if n > 0 {
      var t := OnReply(d, kind, replies[0]);
      SubscribeReply(d, kind, rest, replies[0]);
      if rest == [] {
        assert replies[1..] == [];
        SubscribesNone(rest, kind, d.sent);
      } else {
        SubscribeRun(t, kind, rest[1..], replies[1..]);
        if n <= |rest| {
          SubscribesSplit(rest, kind, n, d.sent);
        } else {
          SubscribesAll(rest, kind, d.sent);
        }
      }
    } else {
      SubscribesNone(rest, kind, d.sent);
    }
  }

  /** A whole subscribe pass: exactly the objects that asked and had not turned this kind down, one request
      each in list order, and as many replies as requests to finish. */
  lemma {:induction false} SubscribePass(d: Device, kind: SubType, replies: seq<Reply>)
    requires kind != NoSubscribe && d.stage == SubscribeAll && d.handle == None
    requires |replies| == |Places(d.objects, 0, Wanting(kind))|
    ensures var t := Run(SubscribeIfNeed(d, kind), kind, replies);
            && InMainLoop(t) && NobodyAsks(t.objects)
            && t.sent == d.sent + Subscribes(Places(d.objects, 0, Wanting(kind)), kind)
  {
    var rest := Places(d.objects, 0, Wanting(kind));
    SubscribeStep(d, kind, rest);
    if rest == [] {
      SubscribesNone(rest, kind, d.sent);
    } else {
      SubscribeRun(SubscribeIfNeed(d, kind), kind, rest[1..], replies);
      SubscribesAll(rest, kind, d.sent);
    }
  }

  // ---- the subscribe pass as a plain loop ----

  function Unasked(o: Object): Object {
    if o.cov == NeedToSub then o.(cov := SupportSub) else o
  }

  /** What a loop that asked each object in turn and waited for its reply would leave behind. */
  function Plain(q: seq<Object>, from: nat, kind: SubType, replies: seq<Reply>): seq<Object>
    requires from <= |q|
    decreases |q| - from
  {
    if from == |q| then q
    else if !ToSubscribe(kind, q[from]) then Plain(q[from := Unasked(q[from])], from + 1, kind, replies)
    else if replies == [] then q
    else Plain(q[from := Answered(q[from].(cov := SupportSub), kind, replies[0])], from + 1, kind, replies[1..])
  }

  lemma {:induction false} FirstSame(q: seq<Object>, r: seq<Object>, from: nat, p: Object -> bool)
    requires |q| == |r| && from <= |q| && forall j :: from <= j < |q| ==> q[j] == r[j]
    ensures FirstFrom(q, from, p) == FirstFrom(r, from, p)
    decreases |q| - from
  {
    if from < |q| && !p(q[from]) { FirstSame(q, r, from + 1, p); }
  }

  lemma {:induction false} PlainSkips(q: seq<Object>, from: nat, kind: SubType, replies: seq<Reply>)
    requires from <= |q|
    ensures var i := FirstFrom(q, from, Wanting(kind));
            Plain(q, from, kind, replies) == Plain(Settled(q, from, i), i, kind, replies)
    decreases |q| - from
  {
    var i := FirstFrom(q, from, Wanting(kind));
    if i == from {
      assert Settled(q, from, from) == q;
    } else {
      var r := q[from := Unasked(q[from])];
      FirstSame(q, r, from + 1, Wanting(kind));
      PlainSkips(r, from + 1, kind, replies);
      assert Settled(r, from + 1, i) == Settled(q, from, i);
    }
  }

  /** One request and its reply, seen from the loop and from the pass. */
  lemma {:induction false} AskAndAnswer(d: Device, kind: SubType, replies: seq<Reply>)
    requires kind != NoSubscribe && (d.handle.Some? ==> d.handle.value < |d.objects|)
    ensures var i := FirstFrom(d.objects, ResumeAt(d), Wanting(kind));
            var t := SubscribeIfNeed(d, kind);
            && (i == |d.objects| ==> t.objects == Plain(d.objects, ResumeAt(d), kind, replies))
            && (i < |d.objects| && replies != [] ==>
                  && t.handle == Some(i) && |t.objects| == |d.objects|
                  && Plain(d.objects, ResumeAt(d), kind, replies)
                     == Plain(WithReply(t, kind, replies[0]).objects, i + 1, kind, replies[1..]))
  {
    var i := FirstFrom(d.objects, ResumeAt(d), Wanting(kind));
    var s, t := Settled(d.objects, ResumeAt(d), i), SubscribeIfNeed(d, kind);
    PlainSkips(d.objects, ResumeAt(d), kind, replies);
    if i < |d.objects| && replies != [] {
      var answered := Answered(s[i].(cov := SupportSub), kind, replies[0]);
      assert s[i] == d.objects[i];
      assert WithReply(t, kind, replies[0]).objects == s[i := answered];
    }
  }

  /** What the loop has still to do once the outstanding request is answered by `replies[0]`. */
  function LoopFrom(d: Device, kind: SubType, replies: seq<Reply>): seq<Object>
    requires d.handle.Some? && d.handle.value < |d.objects| && replies != []
  {
    Plain(WithReply(d, kind, replies[0]).objects, d.handle.value + 1, kind, replies[1..])
  }

  lemma {:induction false} AnsweredRest(d: Device, kind: SubType, rest: seq<nat>, reply: Reply)
    requires Subscribing(d, kind, rest)
    ensures var a := WithReply(d, kind, reply);
            && OnReply(d, kind, reply) == SubscribeIfNeed(a, kind) && ResumeAt(a) == d.handle.value + 1
            && |a.objects| == |d.objects|
            && (rest == [] <==> FirstFrom(a.objects, d.handle.value + 1, Wanting(kind)) == |a.objects|)
  {
    var a := WithReply(d, kind, reply);
    PlacesSame(d.objects, a.objects, d.handle.value + 1, Wanting(kind));
    PlacesFirst(a.objects, d.handle.value + 1, Wanting(kind));
  }

  lemma {:induction false} LoopStep(d: Device, kind: SubType, rest: seq<nat>, replies: seq<Reply>)
    requires kind != NoSubscribe && Subscribing(d, kind, rest) && |replies| == |rest| + 1
    ensures var t := OnReply(d, kind, replies[0]);
            if rest == [] then t.objects == LoopFrom(d, kind, replies)
            else
              && t.handle.Some? && t.handle.value < |t.objects|
              && LoopFrom(t, kind, replies[1..]) == LoopFrom(d, kind, replies)
  {
    AnsweredRest(d, kind, rest, replies[0]);
    AskAndAnswer(WithReply(d, kind, replies[0]), kind, replies[1..]);
  }

  /** The pass, resumed reply by reply through `handle_next_object`, changes the objects as the loop does. */
  lemma {:induction false} RunIsLoop(d: Device, kind: SubType, rest: seq<nat>, replies: seq<Reply>)
    requires kind != NoSubscribe && Subscribing(d, kind, rest) && |replies| == |rest| + 1
    ensures Run(d, kind, replies).objects == LoopFrom(d, kind, replies)
    decreases |replies|
  {
    LoopStep(d, kind, rest, replies);
    SubscribeReply(d, kind, rest, replies[0]);
    if rest == [] {
      assert replies[1..] == [];
    } else {
      RunIsLoop(OnReply(d, kind, replies[0]), kind, rest[1..], replies[1..]);
    }
  }

  lemma {:induction false} PassIsLoop(d: Device, kind: SubType, replies: seq<Reply>)
    requires kind != NoSubscribe && d.stage == SubscribeAll && d.handle == None
    requires |replies| == |Places(d.objects, 0, Wanting(kind))|
    ensures Run(SubscribeIfNeed(d, kind), kind, replies).objects == Plain(d.objects, 0, kind, replies)
  {
    var rest := Places(d.objects, 0, Wanting(kind));
    SubscribeStep(d, kind, rest);
    AskAndAnswer(d, kind, replies);
    PlacesFirst(d.objects, 0, Wanting(kind));
    if rest != [] {
      RunIsLoop(SubscribeIfNeed(d, kind), kind, rest[1..], replies);
    }
  }
}
