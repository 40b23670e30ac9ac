/** What a device's objects have turned down, over every run of replies, changes of configuration and markings. */
module Refusals {
  import opened Wrappers
  import opened CovPass
  import opened CancelPass
  import Reconfiguration

  /** A reply to a request to subscribe. */
  datatype Verdict = Verdict(place: nat, kind: SubType, reply: Reply)

  /** A device, the kind of subscription configured, and every such reply so far. */
  datatype Session = Session(device: Device, kind: SubType, log: seq<Verdict>)

  /** A reply or a timeout; a change of configuration; a mark the main loop puts on an object. */
  datatype Turn =
    | Answer(reply: Reply)
    | Change(kind: SubType, change: CancelPass.Change)
    | Mark(place: nat, cov: SubState)

  predicate Waits(d: Device) { d.stage == SubscribeAll && d.handle.Some? && d.handle.value < |d.objects| }

  function Answered(s: Session, reply: Reply): Session {
    var d := s.device;
    if d.handle == None || d.handle.value >= |d.objects| then s
    else s.(device := OnReply(d, s.kind, reply),
            log := if Waits(d) then s.log + [Verdict(d.handle.value, s.kind, reply)] else s.log)
  }

  function Changed(s: Session, kind: SubType, change: CancelPass.Change): Session {
    if s.device.stage == ReadObjectList then s.(kind := kind)
    else s.(kind := kind, device := CovPass.CancelIfNeed(StartPass(s.device, kind, change), kind))
  }

  /** The main loop leaves alone what has been given up, and gives nothing up. */
  function Touched(s: Session, place: nat, cov: SubState): Session {
    var d := s.device;
    if d.stage == MainLoop && place < |d.objects| && d.objects[place].cov != UnSupportSub && cov != UnSupportSub then
      s.(device := d.(objects := d.objects[place := d.objects[place].(cov := cov)]))
    else s
  }

  function Next(s: Session, turn: Turn): Session {
    match turn
    case Answer(reply) => Answered(s, reply)
    case Change(kind, change) => Changed(s, kind, change)
    case Mark(place, cov) => Touched(s, place, cov)
  }

  function Run(s: Session, turns: seq<Turn>): Session
    decreases |turns|
  {
    if turns == [] then s else Run(Next(s, turns[0]), turns[1..])
  }

  predicate ByProperty(kind: SubType) { kind == SubscribeProperty || kind == SubscribePropertyWithIncrement }

  /** A request of that form to that object has failed. */
  predicate Failed(log: seq<Verdict>, place: nat, byProperty: bool) {
    exists v :: v in log && v.place == place && v.reply == Failure && ByProperty(v.kind) == byProperty
  }

  /** The object remembers what it turned down: the one form, the other, or, being given up, both. */
  ghost predicate Remembers(o: Object, log: seq<Verdict>, i: nat) {
    && (o.cov == UnSupportSub <==> Failed(log, i, true) && Failed(log, i, false))
    && (Failed(log, i, true) && !Failed(log, i, false) ==> o.unSupport == UnSupportSubProperty)
    && (Failed(log, i, false) && !Failed(log, i, true) ==> o.unSupport == UnSupportSubObject)
    && (!Failed(log, i, true) && !Failed(log, i, false) ==>
          o.unSupport != UnSupportSubProperty && o.unSupport != UnSupportSubObject)
  }

  ghost predicate AllRemember(q: seq<Object>, log: seq<Verdict>) {
    forall i: nat :: i < |q| ==> Remembers(q[i], log, i)
  }

  /** The reply awaited is to the request sent last, which is of a form the object has not turned down; until it comes
      the object is neither asking nor subscribed. */
  ghost predicate Outstanding(d: Device, kind: SubType, log: seq<Verdict>) {
    && d.handle.Some? && d.handle.value < |d.objects| && kind != NoSubscribe
    && d.sent != [] && d.sent[|d.sent| - 1] == Subscribe(d.handle.value, kind)
    && !Failed(log, d.handle.value, ByProperty(kind)) && d.objects[d.handle.value].cov == SupportSub
  }

  ghost predicate Sound(d: Device, kind: SubType, log: seq<Verdict>) {
    && (d.handle.Some? ==> d.handle.value < |d.objects|)
    && (d.stage == SubscribeAll || d.stage == MainLoop || d.stage == CancelOnly || d.stage == CancelAndResubscribe)
    && (d.stage == CancelAndResubscribe ==> kind != NoSubscribe)
    && (d.stage == SubscribeAll ==> Outstanding(d, kind, log))
    && AllRemember(d.objects, log)
  }

  ghost predicate Fits(s: Session) { Sound(s.device, s.kind, s.log) }

  // ---- one step ----

  /** An object that has turned a form down is not asked for it. */
  lemma {:induction false} NotAskedFor(o: Object, log: seq<Verdict>, i: nat, kind: SubType)
    requires Remembers(o, log, i) && kind != NoSubscribe && o.cov != UnSupportSub
    ensures IsNeeded(kind, o) <==> !Failed(log, i, ByProperty(kind))
  {}

  /** At most one request, and if it asks for a subscription, of a form its object has not turned down. */
  ghost predicate Asks(d: Device, t: Device, kind: SubType, log: seq<Verdict>) {
    || t.sent == d.sent
    || (exists r ::
          t.sent == d.sent + [r] && (r.Subscribe? ==> r.kind == kind && !Failed(log, r.index, ByProperty(kind))))
  }

  lemma {:induction false} SubscribeFits(d: Device, kind: SubType, log: seq<Verdict>)
    requires d.stage == SubscribeAll && kind != NoSubscribe && (d.handle.Some? ==> d.handle.value < |d.objects|)
    requires AllRemember(d.objects, log)
    ensures var t := CovPass.SubscribeIfNeed(d, kind);
            Sound(t, kind, log) && Asks(d, t, kind, log)
  {
    var i, t := FirstFrom(d.objects, ResumeAt(d), Wanting(kind)), CovPass.SubscribeIfNeed(d, kind);
    if i < |d.objects| {
      NotAskedFor(d.objects[i], log, i, kind);
      assert t.sent == d.sent + [Subscribe(i, kind)];
    }
  }

  lemma {:induction false} CancelFits(d: Device, kind: SubType, log: seq<Verdict>)
    requires d.stage == CancelOnly || (d.stage == CancelAndResubscribe && kind != NoSubscribe)
    requires (d.handle.Some? ==> d.handle.value < |d.objects|) && AllRemember(d.objects, log)
    ensures var t := CovPass.CancelIfNeed(d, kind);
            Sound(t, kind, log) && Asks(d, t, kind, log)
  {
    var i, t := FirstFrom(d.objects, ResumeAt(d), ToCancel), CovPass.CancelIfNeed(d, kind);
    if i < |d.objects| {
      assert t.sent == d.sent + [t.sent[|d.sent|]];
    } else if d.stage == CancelAndResubscribe {
      SubscribeFits(d.(handle := None, stage := SubscribeAll), kind, log);
    }
  }

  lemma {:induction false} FailedMore(log: seq<Verdict>, v: Verdict, i: nat, byProperty: bool)
    ensures Failed(log + [v], i, byProperty) <==>
              Failed(log, i, byProperty) || (v.place == i && v.reply == Failure && ByProperty(v.kind) == byProperty)
  {
    if Failed(log, i, byProperty) {
      var w :| w in log && w.place == i && w.reply == Failure && ByProperty(w.kind) == byProperty;
      assert w in log + [v];
    }
    if v.place == i && v.reply == Failure && ByProperty(v.kind) == byProperty {
      assert v in log + [v];
    }
  }

  /** What the reply to an outstanding request does to its object: an acknowledged one is subscribed, one that fails
      is given up if it had turned the other form down before and else remembers this one. */
  ghost predicate Settles(o: Object, r: Object, log: seq<Verdict>, i: nat, kind: SubType, reply: Reply) {
    if reply == Ack then r == o.(cov := Subscribed)
    else if Failed(log, i, !ByProperty(kind)) then r == o.(cov := UnSupportSub)
    else r == o.(cov := SupportSub, unSupport := if ByProperty(kind) then UnSupportSubProperty else UnSupportSubObject)
  }

  lemma {:induction false} ReplySettles(d: Device, kind: SubType, log: seq<Verdict>, reply: Reply)
    requires Sound(d, kind, log) && Waits(d)
    ensures var i := d.handle.value;
            Settles(d.objects[i], WithReply(d, kind, reply).objects[i], log, i, kind, reply)
  {}

  lemma {:induction false} SettlesRemembers(o: Object, r: Object, log: seq<Verdict>, i: nat, kind: SubType,
                                            reply: Reply)
    requires Remembers(o, log, i) && !Failed(log, i, ByProperty(kind)) && o.cov != UnSupportSub
    requires Settles(o, r, log, i, kind, reply)
    ensures Remembers(r, log + [Verdict(i, kind, reply)], i)
  {
    FailedMore(log, Verdict(i, kind, reply), i, true);
    FailedMore(log, Verdict(i, kind, reply), i, false);
  }

  lemma {:induction false} WithReplyFits(d: Device, kind: SubType, log: seq<Verdict>, reply: Reply)
    requires Sound(d, kind, log) && Waits(d)
    ensures AllRemember(WithReply(d, kind, reply).objects, log + [Verdict(d.handle.value, kind, reply)])
  {
    var v, q := Verdict(d.handle.value, kind, reply), WithReply(d, kind, reply).objects;
    ReplySettles(d, kind, log, reply);
    forall i: nat | i < |q| ensures Remembers(q[i], log + [v], i) {
      if i == d.handle.value {
        SettlesRemembers(d.objects[i], q[i], log, i, kind, reply);
      } else {
        FailedMore(log, v, i, true);
        FailedMore(log, v, i, false);
      }
    }
  }

  lemma {:induction false} AnswerFits(s: Session, reply: Reply)
    requires Fits(s)
    ensures var t := Answered(s, reply);
            Fits(t) && Asks(s.device, t.device, t.kind, t.log)
  {
    var d := s.device;
    if d.handle.Some? {
      if d.stage == SubscribeAll {
        WithReplyFits(d, s.kind, s.log, reply);
        SubscribeFits(WithReply(d, s.kind, reply), s.kind, s.log + [Verdict(d.handle.value, s.kind, reply)]);
      } else if d.stage != MainLoop {
        CancelFits(d, s.kind, s.log);
      }
    }
  }

  lemma {:induction false} ChangeFits(s: Session, kind: SubType, change: CancelPass.Change)
    requires Fits(s)
    ensures var t := Changed(s, kind, change);
            Fits(t) && Asks(s.device, t.device, t.kind, t.log)
  {
    var p := StartPass(s.device, kind, change);
    forall i: nat | i < |p.objects| ensures Remembers(p.objects[i], s.log, i) {
      Reconfiguration.MarkedFor(s.device.objects, kind, change, i);
      MarkRemembers(s.device.objects[i], change, s.log, i);
    }
    CancelFits(p, kind, s.log);
  }

  lemma {:induction false} MarkRemembers(o: Object, change: CancelPass.Change, log: seq<Verdict>, i: nat)
    requires Remembers(o, log, i)
    ensures Remembers(MarkObject(o, change), log, i)
  {}

  lemma {:induction false} NextFits(s: Session, turn: Turn)
    requires Fits(s)
    ensures var t := Next(s, turn);
            Fits(t) && Asks(s.device, t.device, t.kind, t.log)
  {
    match turn
    case Answer(reply) => AnswerFits(s, reply);
    case Change(kind, change) => ChangeFits(s, kind, change);
    case Mark(_, _) =>
  }

  // ---- every run ----

  /** No request is ever sent for a form that its object has turned down before. */
  ghost predicate NeverAsksAgain(s: Session, turns: seq<Turn>)
    decreases |turns|
  {
    turns != [] ==>
      var t := Next(s, turns[0]);
      Asks(s.device, t.device, t.kind, t.log) && NeverAsksAgain(t, turns[1..])
  }

  /** Whatever replies, changes and marks come in whatever order. */
  lemma {:induction false} RefusalsAreKept(s: Session, turns: seq<Turn>)
    requires Fits(s)
    ensures Fits(Run(s, turns)) && NeverAsksAgain(s, turns)
    decreases |turns|
  {
    if turns != [] {
      NextFits(s, turns[0]);
      RefusalsAreKept(Next(s, turns[0]), turns[1..]);
    }
  }

  /** A device whose object list has just been read, as its first pass begins. */
  function Begin(q: seq<Object>, kind: SubType): Session {
    Session(CovPass.SubscribeIfNeed(Device(q, None, SubscribeAll, true, false, []), kind), kind, [])
  }

  ghost predicate NewObjects(q: seq<Object>) {
    forall i :: 0 <= i < |q| ==> q[i].cov == NeedToSub && q[i].unSupport == UnSupportSub
  }

  lemma {:induction false} BeginFits(q: seq<Object>, kind: SubType)
    requires NewObjects(q) && kind != NoSubscribe
    ensures Fits(Begin(q, kind))
  {
    SubscribeFits(Device(q, None, SubscribeAll, true, false, []), kind, []);
  }

  /** So from the first pass on, over every run: an object is given up exactly when it has turned down both forms, it
      remembers the one form it has turned down, and it is never asked again for a form it has turned down. */
  lemma {:induction false} FromTheFirstPass(q: seq<Object>, kind: SubType, turns: seq<Turn>)
    requires NewObjects(q) && kind != NoSubscribe
    ensures var t := Run(Begin(q, kind), turns);
            AllRemember(t.device.objects, t.log) && NeverAsksAgain(Begin(q, kind), turns)
  {
    BeginFits(q, kind);
    RefusalsAreKept(Begin(q, kind), turns);
  }

  // ---- whom the next pass asks ----

  /** The marking reaches the object: every one on a change of type, and on a change of increment the analog ones and
      those an earlier pass had still to deal with. */
  predicate Reached(o: Object, change: CancelPass.Change) {
    || change.TypeChanged? || o.analog || o.cov == NeedToSub
    || o.cov == NeedToCancelObject || o.cov == NeedToCancelProperty
  }

  /** The pass after a change asks exactly the objects it reaches that have not turned this form down. */
  lemma {:induction false} AskedUnlessFailed(s: Session, kind: SubType, change: CancelPass.Change, replies: seq<Reply>,
                                             i: nat)
    requires Fits(s) && kind != NoSubscribe && Reconfiguration.Enough(s.device, kind, change, replies)
    requires i < |s.device.objects|
    ensures var d := s.device;
            var t := Reconfiguration.Reconfigured(d, kind, change, replies);
            Subscribe(i, kind) in Reconfiguration.Since(t, |d.sent|) <==>
              Reached(d.objects[i], change) && !Failed(s.log, i, ByProperty(kind))
  {
    var o := s.device.objects[i];
    Reconfiguration.ChangeSends(s.device, kind, change, replies);
    if o.cov != UnSupportSub {
      NotAskedFor(o, s.log, i, kind);
    }
  }

  // ---- the outcome of a pass ----

  lemma {:induction false} EarlierStay(s: Session, reply: Reply, i: nat)
    requires Fits(s) && Waits(s.device) && i <= s.device.handle.value
    ensures var d, t := s.device, Answered(s, reply).device;
            && |t.objects| == |d.objects| && (Waits(t) ==> i < t.handle.value)
            && (Waits(t) || t.stage == MainLoop)
            && t.objects[i] == WithReply(d, s.kind, reply).objects[i]
  {}

  function Answers(replies: seq<Reply>): (turns: seq<Turn>)
    ensures |turns| == |replies|
  {
    if replies == [] then [] else [Answer(replies[0])] + Answers(replies[1..])
  }

  lemma {:induction false} DoneStay(s: Session, replies: seq<Reply>, i: nat)
    requires Fits(s) && i < |s.device.objects|
    requires s.device.stage == MainLoop || (Waits(s.device) && i < s.device.handle.value)
    ensures var t := Run(s, Answers(replies)).device;
            i < |t.objects| && t.objects[i] == s.device.objects[i]
    decreases |replies|
  {
    if replies != [] {
      var t := Answered(s, replies[0]);
      assert Answers(replies)[1..] == Answers(replies[1..]);
      AnswerFits(s, replies[0]);
      if Waits(s.device) { EarlierStay(s, replies[0], i); }
      DoneStay(t, replies[1..], i);
    }
  }

  /** The object whose reply is awaited is left, by that reply and whatever others follow it, as `Settles` says. */
  lemma {:induction false} PassSettles(s: Session, reply: Reply, replies: seq<Reply>)
    requires Fits(s) && Waits(s.device)
    ensures var i, t := s.device.handle.value, Run(s, Answers([reply] + replies));
            && i < |t.device.objects|
            && Settles(s.device.objects[i], t.device.objects[i], s.log, i, s.kind, reply)
            && s.device.sent != [] && s.device.sent[|s.device.sent| - 1] == Subscribe(i, s.kind)
  {
    var i, u := s.device.handle.value, Answered(s, reply);
    assert ([reply] + replies)[1..] == replies;
    assert Answers([reply] + replies)[1..] == Answers(replies);
    AnswerFits(s, reply);
    EarlierStay(s, reply, i);
    ReplySettles(s.device, s.kind, s.log, reply);
    DoneStay(u, replies, i);
  }
}
