/** A device's passes as the code runs them: loops that change the objects in place and stop at the first one
    that needs a request. */
module CovDevice {
  import opened Wrappers
  import opened CovPass
  import C = CancelPass

  lemma {:induction false} FirstIs(q: seq<Object>, from: nat, p: Object -> bool, i: nat)
    requires from <= i <= |q| && (forall j :: from <= j < i ==> !p(q[j])) && (i < |q| ==> p(q[i]))
    ensures i == FirstFrom(q, from, p)
    decreases i - from
  {
    if from < i { FirstIs(q, from + 1, p, i); }
  }

  class BacDevice {
    const objects: array<Object>
    var handle: Option<nat>
    var stage: Stage
    var disable: bool
    var sendNext: bool
    ghost var sent: seq<Request>

    ghost function State(): Device
      reads this, objects
    {
      Device(objects[..], handle, stage, disable, sendNext, sent)
    }

    ghost predicate Valid()
      reads this
    {
      handle.Some? ==> handle.value < objects.Length
    }

    predicate InPass()
      reads this
    {
      stage == SubscribeAll || stage == CancelOnly || stage == CancelAndResubscribe
    }

    /** A device whose object list has just been read. */
    constructor (list: seq<Object>)
      ensures fresh(objects) && Valid()
      ensures State() == Device(list, None, SubscribeAll, false, true, [])
    {
      objects := new Object[|list|](i requires 0 <= i < |list| => list[i]);
      handle, stage, disable, sendNext, sent := None, SubscribeAll, false, true, [];
      new;
      assert objects[..] == list;
    }

    method GoToMainLoop()
      modifies this
      ensures State() == EnterMainLoop(old(State())) && Valid()
    {
      stage := MainLoop;
      handle := if objects.Length == 0 then None else Some(0);
      disable := false;
      sendNext := true;
    }

    /** The place the pass resumes at; the list's length stands for the end of the list. */
    method Resume() returns (i: nat)
      requires Valid()
      modifies this`handle
      ensures i == ResumeAt(old(State())) && Valid()
    {
      if handle == None {
        handle := if objects.Length == 0 then None else Some(0);
        i := 0;
      } else {
        i := handle.value + 1;
      }
    }

    /** The search of `subscribe_if_need`, which settles the objects it passes over. */
    method FindNext(kind: SubType, from: nat) returns (i: nat)
      requires from <= objects.Length
      modifies objects
      ensures i == FirstFrom(old(objects[..]), from, Wanting(kind))
      ensures objects[..] == Settled(old(objects[..]), from, i)
    {
      i := from;
      while i < objects.Length && !(objects[i].cov == NeedToSub && IsNeeded(kind, objects[i]))
        invariant from <= i <= objects.Length
        invariant forall j :: from <= j < i ==> !ToSubscribe(kind, old(objects[..])[j])
        invariant objects[..] == Settled(old(objects[..]), from, i)
      {
        if objects[i].cov == NeedToSub {
          objects[i] := objects[i].(cov := SupportSub);
        }
        i := i + 1;
      }
      FirstIs(old(objects[..]), from, Wanting(kind), i);
    }

    method SubscribeIfNeed(kind: SubType)
      requires Valid()
      modifies this, objects
      ensures State() == CovPass.SubscribeIfNeed(old(State()), kind) && Valid()
    {
      var i := objects.Length;
      if kind != NoSubscribe {
        i := Resume();
        i := FindNext(kind, i);
      }
      if i < objects.Length {
        handle := Some(i);
        objects[i] := objects[i].(cov := SupportSub);
        sent := sent + [Subscribe(i, kind)];
      } else {
        GoToMainLoop();
      }
    }

    method SendCancel(i: nat)
      requires i < objects.Length
      modifies this, objects
      ensures Valid() && objects[..] == old(objects[..])[i := old(objects[i]).(cov := C.NextState(old(stage)))]
      ensures sent == old(sent) + [C.CancelFor(old(objects[i]), i)] && handle == Some(i)
      ensures stage == old(stage) && disable == old(disable) && sendNext == old(sendNext)
    {
      handle := Some(i);
      sent := sent + [if objects[i].cov == NeedToCancelProperty then CancelProperty(i) else CancelObject(i)];
      objects[i] := objects[i].(cov := if stage == CancelAndResubscribe then NeedToSub else SupportSub);
    }

    method CancelIfNeed(kind: SubType)
      requires Valid()
      modifies this, objects
      ensures State() == CovPass.CancelIfNeed(old(State()), kind) && Valid()
    {
      var i := Resume();
      ghost var from := i;
      while i < objects.Length && !ToCancel(objects[i])
        invariant from <= i <= objects.Length
        invariant forall j :: from <= j < i ==> !ToCancel(objects[j])
      {
        i := i + 1;
      }
      FirstIs(objects[..], from, ToCancel, i);
      if i < objects.Length {
        SendCancel(i);
      } else if stage == CancelAndResubscribe {
        handle := None;
        stage := SubscribeAll;
        SubscribeIfNeed(kind);
      } else {
        GoToMainLoop();
      }
    }

    /** `my_subscribe_simple_ack_handler` while a pass is under way. */
    method OnAck(kind: SubType)
      requires Valid() && InPass() && (stage == SubscribeAll ==> handle.Some?)
      modifies this, objects
      ensures State() == OnReply(old(State()), kind, Ack) && Valid()
    {
      if stage == SubscribeAll {
        objects[handle.value] := objects[handle.value].(cov := Subscribed);
        SubscribeIfNeed(kind);
      } else {
        CancelIfNeed(kind);
      }
    }

    /** The object remembers the kind it turned down, and is given up once it has turned down both. */
    method NoteRefusal(i: nat, kind: SubType)
      requires i < objects.Length
      modifies objects
      ensures objects[..] == old(objects[..])[i := Refused(old(objects[i]), kind)]
    {
      var o := objects[i];
      if kind == SubscribeProperty || kind == SubscribePropertyWithIncrement {
        if o.unSupport == UnSupportSubObject {
          objects[i] := o.(cov := UnSupportSub);
        } else {
          objects[i] := o.(cov := SupportSub, unSupport := UnSupportSubProperty);
        }
      } else if kind == SubscribeObject {
        if o.unSupport == UnSupportSubProperty {
          objects[i] := o.(cov := UnSupportSub);
        } else {
          objects[i] := o.(cov := SupportSub, unSupport := UnSupportSubObject);
        }
      }
    }

    /** `handle_for_unexpected` while a pass is under way: an error, an abort, a reject or a timeout. */
    method OnFailure(kind: SubType)
      requires Valid() && InPass()
      modifies this, objects
      ensures State() == OnReply(old(State()), kind, Failure) && Valid()
    {
      if stage == SubscribeAll {
        if handle.Some? {
          NoteRefusal(handle.value, kind);
        }
        SubscribeIfNeed(kind);
      } else {
        CancelIfNeed(kind);
      }
    }

    /** The worker's marking loop for one device, and the call that starts the pass. */
    method Reconfigure(kind: SubType, change: C.Change)
      requires Valid() && stage != ReadObjectList
      modifies this, objects
      ensures State() == CovPass.CancelIfNeed(C.StartPass(old(State()), kind, change), kind) && Valid()
    {
      handle, disable, sendNext := None, true, false;
      var i := 0;
      while i < objects.Length
        invariant 0 <= i <= objects.Length
        invariant forall j :: 0 <= j < i ==> objects[j] == C.MarkObject(old(objects[..])[j], change)
        invariant forall j :: i <= j < objects.Length ==> objects[j] == old(objects[..])[j]
        invariant handle == None && disable && !sendNext && sent == old(sent)
      {
        if objects[i].cov != UnSupportSub {
          if change.TypeChanged? {
            if change.cancelType == C.CancelTypeObject {
              objects[i] := objects[i].(cov := NeedToCancelObject);
            } else if change.cancelType == C.CancelTypeProperty {
              objects[i] := objects[i].(cov := NeedToCancelProperty);
            } else {
              objects[i] := objects[i].(cov := NeedToSub);
            }
          } else if objects[i].analog {
            objects[i] := objects[i].(cov := NeedToCancelProperty);
          }
        }
        i := i + 1;
      }
      assert objects[..] == C.Marked(old(objects[..]), change);
      stage := if kind == NoSubscribe then CancelOnly else CancelAndResubscribe;
      CancelIfNeed(kind);
    }
  }
}
