/** Which devices hold the 255 invoke IDs: the ones heard from last. */
module InvokeIds {
  import opened Wrappers

  const DEVICE_NUM_MAX := 255

  datatype Device = Device(instance: nat, invokeId: nat, lastIam: int)

  /** `slots[1..num]` are in use; slot 0 never is, and nothing is known of what lies beyond `num`. */
  datatype Table = Table(slots: seq<Option<Device>>, num: nat)

  /** What counts as hearing from a device: its I-Am, a COV notification that names it, or the
      acknowledgement of a read under its invoke ID. */
  datatype Event =
    | IAm(instance: nat, time: int)
    | Notify(instance: nat, time: int)
    | ReadAck(invokeId: nat, time: int)

  predicate Holds(t: Table, i: nat, instance: nat) {
    1 <= i <= t.num && i < |t.slots| && t.slots[i].Some? && t.slots[i].value.instance == instance
  }

  ghost predicate Known(t: Table, instance: nat) {
    exists i: nat :: Holds(t, i, instance)
  }

  /** Every slot in use is filled with a device that carries the slot's number, and no two are the same. */
  ghost predicate Sound(t: Table) {
    && |t.slots| == DEVICE_NUM_MAX + 1 && t.num <= DEVICE_NUM_MAX
    && (forall i :: 1 <= i <= t.num ==> t.slots[i].Some? && t.slots[i].value.invokeId == i)
    && (forall i, j :: 1 <= i < j <= t.num ==> t.slots[i].value.instance != t.slots[j].value.instance)
  }

  /** The slot `is_device_exist` stops at, or one past the last. */
  function IndexOf(t: Table, instance: nat, from: nat): (i: nat)
    requires t.num < |t.slots| && 1 <= from <= t.num + 1
    ensures from <= i <= t.num + 1
    ensures forall j :: from <= j < i ==> !Holds(t, j, instance)
    ensures i <= t.num ==> Holds(t, i, instance)
    decreases t.num + 1 - from
  {
    if from == t.num + 1 || Holds(t, from, instance) then from else IndexOf(t, instance, from + 1)
  }

  /** The slot `free_invoke_id` gives up among the first `n`: the least recently heard, the lowest on ties. */
  function Oldest(t: Table, n: nat): (r: nat)
    requires 1 <= n < |t.slots| && forall i :: 1 <= i <= n ==> t.slots[i].Some?
    ensures 1 <= r <= n
    ensures forall i :: 1 <= i <= n ==> t.slots[r].value.lastIam <= t.slots[i].value.lastIam
    ensures forall i :: 1 <= i < r ==> t.slots[r].value.lastIam < t.slots[i].value.lastIam
  {
    if n == 1 then 1
    else
      var c := Oldest(t, n - 1);
      if t.slots[n].value.lastIam < t.slots[c].value.lastIam then n else c
  }

  function Fill(t: Table, i: nat, m: Event): Table
    requires i < |t.slots| && m.IAm?
  {
    t.(slots := t.slots[i := Some(Device(m.instance, i, m.time))])
  }

  function Refresh(t: Table, i: nat, time: int): Table
    requires Sound(t) && 1 <= i <= t.num
  {
    t.(slots := t.slots[i := Some(t.slots[i].value.(lastIam := time))])
  }

  /** `my_iam_handler`, as far as the device table goes. */
  function Meet(t: Table, m: Event): Table
    requires Sound(t) && m.IAm?
  {
    var i := IndexOf(t, m.instance, 1);
    if i <= t.num then Refresh(t, i, m.time)
    else if t.num < DEVICE_NUM_MAX then Fill(t, t.num + 1, m).(num := t.num + 1)
    else Fill(t, Oldest(t, t.num), m)
  }

  /** Notifications and acknowledgements only refresh devices that are in the table. */
  function Hear(t: Table, m: Event): Table
    requires Sound(t)
  {
    match m
    case IAm(_, _) => Meet(t, m)
    case Notify(instance, time) =>
      var i := IndexOf(t, instance, 1);
      if i <= t.num then Refresh(t, i, time) else t
    case ReadAck(i, time) => if 1 <= i <= t.num then Refresh(t, i, time) else t
  }

  lemma {:induction false} MeetKeeps(t: Table, m: Event)
    requires Sound(t) && m.IAm?
    ensures Sound(Meet(t, m)) && Meet(t, m).num >= t.num
  {
    var i, u := IndexOf(t, m.instance, 1), Meet(t, m);
    if i > t.num {
      forall j | 1 <= j <= t.num ensures t.slots[j].value.instance != m.instance {
        assert !Holds(t, j, m.instance);
      }
    }
  }

  lemma {:induction false} RefreshKeeps(t: Table, i: nat, time: int)
    requires Sound(t) && 1 <= i <= t.num
    ensures var u := Refresh(t, i, time);
            Sound(u) && u.num == t.num && forall j: nat, d :: Holds(u, j, d) <==> Holds(t, j, d)
  {}

  lemma {:induction false} HearKeeps(t: Table, m: Event)
    requires Sound(t)
    ensures Sound(Hear(t, m)) && Hear(t, m).num >= t.num
  {
    if m.IAm? { MeetKeeps(t, m); }
  }

  ghost function Run(t: Table, events: seq<Event>): (r: Table)
    requires Sound(t)
    ensures Sound(r)
    decreases |events|
  {
    if events == [] then t
    else
      var last := |events| - 1;
      HearKeeps(Run(t, events[..last]), events[last]);
      Hear(Run(t, events[..last]), events[last])
  }

  // ---- what was heard, and when ----

  /** Every announcement counts, and whatever comes from a device that is in the table. */
  ghost function Remember(t: Table, heard: map<nat, int>, m: Event): map<nat, int>
    requires Sound(t)
  {
    match m
    case IAm(instance, time) => heard[instance := time]
    case Notify(instance, time) => if Known(t, instance) then heard[instance := time] else heard
    case ReadAck(i, time) =>
      if exists d: nat :: Holds(t, i, d) then heard[t.slots[i].value.instance := time] else heard
  }

  /** When each device was last heard from. */
  ghost function Heard(t: Table, events: seq<Event>): map<nat, int>
    requires Sound(t)
    decreases |events|
  {
    if events == [] then map[]
    else
      var last := |events| - 1;
      Remember(Run(t, events[..last]), Heard(t, events[..last]), events[last])
  }

  predicate InOrder(events: seq<Event>) {
    forall i, j :: 0 <= i < j < |events| ==> events[i].time <= events[j].time
  }

  /** The table remembers when it heard from each of its devices, and no device it has given up was heard
      from later than one it keeps; it gives none up before it is full. */
  ghost predicate LeastRecentlyHeard(t: Table, heard: map<nat, int>) {
    && Sound(t)
    && (forall i :: 1 <= i <= t.num ==>
          && t.slots[i].value.instance in heard && t.slots[i].value.lastIam == heard[t.slots[i].value.instance])
    && (forall d, i :: d in heard && !Known(t, d) && 1 <= i <= t.num ==> heard[d] <= t.slots[i].value.lastIam)
    && (t.num < DEVICE_NUM_MAX ==> forall d :: d in heard ==> Known(t, d))
  }

  lemma {:induction false} KnownAfter(t: Table, m: Event, d: nat)
    requires Sound(t) && m.IAm? && Known(t, d)
    ensures Known(Meet(t, m), d)
            || (t.num == DEVICE_NUM_MAX && !Known(t, m.instance) && t.slots[Oldest(t, t.num)].value.instance == d)
  {
    var u := Meet(t, m);
    var i: nat :| Holds(t, i, d);
    if !Holds(u, i, d) {
      assert i == Oldest(t, t.num);
    }
  }

  lemma {:induction false} NewlyKnown(t: Table, m: Event, heard: map<nat, int>)
    requires LeastRecentlyHeard(t, heard) && m.IAm?
    ensures Known(Meet(t, m), m.instance)
    ensures m.instance !in heard ==> !Known(t, m.instance)
  {
    var i := IndexOf(t, m.instance, 1);
    var u := Meet(t, m);
    if i <= t.num {
      assert Holds(u, i, m.instance);
    } else if t.num < DEVICE_NUM_MAX {
      assert Holds(u, t.num + 1, m.instance);
    } else {
      assert Holds(u, Oldest(t, t.num), m.instance);
    }
  }

  lemma {:induction false} GivenUpEarlier(t: Table, m: Event, heard: map<nat, int>, d: nat, i: nat)
    requires LeastRecentlyHeard(t, heard) && m.IAm? && forall e :: e in heard ==> heard[e] <= m.time
    requires d in heard && !Known(Meet(t, m), d) && 1 <= i <= Meet(t, m).num
    ensures heard[d] <= Meet(t, m).slots[i].value.lastIam
  {
    var u := Meet(t, m);
    if Known(t, d) {
      KnownAfter(t, m, d);
      assert t.slots[Oldest(t, t.num)].value.lastIam == heard[d];
    }
  }

  lemma {:induction false} TimesKept(t: Table, m: Event, heard: map<nat, int>, i: nat)
    requires LeastRecentlyHeard(t, heard) && m.IAm? && 1 <= i <= Meet(t, m).num
    ensures var e, after := Meet(t, m).slots[i].value, heard[m.instance := m.time];
            e.instance in after && e.lastIam == after[e.instance]
  {
    var at := IndexOf(t, m.instance, 1);
    if at > t.num && i <= t.num { assert !Holds(t, i, m.instance); }
  }

  lemma {:induction false} MeetIsLru(t: Table, m: Event, heard: map<nat, int>)
    requires LeastRecentlyHeard(t, heard) && m.IAm? && forall d :: d in heard ==> heard[d] <= m.time
    ensures LeastRecentlyHeard(Meet(t, m), heard[m.instance := m.time])
  {
    var u, after := Meet(t, m), heard[m.instance := m.time];
    MeetKeeps(t, m);
    NewlyKnown(t, m, heard);
    forall d | d in after && !Known(u, d) ensures u.num == DEVICE_NUM_MAX {
      if Known(t, d) { KnownAfter(t, m, d); }
    }
    forall i | 1 <= i <= u.num
      ensures u.slots[i].value.instance in after && u.slots[i].value.lastIam == after[u.slots[i].value.instance]
    {
      TimesKept(t, m, heard, i);
    }
    forall d, i | d in after && !Known(u, d) && 1 <= i <= u.num ensures after[d] <= u.slots[i].value.lastIam {
      GivenUpEarlier(t, m, heard, d, i);
    }
  }

  lemma {:induction false} RefreshIsLru(t: Table, i: nat, time: int, heard: map<nat, int>)
    requires LeastRecentlyHeard(t, heard) && 1 <= i <= t.num && forall d :: d in heard ==> heard[d] <= time
    ensures LeastRecentlyHeard(Refresh(t, i, time), heard[t.slots[i].value.instance := time])
  {
    var u := Refresh(t, i, time);
    RefreshKeeps(t, i, time);
    assert Holds(t, i, t.slots[i].value.instance);
    forall d | Known(t, d) ensures Known(u, d) {
      var j: nat :| Holds(t, j, d);
      assert Holds(u, j, d);
    }
  }

  lemma {:induction false} HearIsLru(t: Table, m: Event, heard: map<nat, int>)
    requires LeastRecentlyHeard(t, heard) && forall d :: d in heard ==> heard[d] <= m.time
    ensures Sound(Hear(t, m)) && LeastRecentlyHeard(Hear(t, m), Remember(t, heard, m))
  {
    match m
    case IAm(_, _) => MeetIsLru(t, m, heard);
    case Notify(instance, time) =>
      var i := IndexOf(t, instance, 1);
      if i <= t.num { RefreshIsLru(t, i, time, heard); }
    case ReadAck(i, time) =>
      if 1 <= i <= t.num {
        assert Holds(t, i, t.slots[i].value.instance);
        RefreshIsLru(t, i, time, heard);
      }
  }

  lemma {:induction false} HeardBefore(t: Table, events: seq<Event>, time: int)
    requires Sound(t) && forall m :: m in events ==> m.time <= time
    ensures forall d :: d in Heard(t, events) ==> Heard(t, events)[d] <= time
    decreases |events|
  {
    if events != [] {
      var last := |events| - 1;
      assert events[last] in events && forall m :: m in events[..last] ==> m in events;
      HeardBefore(t, events[..last], time);
    }
  }

  /** After any events, in the order of the clock, the table holds a device for every one that announced
      itself, up to 255, and those it holds are the ones heard from most recently. */
  lemma {:induction false} RunIsLru(empty: Table, events: seq<Event>)
    requires |empty.slots| == DEVICE_NUM_MAX + 1 && empty.num == 0 && InOrder(events)
    ensures LeastRecentlyHeard(Run(empty, events), Heard(empty, events))
    decreases |events|
  {
    if events != [] {
      var last := |events| - 1;
      RunIsLru(empty, events[..last]);
      HeardBefore(empty, events[..last], events[last].time);
      HearIsLru(Run(empty, events[..last]), events[last], Heard(empty, events[..last]));
    }
  }

  /** The slots in use are as many as the devices heard of, or 255 if there were more. */
  lemma {:induction false} SlotsInUse(t: Table, heard: map<nat, int>)
    requires LeastRecentlyHeard(t, heard)
    ensures t.num == if |heard| < 255 then |heard| else 255
  {
    var kept := KeptBy(t, t.num);
    assert kept <= heard.Keys;
    SmallerSet(kept, heard.Keys);
    if t.num < DEVICE_NUM_MAX {
      forall d | d in heard ensures d in kept {
        var i: nat :| Holds(t, i, d);
      }
      assert kept == heard.Keys;
    }
  }

  lemma {:induction false} SmallerSet<T>(a: set<T>, b: set<T>)
    requires a <= b
    ensures |a| <= |b|
  {
    assert b == a + (b - a);
  }

  ghost function KeptBy(t: Table, n: nat): (r: set<nat>)
    requires Sound(t) && n <= t.num
    ensures |r| == n
    ensures forall d :: d in r <==> exists i: nat :: 1 <= i <= n && Holds(t, i, d)
  {
    if n == 0 then {}
    else
      assert Holds(t, n, t.slots[n].value.instance);
      KeptBy(t, n - 1) + {t.slots[n].value.instance}
  }

  class DeviceTable {
    const slots: array<Option<Device>>
    var num: nat

    ghost function State(): Table
      reads this, slots
    {
      Table(slots[..], num)
    }

    /** The header array is allocated and not cleared. */
    constructor (garbage: seq<Option<Device>>)
      requires |garbage| == DEVICE_NUM_MAX + 1
      ensures fresh(slots) && State() == Table(garbage, 0) && Sound(State())
    {
      slots := new Option<Device>[DEVICE_NUM_MAX + 1](i requires 0 <= i < |garbage| => garbage[i]);
      num := 0;
      new;
      assert slots[..] == garbage;
    }

    method IsDeviceExist(instance: nat) returns (i: nat)
      requires Sound(State())
      ensures i == IndexOf(State(), instance, 1)
    {
      i := 1;
      while i <= num && !(slots[i].Some? && slots[i].value.instance == instance)
        invariant 1 <= i <= num + 1
        invariant IndexOf(State(), instance, 1) == IndexOf(State(), instance, i)
      {
        i := i + 1;
      }
    }

    method FreeInvokeId() returns (index: nat)
      requires Sound(State()) && num > 0
      modifies slots
      ensures index == old(Oldest(State(), num))
      ensures slots[..] == old(slots[..])[index := None]
    {
      index := 1;
      var lastIamTime := slots[1].value.lastIam;
      var i := 2;
      while i <= num
        invariant 2 <= i <= num + 1
        invariant 1 <= index < i && index == Oldest(State(), i - 1) && lastIamTime == slots[index].value.lastIam
      {
        if slots[i].value.lastIam < lastIamTime {
          lastIamTime := slots[i].value.lastIam;
          index := i;
        }
        i := i + 1;
      }
      slots[index] := None;
    }

    method GetInvokeId() returns (id: nat)
      requires Sound(State())
      modifies this, slots
      ensures old(num) < DEVICE_NUM_MAX ==> id == old(num) + 1 == num && slots[..] == old(slots[..])
      ensures old(num) == DEVICE_NUM_MAX ==> id == old(Oldest(State(), num)) && num == old(num)
      ensures old(num) == DEVICE_NUM_MAX ==> slots[..] == old(slots[..])[id := None]
    {
      if num < DEVICE_NUM_MAX {
        num := num + 1;
        id := num;
      } else {
        id := FreeInvokeId();
      }
    }

    /** `my_iam_handler` */
    method OnIAm(m: Event)
      requires Sound(State()) && m.IAm?
      modifies this, slots
      ensures State() == Hear(old(State()), m) && Sound(State())
    {
      MeetKeeps(State(), m);
      var i := IsDeviceExist(m.instance);
      if i <= num {
        slots[i] := Some(slots[i].value.(lastIam := m.time));
      } else {
        var id := GetInvokeId();
        slots[id] := Some(Device(m.instance, id, m.time));
      }
    }

    /** `my_unconfirmed_cov_notification_handler`, as far as the device table goes. */
    method OnNotification(m: Event)
      requires Sound(State()) && m.Notify?
      modifies slots
      ensures State() == Hear(old(State()), m) && Sound(State())
    {
      HearKeeps(State(), m);
      var i := IsDeviceExist(m.instance);
      if i <= num {
        slots[i] := Some(slots[i].value.(lastIam := m.time));
      }
    }

    /** `my_read_property_multiple_ack_handler`, under an invoke ID that was handed out. */
    method OnReadAck(m: Event)
      requires Sound(State()) && m.ReadAck?
      modifies slots
      ensures State() == Hear(old(State()), m) && Sound(State())
    {
      HearKeeps(State(), m);
      if 1 <= m.invokeId <= num {
        slots[m.invokeId] := Some(slots[m.invokeId].value.(lastIam := m.time));
      }
    }
  }
}
