/** The address cache as the code runs it: loops over a static array of slots. */
module AddressCache {
  import opened Wrappers
  import opened AddressTable

  class Cache {
    const slots: array<Entry>

    /** The static array before anything has run: all flags clear. */
    constructor (initial: seq<Entry>)
      requires |initial| == SLOTS
      ensures fresh(slots) && slots[..] == initial
    {
      slots := new Entry[SLOTS](i requires 0 <= i < SLOTS => initial[i]);
      new;
      assert slots[..] == initial;
    }

    method FindDevice(id: nat) returns (i: nat)
      ensures i == Find(slots[..], id)
    {
      i := 0;
      while i < slots.Length && !IsFor(slots[i], id)
        invariant 0 <= i <= slots.Length
        invariant forall j :: 0 <= j < i ==> !IsFor(slots[j], id)
      {
        i := i + 1;
      }
      FirstIs(slots[..], e => IsFor(e, id), i);
    }

    method FindUnused() returns (i: nat)
      ensures i == First(slots[..], Unused)
    {
      i := 0;
      while i < slots.Length && slots[i].inUse
        invariant 0 <= i <= slots.Length
        invariant forall j :: 0 <= j < i ==> slots[j].inUse
      {
        i := i + 1;
      }
      FirstIs(slots[..], Unused, i);
    }

    method FindVacant() returns (i: nat)
      ensures i == First(slots[..], Vacant)
    {
      i := 0;
      while i < slots.Length && !Vacant(slots[i])
        invariant 0 <= i <= slots.Length
        invariant forall j :: 0 <= j < i ==> !Vacant(slots[j])
      {
        i := i + 1;
      }
      FirstIs(slots[..], Vacant, i);
    }

    /** One pass of `address_remove_oldest`. */
    method OldestOf(p: Entry -> bool) returns (candidate: Option<nat>)
      ensures candidate == Oldest(slots[..], p, slots.Length)
    {
      candidate := None;
      var time := FOREVER - 1;
      var i := 0;
      while i < slots.Length
        invariant 0 <= i <= slots.Length
        invariant candidate == Oldest(slots[..], p, i)
        invariant time == if candidate.Some? then slots[candidate.value].ttl else FOREVER - 1
      {
        if p(slots[i]) && slots[i].ttl <= time {
          time := slots[i].ttl;
          candidate := Some(i);
        }
        i := i + 1;
      }
    }

    /** `address_remove_oldest`: the slot it frees is left reserved for the caller. */
    method RemoveOldest() returns (victim: Option<nat>)
      modifies slots
      ensures victim == Victim(old(slots[..]))
      ensures victim == None ==> slots[..] == old(slots[..])
      ensures victim.Some? ==> victim.value < slots.Length
      ensures victim.Some? ==>
                slots[..] == old(slots[..])[victim.value :=
                               Clear(old(slots[victim.value])).(reserved := true, ttl := SHORT_TIME)]
    {
      victim := OldestOf(Bound);
      if victim == None {
        victim := OldestOf(Pending);
      }
      if victim.Some? {
        slots[victim.value] := Clear(slots[victim.value]).(reserved := true, ttl := SHORT_TIME);
      }
    }

    method AddressAdd(id: nat, maxApdu: nat, address: Address)
      modifies slots
      ensures slots[..] == Add(old(slots[..]), id, maxApdu, address)
    {
      var i := FindDevice(id);
      if i < slots.Length {
        slots[i] := Renewed(slots[i], maxApdu, address);
        return;
      }
      i := FindUnused();
      if i < slots.Length {
        slots[i] := Fresh(slots[i], id, maxApdu, address);
        return;
      }
      var v := RemoveOldest();
      if v.Some? {
        slots[v.value] := Fresh(slots[v.value], id, maxApdu, address);
      }
    }

    method AddressBindRequest(id: nat) returns (bound: Option<Binding>)
      modifies slots
      ensures slots[..] == BindRequest(old(slots[..]), id)
      ensures bound == Lookup(old(slots[..]), id)
    {
      bound := None;
      var i := FindDevice(id);
      if i < slots.Length {
        if !slots[i].bindReq {
          bound := Some(Binding(slots[i].address, slots[i].maxApdu));
          if slots[i].shortTtl {
            slots[i] := slots[i].(shortTtl := false, ttl := LONG_TIME);
          }
        }
        return;
      }
      i := FindVacant();
      if i < slots.Length {
        slots[i] := Awaiting(slots[i], id);
        return;
      }
      var v := RemoveOldest();
      if v.Some? {
        slots[v.value] := Awaiting(slots[v.value], id);
      }
    }

    method AddressAddBinding(id: nat, maxApdu: nat, address: Address)
      modifies slots
      ensures slots[..] == AddBinding(old(slots[..]), id, maxApdu, address)
    {
      var i := FindDevice(id);
      if i < slots.Length {
        slots[i] := slots[i].(address := address, maxApdu := maxApdu, bindReq := false);
        if !slots[i].isStatic {
          slots[i] := slots[i].(ttl := LONG_TIME);
        }
      }
    }

    method AddressSetDeviceTtl(id: nat, timeOut: nat, isStatic: bool)
      modifies slots
      ensures slots[..] == SetTtl(old(slots[..]), id, timeOut, isStatic)
    {
      var i := FindDevice(id);
      if i < slots.Length {
        if !slots[i].bindReq {
          if isStatic {
            slots[i] := slots[i].(isStatic := true, ttl := FOREVER);
          } else {
            slots[i] := slots[i].(isStatic := false, ttl := timeOut);
          }
        } else {
          slots[i] := slots[i].(ttl := timeOut);
        }
      }
    }

    method AddressRemoveDevice(id: nat)
      modifies slots
      ensures slots[..] == Remove(old(slots[..]), id)
    {
      var i := FindDevice(id);
      if i < slots.Length {
        slots[i] := Clear(slots[i]);
      }
    }

    method AddressGetByDevice(id: nat) returns (found: Option<Binding>)
      ensures found == Lookup(slots[..], id)
    {
      found := None;
      var i := FindDevice(id);
      if i < slots.Length && !slots[i].bindReq {
        found := Some(Binding(slots[i].address, slots[i].maxApdu));
      }
    }

    method AddressCacheTimer(seconds: nat)
      modifies slots
      ensures slots[..] == Timer(old(slots[..]), seconds)
    {
      var i := 0;
      while i < slots.Length
        invariant 0 <= i <= slots.Length
        invariant forall j :: 0 <= j < i ==> slots[j] == Ticked(old(slots[j]), seconds)
        invariant forall j :: i <= j < slots.Length ==> slots[j] == old(slots[j])
      {
        if (slots[i].inUse || slots[i].reserved) && !slots[i].isStatic {
          if slots[i].ttl >= seconds {
            slots[i] := slots[i].(ttl := slots[i].ttl - seconds);
          } else {
            slots[i] := Clear(slots[i]);
          }
        }
        i := i + 1;
      }
    }

    /** `address_file_init`, with the lines it can read. */
    method AddressFileInit(lines: seq<Listed>)
      modifies slots
      ensures slots[..] == Load(old(slots[..]), lines)
    {
      var rest := lines;
      while rest != []
        invariant Load(slots[..], rest) == Load(old(slots[..]), lines)
        decreases |rest|
      {
        AddressAdd(rest[0].id, rest[0].maxApdu, rest[0].address);
        AddressSetDeviceTtl(rest[0].id, 0, true);
        rest := rest[1..];
      }
    }

    method AddressInit(lines: seq<Listed>)
      modifies slots
      ensures slots[..] == Init(old(slots[..]), lines)
    {
      var i := 0;
      while i < slots.Length
        invariant 0 <= i <= slots.Length
        invariant forall j :: 0 <= j < i ==> slots[j] == Clear(old(slots[j]))
        invariant forall j :: i <= j < slots.Length ==> slots[j] == old(slots[j])
      {
        slots[i] := Clear(slots[i]);
        i := i + 1;
      }
      assert slots[..] == ClearAll(old(slots[..]));
      AddressFileInit(lines);
    }

    method AddressInitPartial(lines: seq<Listed>)
      modifies slots
      ensures slots[..] == InitPartial(old(slots[..]), lines)
    {
      var i := 0;
      while i < slots.Length
        invariant 0 <= i <= slots.Length
        invariant forall j :: 0 <= j < i ==> slots[j] == Restarted(old(slots[j]))
        invariant forall j :: i <= j < slots.Length ==> slots[j] == old(slots[j])
      {
        if slots[i].inUse {
          if slots[i].bindReq || slots[i].ttl == 0 {
            slots[i] := Clear(slots[i]);
          }
        }
        if slots[i].reserved {
          slots[i] := Clear(slots[i]);
        }
        i := i + 1;
      }
      assert slots[..] == Restart(old(slots[..]));
      AddressFileInit(lines);
    }
  }

  lemma {:induction false} FirstIs(s: Table, p: Entry -> bool, i: nat)
    requires i <= |s| && (forall j :: 0 <= j < i ==> !p(s[j])) && (i < |s| ==> p(s[i]))
    ensures First(s, p) == i
  {}
}
