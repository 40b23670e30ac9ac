/** What a restart keeps: the bindings that have not expired, and the lines of the address file. */
module AddressRestart {
  import opened Wrappers
  import opened AddressTable

  /** The slot found for the device holds a binding, and one whose time is not up. */
  predicate Unexpired(s: Table, id: nat) {
    Find(s, id) < |s| && !s[Find(s, id)].bindReq && s[Find(s, id)].ttl != 0
  }

  lemma {:induction false} SweepKeepsInv(s: Table)
    requires Inv(s)
    ensures Inv(InitPartial(s, []))
  {
    InitPartialKeeps(s, []);
  }

  /** Without an address file a partial restart keeps exactly the unexpired bindings, each in its slot with its time
      and its static mark, and has no slot for any other device. */
  lemma {:induction false} InitPartialExactly(s: Table, id: nat)
    requires Inv(s)
    ensures var t, i := InitPartial(s, []), Find(s, id);
            && |t| == |s|
            && (Unexpired(s, id) ==> Find(t, id) == i && t[i] == s[i] && Lookup(t, id) == Lookup(s, id))
            && (!Unexpired(s, id) ==> Find(t, id) == |t| && Lookup(t, id) == None)
  {
    var t, i := InitPartial(s, []), Find(s, id);
    SweepKeepsInv(s);
    forall j | 0 <= j < |t| && IsFor(t[j], id) ensures j == i && Unexpired(s, id) {
      assert IsFor(s[j], id);
      FindOnly(s, id, j);
    }
    if Unexpired(s, id) {
      assert t[i] == s[i];
      FindOnly(t, id, i);
    }
  }

  /** A full restart forgets every device. */
  lemma {:induction false} InitForgets(s: Table, id: nat)
    requires forall i :: 0 <= i < |s| ==> s[i].ttl <= FOREVER
    ensures |Init(s, [])| == |s| && Find(Init(s, []), id) == |s|
  {}

  // ---- the lines of the file ----

  /** The device does not stand in any of these lines. */
  predicate Unlisted(lines: seq<Listed>, id: nat) {
    forall l :: l in lines ==> l.id != id
  }

  /** Some line takes over the slot of the device. */
  ghost predicate GivenUp(s: Table, lines: seq<Listed>, id: nat)
    decreases |lines|
  {
    lines != [] && (Evicts(s, lines[0].id, id) || GivenUp(LoadOne(s, lines[0]), lines[1..], id))
  }

  /** What one line does: its device is static at the line's address unless there is no slot for it, and no other
      binding changes but that of the one device whose slot it takes. */
  lemma {:induction false} LineLoads(s: Table, l: Listed, id: nat)
    requires Inv(s)
    ensures var t := LoadOne(s, l);
            && Inv(t) && |t| == |s|
            && (id == l.id ==> if Full(s, id) then t == s
                               else IsStaticFor(t, id) && Lookup(t, id) == Some(Binding(l.address, l.maxApdu)))
            && (id != l.id && !Evicts(s, l.id, id) ==> Lookup(t, id) == Lookup(s, id))
            && (id != l.id && Evicts(s, l.id, id) ==> Lookup(t, id) == None)
  {
    var a := Add(s, l.id, l.maxApdu, l.address);
    AddRefines(s, l.id, l.maxApdu, l.address);
    SetTtlRefines(a, l.id, 0, true);
    if id == l.id {
      if !Full(s, id) { ListedIsStatic(s, l); } else { FullHasNone(s, id); }
    } else if Evicts(s, l.id, id) {
      assert Lookup(a, id) == None;
    }
  }

  lemma {:induction false} FullHasNone(s: Table, id: nat)
    requires Full(s, id)
    ensures Find(s, id) == |s| && Lookup(s, id) == None
  {}

  /** A device in no line keeps its binding exactly as long as no line takes its slot. */
  lemma {:induction false} UnlistedKept(s: Table, lines: seq<Listed>, id: nat)
    requires Inv(s) && Unlisted(lines, id)
    ensures Lookup(Load(s, lines), id) == if GivenUp(s, lines, id) then None else Lookup(s, id)
    decreases |lines|
  {
    if lines != [] {
      assert lines[0] in lines && forall l :: l in lines[1..] ==> l in lines;
      LineLoads(s, lines[0], id);
      UnlistedKept(LoadOne(s, lines[0]), lines[1..], id);
    }
  }

  /** A static entry stays where it is under the lines of other devices. */
  lemma {:induction false} StaticKept(s: Table, lines: seq<Listed>, id: nat)
    requires Inv(s) && IsStaticFor(s, id) && Unlisted(lines, id)
    ensures IsStaticFor(Load(s, lines), id) && Lookup(Load(s, lines), id) == Lookup(s, id)
    decreases |lines|
  {
    if lines != [] {
      assert lines[0] in lines && forall l :: l in lines[1..] ==> l in lines;
      var l := lines[0];
      NeverEvicted(s, l.id, id);
      LineLoads(s, l, id);
      AddKeepsStatic(s, id, l.id, l.maxApdu, l.address);
      MarkKeepsStatic(Add(s, l.id, l.maxApdu, l.address), id, l.id);
      StaticKept(LoadOne(s, l), lines[1..], id);
    }
  }

  lemma {:induction false} NeverEvicted(s: Table, other: nat, id: nat)
    requires Inv(s) && IsStaticFor(s, id)
    ensures !Evicts(s, other, id)
  {
    if Evicts(s, other, id) {
      VictimChoice(s);
      FindOnly(s, id, Victim(s).value);
    }
  }

  lemma {:induction false} LoadConcat(s: Table, a: seq<Listed>, b: seq<Listed>)
    ensures Load(s, a + b) == Load(Load(s, a), b)
    decreases |a|
  {
    if a == [] {
      assert a + b == b;
    } else {
      assert (a + b)[1..] == a[1..] + b;
      LoadConcat(LoadOne(s, a[0]), a[1..], b);
    }
  }

  /** A listed device is afterwards static at the address of its last line, unless every slot was taken for good when
      that line was read; then it is not found at all. */
  lemma {:induction false} LastLineCounts(s: Table, before: seq<Listed>, l: Listed, after: seq<Listed>)
    requires Inv(s) && Unlisted(after, l.id)
    ensures var t := Load(s, before + [l] + after);
            if Full(Load(s, before), l.id) then Lookup(t, l.id) == None
            else IsStaticFor(t, l.id) && Lookup(t, l.id) == Some(Binding(l.address, l.maxApdu))
  {
    var u := Load(s, before);
    LoadKeeps(s, before);
    LoadConcat(s, before, [l]);
    LoadConcat(s, before + [l], after);
    LoadNext(u, l);
    LineLoads(u, l, l.id);
    if Full(u, l.id) {
      FullHasNone(u, l.id);
      FullTakesNone(u, after, l.id);
    } else {
      StaticKept(LoadOne(u, l), after, l.id);
    }
  }

  lemma {:induction false} LoadNext(u: Table, l: Listed)
    ensures Load(u, [l]) == LoadOne(u, l)
  {
    assert [l][1..] == [];
    assert Load(LoadOne(u, l), []) == LoadOne(u, l);
  }

  lemma {:induction false} FullTakesNone(s: Table, lines: seq<Listed>, id: nat)
    requires Inv(s) && Lookup(s, id) == None && Unlisted(lines, id)
    ensures Lookup(Load(s, lines), id) == None
  {
    UnlistedKept(s, lines, id);
  }

  /** A partial restart with an address file, for a device in none of its lines. */
  lemma {:induction false} RestartKeepsUnlisted(s: Table, lines: seq<Listed>, id: nat)
    requires Inv(s) && Unlisted(lines, id)
    ensures Lookup(InitPartial(s, lines), id)
            == if Unexpired(s, id) && !GivenUp(InitPartial(s, []), lines, id) then Lookup(s, id) else None
  {
    var u := InitPartial(s, []);
    SweepKeepsInv(s);
    InitPartialExactly(s, id);
    UnlistedKept(u, lines, id);
  }

  /** And for one that is listed, whatever was known of it before. */
  lemma {:induction false} RestartLoadsListed(s: Table, before: seq<Listed>, l: Listed, after: seq<Listed>)
    requires Inv(s) && Unlisted(after, l.id)
    ensures var t := InitPartial(s, before + [l] + after);
            if Full(Load(InitPartial(s, []), before), l.id) then Lookup(t, l.id) == None
            else IsStaticFor(t, l.id) && Lookup(t, l.id) == Some(Binding(l.address, l.maxApdu))
  {
    SweepKeepsInv(s);
    LastLineCounts(InitPartial(s, []), before, l, after);
  }

  // ---- time to live ----

  /** What an operation leaves in the slot of the device. */
  ghost predicate Stands(t: Table, id: nat, ttl: nat, isStatic: bool) {
    Find(t, id) < |t| && t[Find(t, id)].ttl == ttl && t[Find(t, id)].isStatic == isStatic && !t[Find(t, id)].bindReq
  }

  lemma {:induction false} FoundAfter(s: Table, id: nat, i: nat, e: Entry)
    requires Inv(s) && i < |s| && IsFor(e, id) && (Find(s, id) == i || Find(s, id) == |s|)
    ensures Find(s[i := e], id) == i
  {
    var t := s[i := e];
    forall j | 0 <= j < |t| && IsFor(t[j], id) ensures j == i {
      if j != i { FindOnly(s, id, j); }
    }
    assert IsFor(t[i], id);
  }

  /** An address that is added stays for an hour if its device is new, for a day if it was known or awaited, and for
      ever if it was static, which it remains. */
  lemma {:induction false} AddTimes(s: Table, id: nat, maxApdu: nat, address: Address)
    requires Inv(s) && !Full(s, id)
    ensures var t, i := Add(s, id, maxApdu, address), Find(s, id);
            if i == |s| then Stands(t, id, 3600, false)
            else if s[i].isStatic then Stands(t, id, 0xFFFF_FFFF, true)
            else Stands(t, id, 86400, false)
  {
    var i, f := Find(s, id), First(s, Unused);
    if i < |s| {
      FoundAfter(s, id, i, Add(s, id, maxApdu, address)[i]);
    } else if f < |s| {
      FoundAfter(s, id, f, Add(s, id, maxApdu, address)[f]);
    } else {
      VictimOrFull(s, id);
      var v := Victim(s).value;
      FoundAfter(s, id, v, Add(s, id, maxApdu, address)[v]);
    }
  }

  /** In any table, whatever its flags: what a renewal writes to the slot of a known device. */
  lemma {:induction false} RenewalTimes(s: Table, id: nat, maxApdu: nat, address: Address)
    requires Find(s, id) < |s|
    ensures var i := Find(s, id);
            var e, r := s[i], Add(s, id, maxApdu, address)[i];
            && |Add(s, id, maxApdu, address)| == |s|
            && r.address == address && r.maxApdu == maxApdu && !r.bindReq && r.inUse && r.device == id
            && r.isStatic == e.isStatic && r.shortTtl == e.shortTtl && r.reserved == e.reserved
            && r.ttl == (if !e.bindReq && e.isStatic then 0xFFFF_FFFF
                         else if !e.bindReq && e.shortTtl then 3600
                         else 86400)
  {}

  /** In any table: a request for a bound device with a short time gives it a day; it changes no other known one. */
  lemma {:induction false} RequestTimes(s: Table, id: nat)
    requires Find(s, id) < |s|
    ensures var t, i := BindRequest(s, id), Find(s, id);
            if s[i].shortTtl && !s[i].bindReq then t == s[i := s[i].(shortTtl := false, ttl := 86400)] else t == s
  {}

  /** A device that is looked for waits an hour for its address; one that has a slot is left as it is. */
  lemma {:induction false} BindTimes(s: Table, id: nat)
    requires Inv(s) && !Full(s, id)
    ensures var t := BindRequest(s, id);
            if Find(s, id) < |s| then t == s
            else Find(t, id) < |t| && t[Find(t, id)].bindReq && t[Find(t, id)].ttl == 3600
  {
    BindRequestRefines(s, id);
    var f := First(s, Unused);
    assert First(s, Vacant) == f;
    if Find(s, id) == |s| {
      if f == |s| { VictimOrFull(s, id); }
      var i := if f < |s| then f else Victim(s).value;
      FoundAfter(s, id, i, BindRequest(s, id)[i]);
    }
  }

  /** A binding that is recorded lasts a day, or for ever on a static entry. */
  lemma {:induction false} AddBindingTimes(s: Table, id: nat, maxApdu: nat, address: Address)
    requires Inv(s) && Find(s, id) < |s|
    ensures var t, i := AddBinding(s, id, maxApdu, address), Find(s, id);
            Stands(t, id, if s[i].isStatic then 0xFFFF_FFFF else 86400, s[i].isStatic)
  {
    FoundAfter(s, id, Find(s, id), AddBinding(s, id, maxApdu, address)[Find(s, id)]);
  }

  /** A bound entry becomes static for ever, or stays for the time given; one that is awaited only gets the time. */
  lemma {:induction false} SetTtlTimes(s: Table, id: nat, timeOut: nat, isStatic: bool)
    requires Inv(s) && Find(s, id) < |s|
    ensures var t, i := SetTtl(s, id, timeOut, isStatic), Find(s, id);
            if s[i].bindReq then t == s[i := s[i].(ttl := timeOut)]
            else Stands(t, id, if isStatic then 0xFFFF_FFFF else timeOut, isStatic)
  {
    FoundAfter(s, id, Find(s, id), SetTtl(s, id, timeOut, isStatic)[Find(s, id)]);
  }
}
