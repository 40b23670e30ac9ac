/** The BACnet address cache as a function of its slots. */
module AddressTable {
  import opened Wrappers

  datatype Address = Address(net: nat, mac: seq<nat>, adr: seq<nat>)

  /** The five flag bits of a slot are kept apart; all false is the value 0. */
  datatype Entry = Entry(inUse: bool, bindReq: bool, isStatic: bool, shortTtl: bool, reserved: bool,
                         device: nat, maxApdu: nat, address: Address, ttl: nat)

  const SLOTS := 255
  const SHORT_TIME := 3600
  const LONG_TIME := 86400
  const FOREVER := 0xFFFF_FFFF

  type Table = seq<Entry>

  predicate Bound(e: Entry) { e.inUse && !e.bindReq && !e.isStatic }

  predicate Pending(e: Entry) { e.inUse && e.bindReq && !e.isStatic }

  predicate Unused(e: Entry) { !e.inUse }

  predicate Vacant(e: Entry) { !e.inUse && !e.reserved }

  predicate IsFor(e: Entry, id: nat) { e.inUse && e.device == id }

  function Clear(e: Entry): Entry {
    e.(inUse := false, bindReq := false, isStatic := false, shortTtl := false, reserved := false)
  }

  /** The first slot from the start that satisfies `p`, or the length of the table. */
  function First(s: Table, p: Entry -> bool): (r: nat)
    ensures r <= |s|
    ensures forall j :: 0 <= j < r ==> !p(s[j])
    ensures r < |s| ==> p(s[r])
  {
    if s == [] || p(s[0]) then 0 else 1 + First(s[1..], p)
  }

  function Find(s: Table, id: nat): (r: nat)
    ensures r <= |s|
    ensures forall j :: 0 <= j < r ==> !IsFor(s[j], id)
    ensures r < |s| ==> IsFor(s[r], id)
  {
    First(s, e => IsFor(e, id))
  }

  /** One pass of `address_remove_oldest` over the first `n` slots: the last slot with the least time to
      live, among those that can expire. */
  function Oldest(s: Table, p: Entry -> bool, n: nat): (r: Option<nat>)
    requires n <= |s|
    ensures r == None <==> forall j :: 0 <= j < n && p(s[j]) ==> s[j].ttl >= FOREVER
    ensures r.Some? ==>
              && r.value < n && p(s[r.value]) && s[r.value].ttl < FOREVER
              && (forall j :: 0 <= j < n && p(s[j]) ==> s[r.value].ttl <= s[j].ttl)
              && (forall j :: r.value < j < n && p(s[j]) ==> s[r.value].ttl < s[j].ttl)
  {
    if n == 0 then None
    else
      var c := Oldest(s, p, n - 1);
      if p(s[n - 1]) && s[n - 1].ttl <= (if c.Some? then s[c.value].ttl else FOREVER - 1) then Some(n - 1) else c
  }

  /** `address_remove_oldest`: bound entries first, pending ones as a last resort. */
  function Victim(s: Table): Option<nat> {
    var bound := Oldest(s, Bound, |s|);
    if bound.Some? then bound else Oldest(s, Pending, |s|)
  }

  function Fresh(e: Entry, id: nat, maxApdu: nat, address: Address): Entry {
    Clear(e).(inUse := true, device := id, maxApdu := maxApdu, address := address, ttl := SHORT_TIME)
  }

  function Renewed(e: Entry, maxApdu: nat, address: Address): Entry {
    var ttl := if e.bindReq then LONG_TIME
               else if e.isStatic then FOREVER
               else if e.shortTtl then SHORT_TIME
               else LONG_TIME;
    e.(address := address, maxApdu := maxApdu, ttl := ttl, bindReq := false)
  }

  /** `address_add` */
  function Add(s: Table, id: nat, maxApdu: nat, address: Address): Table {
    var i := Find(s, id);
    if i < |s| then s[i := Renewed(s[i], maxApdu, address)]
    else
      var f := First(s, Unused);
      if f < |s| then s[f := Fresh(s[f], id, maxApdu, address)]
      else
        var v := Victim(s);
        if v.Some? then s[v.value := Fresh(s[v.value], id, maxApdu, address)] else s
  }

  function Awaiting(e: Entry, id: nat): Entry {
    Clear(e).(inUse := true, bindReq := true, device := id, ttl := SHORT_TIME)
  }

  /** `address_bind_request`: the table after it; it reports a binding exactly when `Lookup` has one. */
  function BindRequest(s: Table, id: nat): Table {
    var i := Find(s, id);
    if i < |s| then
      if !s[i].bindReq && s[i].shortTtl then s[i := s[i].(shortTtl := false, ttl := LONG_TIME)] else s
    else
      var f := First(s, Vacant);
      if f < |s| then s[f := Awaiting(s[f], id)]
      else
        var v := Victim(s);
        if v.Some? then s[v.value := Awaiting(s[v.value], id)] else s
  }

  /** `address_add_binding` */
  function AddBinding(s: Table, id: nat, maxApdu: nat, address: Address): Table {
    var i := Find(s, id);
    if i < |s| then
      var e := s[i].(address := address, maxApdu := maxApdu, bindReq := false);
      s[i := if e.isStatic then e else e.(ttl := LONG_TIME)]
    else s
  }

  /** `address_set_device_TTL` */
  function SetTtl(s: Table, id: nat, timeOut: nat, isStatic: bool): Table {
    var i := Find(s, id);
    if i == |s| then s
    else if s[i].bindReq then s[i := s[i].(ttl := timeOut)]
    else if isStatic then s[i := s[i].(isStatic := true, ttl := FOREVER)]
    else s[i := s[i].(isStatic := false, ttl := timeOut)]
  }

  /** `address_remove_device` */
  function Remove(s: Table, id: nat): Table {
    var i := Find(s, id);
    if i < |s| then s[i := Clear(s[i])] else s
  }

  function Ticked(e: Entry, seconds: nat): Entry {
    if (e.inUse || e.reserved) && !e.isStatic then
      if e.ttl >= seconds then e.(ttl := e.ttl - seconds) else Clear(e)
    else e
  }

  /** `address_cache_timer` */
  function Timer(s: Table, seconds: nat): (r: Table)
    ensures |r| == |s|
  {
    seq(|s|, i requires 0 <= i < |s| => Ticked(s[i], seconds))
  }

  function Restarted(e: Entry): Entry {
    if (e.inUse && (e.bindReq || e.ttl == 0)) || e.reserved then Clear(e) else e
  }

  /** The sweep of `address_init_partial`. */
  function Restart(s: Table): (r: Table)
    ensures |r| == |s|
  {
    seq(|s|, i requires 0 <= i < |s| => Restarted(s[i]))
  }

  /** The sweep of `address_init`. */
  function ClearAll(s: Table): (r: Table)
    ensures |r| == |s|
  {
    seq(|s|, i requires 0 <= i < |s| => Clear(s[i]))
  }

  /** A line of the address file. */
  datatype Listed = Listed(id: nat, maxApdu: nat, address: Address)

  function LoadOne(s: Table, l: Listed): Table {
    SetTtl(Add(s, l.id, l.maxApdu, l.address), l.id, 0, true)
  }

  /** `address_file_init` */
  function Load(s: Table, lines: seq<Listed>): Table
    decreases |lines|
  {
    if lines == [] then s else Load(LoadOne(s, lines[0]), lines[1..])
  }

  /** `address_init_partial` */
  function InitPartial(s: Table, lines: seq<Listed>): Table { Load(Restart(s), lines) }

  /** `address_init` */
  function Init(s: Table, lines: seq<Listed>): Table { Load(ClearAll(s), lines) }

  datatype Binding = Binding(address: Address, maxApdu: nat)

  /** `address_get_by_device` */
  function Lookup(s: Table, id: nat): Option<Binding> {
    var i := Find(s, id);
    if i < |s| && !s[i].bindReq then Some(Binding(s[i].address, s[i].maxApdu)) else None
  }

  // ---- what holds between operations ----

  ghost predicate IsStaticFor(s: Table, id: nat) {
    Find(s, id) < |s| && s[Find(s, id)].isStatic
  }

  predicate GoodFlags(e: Entry) {
    && !e.shortTtl && !e.reserved
    && (e.bindReq || e.isStatic ==> e.inUse) && !(e.bindReq && e.isStatic)
  }

  ghost predicate Inv(s: Table) {
    && (forall i :: 0 <= i < |s| ==> GoodFlags(s[i]) && s[i].ttl <= FOREVER)
    && (forall i :: 0 <= i < |s| && s[i].isStatic ==> s[i].ttl == FOREVER)
    && (forall i, j :: 0 <= i < j < |s| && s[i].inUse && s[j].inUse ==> s[i].device != s[j].device)
  }

  lemma {:induction false} FindOnly(s: Table, id: nat, i: nat)
    requires Inv(s) && i < |s| && IsFor(s[i], id)
    ensures Find(s, id) == i
  {}

  /** Writing one slot for a device that no other slot is for keeps everything else found as before. */
  lemma {:induction false} WriteSlot(s: Table, i: nat, e: Entry)
    requires Inv(s) && i < |s| && GoodFlags(e) && e.ttl <= FOREVER && (e.isStatic ==> e.ttl == FOREVER)
    requires e.inUse ==> forall j :: 0 <= j < |s| && j != i ==> !IsFor(s[j], e.device)
    ensures Inv(s[i := e])
    ensures e.inUse ==> Find(s[i := e], e.device) == i
    ensures forall d :: !IsFor(e, d) && !IsFor(s[i], d) ==> Lookup(s[i := e], d) == Lookup(s, d)
    ensures forall d :: !IsFor(e, d) && IsFor(s[i], d) ==> Find(s[i := e], d) == |s|
  {
    var t := s[i := e];
    if e.inUse { FindOnly(t, e.device, i); }
    forall d | !IsFor(e, d) && !IsFor(s[i], d)
      ensures Lookup(t, d) == Lookup(s, d)
    {
      var k := Find(s, d);
      if k < |s| {
        FindOnly(s, d, k);
        FindOnly(t, d, k);
      } else {
        assert Find(t, d) == |t|;
      }
    }
  }

  /** When `address_add` and `address_bind_request` have no slot to offer. */
  ghost predicate Full(s: Table, id: nat) {
    forall i :: 0 <= i < |s| ==>
      s[i].inUse && s[i].device != id && (s[i].isStatic || s[i].ttl == FOREVER)
  }

  lemma {:induction false} VictimOrFull(s: Table, id: nat)
    requires Inv(s) && Find(s, id) == |s| && First(s, Unused) == |s|
    ensures Victim(s) == None <==> Full(s, id)
    ensures Victim(s).Some? ==> Victim(s).value < |s|
  {
    assert forall i :: 0 <= i < |s| ==> s[i].inUse && (s[i].isStatic || Bound(s[i]) || Pending(s[i]));
  }

  /** The slot given up is one that expires soonest, and a pending request only if no bound entry expires. */
  lemma {:induction false} VictimChoice(s: Table)
    requires Victim(s).Some?
    ensures var v := Victim(s).value;
            && v < |s| && !s[v].isStatic && s[v].inUse && s[v].ttl < FOREVER
            && (!s[v].bindReq ==> forall j :: 0 <= j < |s| && Bound(s[j]) ==> s[v].ttl <= s[j].ttl)
            && (s[v].bindReq ==>
                  && (forall j :: 0 <= j < |s| && Bound(s[j]) ==> s[j].ttl >= FOREVER)
                  && (forall j :: 0 <= j < |s| && Pending(s[j]) ==> s[v].ttl <= s[j].ttl))
  {}

  /** The device whose slot a new entry for `id` takes over. */
  ghost predicate Evicts(s: Table, id: nat, d: nat) {
    && Find(s, id) == |s| && First(s, Unused) == |s|
    && Victim(s).Some? && Victim(s).value < |s| && s[Victim(s).value].device == d
  }

  /** What becomes of the other devices when one slot is found for `id`. */
  ghost predicate OthersKept(s: Table, t: Table, id: nat) {
    && Inv(t) && |t| == |s|
    && (forall d :: d != id && !Evicts(s, id, d) ==> Lookup(t, d) == Lookup(s, d))
    && (forall d :: d != id && Evicts(s, id, d) ==> Find(t, d) == |t|)
  }

  lemma {:induction false} TakeOver(s: Table, id: nat, e: Entry)
    requires Inv(s) && Find(s, id) == |s| && First(s, Unused) == |s| && Victim(s).Some?
    requires GoodFlags(e) && IsFor(e, id) && !e.isStatic && e.ttl <= FOREVER
    ensures Victim(s).value < |s| && !Full(s, id)
    ensures var t := s[Victim(s).value := e];
            OthersKept(s, t, id) && Find(t, id) == Victim(s).value
  {
    VictimOrFull(s, id);
    WriteSlot(s, Victim(s).value, e);
  }

  /** Adding a device binds it to the new value, gives up at most one other device, and is refused exactly
      when every slot is taken by another device for good. */
  lemma {:induction false} AddRefines(s: Table, id: nat, maxApdu: nat, address: Address)
    requires Inv(s)
    ensures var t := Add(s, id, maxApdu, address);
            && OthersKept(s, t, id)
            && (Full(s, id) ==> t == s)
            && (!Full(s, id) ==> Lookup(t, id) == Some(Binding(address, maxApdu)))
  {
    var i, f := Find(s, id), First(s, Unused);
    if i < |s| {
      WriteSlot(s, i, Renewed(s[i], maxApdu, address));
    } else if f < |s| {
      WriteSlot(s, f, Fresh(s[f], id, maxApdu, address));
    } else {
      VictimOrFull(s, id);
      var v := Victim(s);
      if v.Some? {
        TakeOver(s, id, Fresh(s[v.value], id, maxApdu, address));
      }
    }
  }

  /** A bind request for an unknown device leaves it pending, again at the cost of at most one device. */
  lemma {:induction false} BindRequestRefines(s: Table, id: nat)
    requires Inv(s)
    ensures var t := BindRequest(s, id);
            && OthersKept(s, t, id)
            && (Find(s, id) < |s| || Full(s, id) ==> t == s)
            && (Find(s, id) == |s| && !Full(s, id) ==> Find(t, id) < |t| && t[Find(t, id)].bindReq)
  {
    var i, f := Find(s, id), First(s, Unused);
    assert First(s, Vacant) == f;
    if i < |s| {
    } else if f < |s| {
      WriteSlot(s, f, Awaiting(s[f], id));
    } else {
      VictimOrFull(s, id);
      var v := Victim(s);
      if v.Some? {
        TakeOver(s, id, Awaiting(s[v.value], id));
      }
    }
  }

  lemma {:induction false} AddBindingRefines(s: Table, id: nat, maxApdu: nat, address: Address)
    requires Inv(s)
    ensures var t := AddBinding(s, id, maxApdu, address);
            && Inv(t) && |t| == |s|
            && Lookup(t, id) == (if Find(s, id) < |s| then Some(Binding(address, maxApdu)) else None)
            && forall d :: d != id ==> Lookup(t, d) == Lookup(s, d)
  {
    var i := Find(s, id);
    if i < |s| {
      WriteSlot(s, i, AddBinding(s, id, maxApdu, address)[i]);
    }
  }

  /** What `my_iam_handler` asks of the cache when a device announces itself for the first time. */
  function Meet(s: Table, id: nat, maxApdu: nat, address: Address): Table {
    if Lookup(s, id).Some? then BindRequest(s, id) else AddBinding(BindRequest(s, id), id, maxApdu, address)
  }

  /** The device is then found at the address it announced, unless the cache already had one for it, which is
      kept, or has no slot to give; at most one other device is lost. */
  lemma {:induction false} MeetBinds(s: Table, id: nat, maxApdu: nat, address: Address)
    requires Inv(s)
    ensures var t := Meet(s, id, maxApdu, address);
            && Inv(t) && |t| == |s|
            && Lookup(t, id) == (if Lookup(s, id).Some? then Lookup(s, id)
                                 else if Full(s, id) then None
                                 else Some(Binding(address, maxApdu)))
            && (forall d :: d != id && !Evicts(s, id, d) ==> Lookup(t, d) == Lookup(s, d))
  {
    BindRequestRefines(s, id);
    AddBindingRefines(BindRequest(s, id), id, maxApdu, address);
  }

  /** Time to live and the static mark never change what a device is bound to. */
  lemma {:induction false} SetTtlRefines(s: Table, id: nat, timeOut: nat, isStatic: bool)
    requires Inv(s) && timeOut <= FOREVER
    ensures var t := SetTtl(s, id, timeOut, isStatic);
            && Inv(t) && |t| == |s|
            && forall d :: Lookup(t, d) == Lookup(s, d)
  {
    var i := Find(s, id);
    if i < |s| {
      WriteSlot(s, i, SetTtl(s, id, timeOut, isStatic)[i]);
    }
  }

  lemma {:induction false} RemoveRefines(s: Table, id: nat)
    requires Inv(s)
    ensures var t := Remove(s, id);
            && Inv(t) && |t| == |s| && Find(t, id) == |t|
            && forall d :: d != id ==> Lookup(t, d) == Lookup(s, d)
  {
    var i := Find(s, id);
    if i < |s| {
      WriteSlot(s, i, Clear(s[i]));
    }
  }

  lemma {:induction false} SweepKeeps(s: Table, t: Table)
    requires Inv(s) && |t| == |s|
    requires forall i :: 0 <= i < |s| ==> t[i] == Clear(s[i]) || t[i] == s[i].(ttl := t[i].ttl)
    requires forall i :: 0 <= i < |s| && t[i].inUse ==> t[i].ttl <= s[i].ttl && (s[i].isStatic ==> t[i] == s[i])
    requires forall i :: 0 <= i < |s| && !t[i].inUse ==> t[i].ttl <= FOREVER
    ensures Inv(t)
  {}

  lemma {:induction false} TimerKeeps(s: Table, seconds: nat)
    requires Inv(s)
    ensures Inv(Timer(s, seconds))
  {
    SweepKeeps(s, Timer(s, seconds));
  }

  lemma {:induction false} LoadKeeps(s: Table, lines: seq<Listed>)
    requires Inv(s)
    ensures Inv(Load(s, lines)) && |Load(s, lines)| == |s|
    decreases |lines|
  {
    if lines != [] {
      var l := lines[0];
      AddRefines(s, l.id, l.maxApdu, l.address);
      SetTtlRefines(Add(s, l.id, l.maxApdu, l.address), l.id, 0, true);
      LoadKeeps(LoadOne(s, l), lines[1..]);
    }
  }

  /** A listed device that finds a slot is bound to its address for good. */
  lemma {:induction false} ListedIsStatic(s: Table, l: Listed)
    requires Inv(s) && !Full(s, l.id)
    ensures IsStaticFor(LoadOne(s, l), l.id)
    ensures Lookup(LoadOne(s, l), l.id) == Some(Binding(l.address, l.maxApdu))
  {
    AddRefines(s, l.id, l.maxApdu, l.address);
    var t := Add(s, l.id, l.maxApdu, l.address);
    SetTtlRefines(t, l.id, 0, true);
    FindOnly(LoadOne(s, l), l.id, Find(t, l.id));
  }

  lemma {:induction false} InitPartialKeeps(s: Table, lines: seq<Listed>)
    requires Inv(s)
    ensures Inv(InitPartial(s, lines)) && |InitPartial(s, lines)| == |s|
  {
    SweepKeeps(s, Restart(s));
    LoadKeeps(Restart(s), lines);
  }

  lemma {:induction false} ClearTableIsGood(s: Table)
    requires forall i :: 0 <= i < |s| ==> s[i] == Clear(s[i]) && s[i].ttl <= FOREVER
    ensures Inv(s)
  {}

  /** `address_init` makes a good table of any, whatever was in the slots. */
  lemma {:induction false} InitIsGood(s: Table, lines: seq<Listed>)
    requires forall i :: 0 <= i < |s| ==> s[i].ttl <= FOREVER
    ensures Inv(Init(s, lines)) && |Init(s, lines)| == |s|
  {
    ClearTableIsGood(ClearAll(s));
    LoadKeeps(ClearAll(s), lines);
  }

  // ---- every run ----

  datatype Op =
    | AddOp(id: nat, maxApdu: nat, address: Address)
    | BindOp(id: nat)
    | AddBindingOp(id: nat, maxApdu: nat, address: Address)
    | SetTtlOp(id: nat, timeOut: nat, isStatic: bool)
    | RemoveOp(id: nat)
    | TimerOp(seconds: nat)
    | InitPartialOp(lines: seq<Listed>)
    | InitOp(lines: seq<Listed>)

  predicate InRange(op: Op) {
    op.SetTtlOp? ==> op.timeOut <= FOREVER
  }

  function Apply(s: Table, op: Op): Table {
    match op
    case AddOp(id, maxApdu, address) => Add(s, id, maxApdu, address)
    case BindOp(id) => BindRequest(s, id)
    case AddBindingOp(id, maxApdu, address) => AddBinding(s, id, maxApdu, address)
    case SetTtlOp(id, timeOut, isStatic) => SetTtl(s, id, timeOut, isStatic)
    case RemoveOp(id) => Remove(s, id)
    case TimerOp(seconds) => Timer(s, seconds)
    case InitPartialOp(lines) => InitPartial(s, lines)
    case InitOp(lines) => Init(s, lines)
  }

  function Run(s: Table, ops: seq<Op>): Table
    decreases |ops|
  {
    if ops == [] then s else Run(Apply(s, ops[0]), ops[1..])
  }

  lemma {:induction false} ApplyKeeps(s: Table, op: Op)
    requires Inv(s) && InRange(op)
    ensures Inv(Apply(s, op)) && |Apply(s, op)| == |s|
  {
    match op
    case AddOp(id, maxApdu, address) => AddRefines(s, id, maxApdu, address);
    case BindOp(id) => BindRequestRefines(s, id);
    case AddBindingOp(id, maxApdu, address) => AddBindingRefines(s, id, maxApdu, address);
    case SetTtlOp(id, timeOut, isStatic) => SetTtlRefines(s, id, timeOut, isStatic);
    case RemoveOp(id) => RemoveRefines(s, id);
    case TimerOp(seconds) => TimerKeeps(s, seconds);
    case InitPartialOp(lines) => InitPartialKeeps(s, lines);
    case InitOp(lines) => InitIsGood(s, lines);
  }

  /** Every run keeps device ids distinct, the flags to four combinations, and static entries bound for ever. */
  lemma {:induction false} RunKeeps(s: Table, ops: seq<Op>)
    requires Inv(s) && forall op :: op in ops ==> InRange(op)
    ensures Inv(Run(s, ops)) && |Run(s, ops)| == |s|
    decreases |ops|
  {
    if ops != [] {
      assert ops[0] in ops && forall op :: op in ops[1..] ==> op in ops;
      ApplyKeeps(s, ops[0]);
      RunKeeps(Apply(s, ops[0]), ops[1..]);
    }
  }

  /** The static array before anything has run, all flags clear, and any operations after that. */
  lemma {:induction false} RunFromClear(s: Table, ops: seq<Op>)
    requires forall i :: 0 <= i < |s| ==> s[i] == Clear(s[i]) && s[i].ttl <= FOREVER
    requires forall op :: op in ops ==> InRange(op)
    ensures Inv(Run(s, ops)) && |Run(s, ops)| == |s|
  {
    ClearTableIsGood(s);
    RunKeeps(s, ops);
  }

  // ---- static entries ----

  predicate Spares(op: Op, id: nat) {
    && !op.InitOp?
    && (op.RemoveOp? ==> op.id != id)
    && (op.SetTtlOp? ==> op.id != id || op.isStatic)
  }

  lemma {:induction false} SameSlot(s: Table, t: Table, id: nat)
    requires Inv(s) && Inv(t) && |t| == |s| && IsStaticFor(s, id)
    requires var i := Find(s, id); t[i].inUse && t[i].isStatic && t[i].device == id
    ensures IsStaticFor(t, id)
  {
    FindOnly(t, id, Find(s, id));
  }

  predicate StaticEntry(e: Entry, id: nat) { e.inUse && e.isStatic && e.device == id }

  /** A slot given to another device was not a static one. */
  lemma {:induction false} AddSpares(s: Table, id: nat, maxApdu: nat, address: Address, other: nat)
    requires Inv(s) && IsStaticFor(s, id)
    ensures StaticEntry(Add(s, other, maxApdu, address)[Find(s, id)], id)
  {
    if Victim(s).Some? { VictimChoice(s); }
  }

  lemma {:induction false} BindSpares(s: Table, id: nat, other: nat)
    requires Inv(s) && IsStaticFor(s, id)
    ensures StaticEntry(BindRequest(s, other)[Find(s, id)], id)
  {
    if Victim(s).Some? { VictimChoice(s); }
  }

  lemma {:induction false} AddKeepsStatic(s: Table, id: nat, other: nat, maxApdu: nat, address: Address)
    requires Inv(s) && IsStaticFor(s, id)
    ensures Inv(Add(s, other, maxApdu, address)) && IsStaticFor(Add(s, other, maxApdu, address), id)
  {
    AddRefines(s, other, maxApdu, address);
    AddSpares(s, id, maxApdu, address, other);
    SameSlot(s, Add(s, other, maxApdu, address), id);
  }

  lemma {:induction false} MarkKeepsStatic(s: Table, id: nat, other: nat)
    requires Inv(s) && IsStaticFor(s, id)
    ensures Inv(SetTtl(s, other, 0, true)) && IsStaticFor(SetTtl(s, other, 0, true), id)
  {
    SetTtlRefines(s, other, 0, true);
    SameSlot(s, SetTtl(s, other, 0, true), id);
  }

  lemma {:induction false} LoadSpares(s: Table, lines: seq<Listed>, id: nat)
    requires Inv(s) && IsStaticFor(s, id)
    ensures IsStaticFor(Load(s, lines), id)
    decreases |lines|
  {
    if lines != [] {
      var l := lines[0];
      AddKeepsStatic(s, id, l.id, l.maxApdu, l.address);
      MarkKeepsStatic(Add(s, l.id, l.maxApdu, l.address), id, l.id);
      LoadSpares(LoadOne(s, l), lines[1..], id);
    }
  }

  lemma {:induction false} InitPartialSpares(s: Table, lines: seq<Listed>, id: nat)
    requires Inv(s) && IsStaticFor(s, id)
    ensures IsStaticFor(InitPartial(s, lines), id)
  {
    SweepKeeps(s, Restart(s));
    SameSlot(s, Restart(s), id);
    LoadSpares(Restart(s), lines, id);
  }

  lemma {:induction false} StaticSurvivesOne(s: Table, op: Op, id: nat)
    requires Inv(s) && InRange(op) && IsStaticFor(s, id) && Spares(op, id)
    ensures IsStaticFor(Apply(s, op), id)
  {
    ApplyKeeps(s, op);
    if op.InitPartialOp? {
      InitPartialSpares(s, op.lines, id);
    } else {
      if op.AddOp? { AddSpares(s, id, op.maxApdu, op.address, op.id); }
      if op.BindOp? { BindSpares(s, id, op.id); }
      SameSlot(s, Apply(s, op), id);
    }
  }

  /** A static entry stays found through every run that does not remove it or make it non-static. */
  lemma {:induction false} StaticSurvives(s: Table, ops: seq<Op>, id: nat)
    requires Inv(s) && IsStaticFor(s, id)
    requires forall op :: op in ops ==> InRange(op) && Spares(op, id)
    ensures IsStaticFor(Run(s, ops), id) && Lookup(Run(s, ops), id).Some?
    decreases |ops|
  {
    RunKeeps(s, ops);
    if ops != [] {
      assert ops[0] in ops && forall op :: op in ops[1..] ==> op in ops;
      ApplyKeeps(s, ops[0]);
      StaticSurvivesOne(s, ops[0], id);
      StaticSurvives(Apply(s, ops[0]), ops[1..], id);
    }
  }

  // ---- time ----

  function Sum(ticks: seq<nat>): nat {
    if ticks == [] then 0 else ticks[0] + Sum(ticks[1..])
  }

  function Ticks(ticks: seq<nat>): (ops: seq<Op>)
    ensures |ops| == |ticks|
  {
    if ticks == [] then [] else [TimerOp(ticks[0])] + Ticks(ticks[1..])
  }

  /** Under timer ticks alone a non-static entry stays exactly while the ticks do not exceed its time. */
  lemma {:induction false} TicksExpire(s: Table, ticks: seq<nat>, i: nat)
    requires i < |s| && s[i].inUse && !s[i].isStatic
    ensures var t := Run(s, Ticks(ticks));
            && |t| == |s|
            && (t[i].inUse <==> Sum(ticks) <= s[i].ttl)
            && (t[i].inUse ==> t[i] == s[i].(ttl := s[i].ttl - Sum(ticks)))
    decreases |ticks|
  {
    if ticks != [] {
      var u := Timer(s, ticks[0]);
      assert Ticks(ticks)[1..] == Ticks(ticks[1..]);
      if u[i].inUse {
        TicksExpire(u, ticks[1..], i);
      } else {
        StaysClear(u, ticks[1..], i);
      }
    }
  }

  lemma {:induction false} StaysClear(s: Table, ticks: seq<nat>, i: nat)
    requires i < |s| && s[i] == Clear(s[i])
    ensures var t := Run(s, Ticks(ticks)); |t| == |s| && !t[i].inUse
    decreases |ticks|
  {
    if ticks != [] {
      assert Ticks(ticks)[1..] == Ticks(ticks[1..]);
      StaysClear(Timer(s, ticks[0]), ticks[1..], i);
    }
  }
}
