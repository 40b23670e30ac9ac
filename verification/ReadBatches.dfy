/** Gathering the objects that are due into requests of bounded size. */
module ReadBatches {
  import opened CovPass

  const BATCH := 50

  datatype Item = Item(sub: Object, needToRead: bool)

  datatype Outgoing = AskToSubscribe(place: nat) | ReadMany(places: seq<nat>)

  /** The local variables of `add_request_if_need`; both lists grow at the front. */
  datatype Pass = Pass(items: seq<Item>, header: seq<nat>, chain: seq<Outgoing>)

  predicate Asking(kind: SubType, o: Object) { o.cov == NeedToSub && kind != NoSubscribe }

  /** The objects the early `continue` passes over. */
  predicate Skipped(kind: SubType, it: Item) { Asking(kind, it.sub) && !IsNeeded(kind, it.sub) }

  predicate ReadNow(kind: SubType, it: Item) { it.needToRead && !Skipped(kind, it) }

  function Settle(it: Item): Item { it.(sub := it.sub.(cov := SupportSub)) }

  function Visited(kind: SubType, it: Item): Item {
    var settled := if Asking(kind, it.sub) then Settle(it) else it;
    if Skipped(kind, it) then settled else settled.(needToRead := false)
  }

  function AddRead(p: Pass, i: nat): Pass {
    if |p.header| + 1 >= BATCH then p.(header := [], chain := [ReadMany([i] + p.header)] + p.chain)
    else p.(header := [i] + p.header)
  }

  /** One turn of the loop. */
  function Visit(p: Pass, i: nat, kind: SubType): Pass
    requires i < |p.items|
  {
    var it := p.items[i];
    var q := p.(items := p.items[i := Visited(kind, it)]);
    if Skipped(kind, it) then q
    else
      var s := if Asking(kind, it.sub) then q.(chain := [AskToSubscribe(i)] + q.chain) else q;
      if it.needToRead then AddRead(s, i) else s
  }

  function UpTo(items: seq<Item>, kind: SubType, n: nat): (p: Pass)
    requires n <= |items|
    ensures |p.items| == |items|
  {
    if n == 0 then Pass(items, [], []) else Visit(UpTo(items, kind, n - 1), n - 1, kind)
  }

  function Finish(p: Pass): seq<Outgoing> {
    if p.header == [] then p.chain else [ReadMany(p.header)] + p.chain
  }

  function Chain(items: seq<Item>, kind: SubType): seq<Outgoing> { Finish(UpTo(items, kind, |items|)) }

  function After(items: seq<Item>, kind: SubType): seq<Item> { UpTo(items, kind, |items|).items }

  /** Every place a chain reads, front to back. */
  function ReadsOf(chain: seq<Outgoing>): seq<nat> {
    if chain == [] then []
    else if chain[0].ReadMany? then chain[0].places + ReadsOf(chain[1..])
    else ReadsOf(chain[1..])
  }

  function AsksOf(chain: seq<Outgoing>): seq<nat> {
    if chain == [] then []
    else if chain[0].AskToSubscribe? then [chain[0].place] + AsksOf(chain[1..])
    else AsksOf(chain[1..])
  }

  predicate Full(chain: seq<Outgoing>) {
    forall b :: b in chain && b.ReadMany? ==> |b.places| == BATCH
  }

  lemma {:induction false} Prepend(b: Outgoing, chain: seq<Outgoing>)
    ensures ReadsOf([b] + chain) == if b.ReadMany? then b.places + ReadsOf(chain) else ReadsOf(chain)
    ensures AsksOf([b] + chain) == if b.AskToSubscribe? then [b.place] + AsksOf(chain) else AsksOf(chain)
    ensures Full([b] + chain) <==> Full(chain) && (b.ReadMany? ==> |b.places| == BATCH)
  {
    assert ([b] + chain)[1..] == chain;
    assert b in [b] + chain && forall c :: c in [b] + chain <==> c == b || c in chain;
  }

  function Front<T>(c: bool, x: T, q: seq<T>): seq<T> {
    if c then [x] + q else q
  }

  /** The places below `n` that satisfy `p`, last one first. */
  function Back(items: seq<Item>, n: nat, p: Item -> bool): seq<nat>
    requires n <= |items|
  {
    if n == 0 then [] else Front(p(items[n - 1]), n - 1, Back(items, n - 1, p))
  }

  lemma {:induction false} BackIsExact(items: seq<Item>, n: nat, p: Item -> bool)
    requires n <= |items|
    ensures forall i: nat :: i in Back(items, n, p) <==> i < n && p(items[i])
    ensures forall j, k :: 0 <= j < k < |Back(items, n, p)| ==> Back(items, n, p)[j] > Back(items, n, p)[k]
  {
    if n > 0 {
      BackIsExact(items, n - 1, p);
      var rest := Back(items, n - 1, p);
      assert forall k :: 0 <= k < |rest| ==> rest[k] in rest;
    }
  }

  function Reading(kind: SubType): Item -> bool { it => ReadNow(kind, it) }

  predicate ToAsk(kind: SubType, it: Item) { Asking(kind, it.sub) && IsNeeded(kind, it.sub) }

  function Willing(kind: SubType): Item -> bool { it => ToAsk(kind, it) }

  ghost predicate GoodItems(p: Pass, items: seq<Item>, kind: SubType, n: nat)
    requires n <= |items|
  {
    && |p.items| == |items|
    && (forall i :: 0 <= i < n ==> p.items[i] == Visited(kind, items[i]))
    && (forall i :: n <= i < |items| ==> p.items[i] == items[i])
  }

  ghost predicate GoodLists(p: Pass, items: seq<Item>, kind: SubType, n: nat)
    requires n <= |items|
  {
    && |p.header| < BATCH && Full(p.chain)
    && p.header + ReadsOf(p.chain) == Back(items, n, Reading(kind))
    && AsksOf(p.chain) == Back(items, n, Willing(kind))
  }

  /** Starting a new batch moves no place from where it stands in the two lists together. */
  lemma {:induction false} AddReadLists(p: Pass, i: nat)
    ensures var q := AddRead(p, i);
            && q.header + ReadsOf(q.chain) == [i] + (p.header + ReadsOf(p.chain))
            && AsksOf(q.chain) == AsksOf(p.chain)
            && (Full(p.chain) && |p.header| < BATCH ==> Full(q.chain) && |q.header| < BATCH)
  {
    Regroup([i], p.header, ReadsOf(p.chain));
    Prepend(ReadMany([i] + p.header), p.chain);
  }

  lemma {:induction false} VisitLists(p: Pass, n: nat, kind: SubType)
    requires n < |p.items|
    ensures var it, q := p.items[n], Visit(p, n, kind);
            && q.header + ReadsOf(q.chain) == Front(ReadNow(kind, it), n, p.header + ReadsOf(p.chain))
            && AsksOf(q.chain) == Front(ToAsk(kind, it), n, AsksOf(p.chain))
            && (Full(p.chain) && |p.header| < BATCH ==> Full(q.chain) && |q.header| < BATCH)
  {
    var it := p.items[n];
    var q := p.(items := p.items[n := Visited(kind, it)]);
    Prepend(AskToSubscribe(n), p.chain);
    if ReadNow(kind, it) {
      AddReadLists(if Asking(kind, it.sub) then q.(chain := [AskToSubscribe(n)] + q.chain) else q, n);
    }
  }

  lemma {:induction false} VisitKeeps(p: Pass, items: seq<Item>, kind: SubType, n: nat)
    requires n < |items| && GoodLists(p, items, kind, n) && n < |p.items| && p.items[n] == items[n]
    ensures GoodLists(Visit(p, n, kind), items, kind, n + 1)
  {
    VisitLists(p, n, kind);
  }

  lemma {:induction false} Regroup<T>(a: seq<T>, b: seq<T>, c: seq<T>)
    ensures a + b + c == a + (b + c) && [] + c == c && [] + (a + b + c) == a + b + c
  {}

  lemma {:induction false} UpToIsGood(items: seq<Item>, kind: SubType, n: nat)
    requires n <= |items|
    ensures GoodItems(UpTo(items, kind, n), items, kind, n)
    ensures GoodLists(UpTo(items, kind, n), items, kind, n)
  {
    if n > 0 {
      UpToIsGood(items, kind, n - 1);
      VisitKeeps(UpTo(items, kind, n - 1), items, kind, n - 1);
    }
  }

  lemma {:induction false} BatchSizes(items: seq<Item>, kind: SubType, j: nat)
    requires j < |Chain(items, kind)| && Chain(items, kind)[j].ReadMany?
    ensures var b := Chain(items, kind)[j].places;
            0 < |b| <= BATCH && (0 < j ==> |b| == BATCH)
  {
    var p := UpTo(items, kind, |items|);
    UpToIsGood(items, kind, |items|);
    if p.header == [] {
      assert p.chain[j] in p.chain;
    } else if j > 0 {
      assert p.chain[j - 1] in p.chain;
    }
  }

  lemma {:induction false} ChainReads(items: seq<Item>, kind: SubType)
    ensures ReadsOf(Chain(items, kind)) == Back(items, |items|, Reading(kind))
    ensures AsksOf(Chain(items, kind)) == Back(items, |items|, Willing(kind))
  {
    var p := UpTo(items, kind, |items|);
    UpToIsGood(items, kind, |items|);
    Prepend(ReadMany(p.header), p.chain);
    assert p.header == [] ==> p.header + ReadsOf(p.chain) == ReadsOf(p.chain);
  }

  /** The batches partition the objects to read: each is in exactly one batch, no batch holds more than
      fifty, and only the one built last, which leads the chain, may hold fewer. */
  lemma {:induction false} BatchesPartition(items: seq<Item>, kind: SubType)
    ensures var c := Chain(items, kind);
            && (forall i: nat :: i in ReadsOf(c) <==> i < |items| && ReadNow(kind, items[i]))
            && (forall j, k :: 0 <= j < k < |ReadsOf(c)| ==> ReadsOf(c)[j] > ReadsOf(c)[k])
            && (forall j :: 0 <= j < |c| && c[j].ReadMany? ==>
                  0 < |c[j].places| <= 50 && (0 < j ==> |c[j].places| == 50))
  {
    ChainReads(items, kind);
    BackIsExact(items, |items|, Reading(kind));
    forall j | 0 <= j < |Chain(items, kind)| && Chain(items, kind)[j].ReadMany?
      ensures var b := Chain(items, kind)[j].places;
              0 < |b| <= BATCH && (0 < j ==> |b| == BATCH)
    {
      BatchSizes(items, kind, j);
    }
  }

  /** Exactly the objects that ask and have not turned the kind down get one subscribe request each. */
  lemma {:induction false} AsksAreExact(items: seq<Item>, kind: SubType)
    ensures var a := AsksOf(Chain(items, kind));
            && (forall i: nat :: i in a <==> i < |items| && ToAsk(kind, items[i]))
            && (forall j, k :: 0 <= j < k < |a| ==> a[j] > a[k])
  {
    ChainReads(items, kind);
    BackIsExact(items, |items|, Willing(kind));
  }

  /** A flag outlives the pass exactly for the skipped objects, and the next pass reads exactly those. */
  lemma {:induction false} SecondPassCatchesUp(items: seq<Item>, kind: SubType)
    ensures var t := After(items, kind);
            && |t| == |items|
            && (forall i :: 0 <= i < |t| ==> (t[i].needToRead <==> items[i].needToRead && Skipped(kind, items[i])))
            && (forall i: nat :: i in ReadsOf(Chain(t, kind)) <==>
                  i < |items| && items[i].needToRead && Skipped(kind, items[i]))
  {
    UpToIsGood(items, kind, |items|);
    BatchesPartition(After(items, kind), kind);
  }

  /** The same without the names: an object is asked when it wants to be and has not turned the kind down. */
  lemma {:induction false} AsksSpelledOut(items: seq<Item>, kind: SubType, i: nat)
    requires i < |items|
    ensures var o := items[i].sub;
            && (i in AsksOf(Chain(items, kind)) <==>
                  && o.cov == NeedToSub && kind != NoSubscribe
                  && (kind == SubscribeObject ==> o.unSupport != UnSupportSubObject)
                  && (kind != SubscribeObject ==> o.unSupport != UnSupportSubProperty))
            && (i in ReadsOf(Chain(items, kind)) <==>
                  && items[i].needToRead
                  && (i in AsksOf(Chain(items, kind)) || o.cov != NeedToSub || kind == NoSubscribe))
  {
    AsksAreExact(items, kind);
    BatchesPartition(items, kind);
  }

  /** An object that was asked, or turned the kind down, stops asking; nothing else about it changes, and a second pass
      asks nobody. */
  lemma {:induction false} AskedStopAsking(items: seq<Item>, kind: SubType)
    ensures var t := After(items, kind);
            && |t| == |items|
            && (forall i :: 0 <= i < |t| ==>
                  t[i].sub == if items[i].sub.cov == NeedToSub && kind != NoSubscribe
                              then items[i].sub.(cov := SupportSub) else items[i].sub)
            && AsksOf(Chain(t, kind)) == []
  {
    var t := After(items, kind);
    UpToIsGood(items, kind, |items|);
    AsksAreExact(t, kind);
    var a := AsksOf(Chain(t, kind));
    if a != [] {
      assert a[0] in a;
    }
  }

  /** The body of the loop; the early return stands for its `continue`. */
  method VisitObject(items: array<Item>, i: nat, kind: SubType, header: seq<nat>, chain: seq<Outgoing>)
    returns (newHeader: seq<nat>, newChain: seq<Outgoing>)
    requires i < items.Length
    modifies items
    ensures Pass(items[..], newHeader, newChain) == Visit(Pass(old(items[..]), header, chain), i, kind)
  {
    newHeader, newChain := header, chain;
    if items[i].sub.cov == NeedToSub && kind != NoSubscribe {
      if !IsNeeded(kind, items[i].sub) {
        items[i] := Settle(items[i]);
        return;
      }
      newChain := [AskToSubscribe(i)] + newChain;
      items[i] := Settle(items[i]);
    }
    if items[i].needToRead {
      newHeader := [i] + newHeader;
      items[i] := items[i].(needToRead := false);
      if |newHeader| >= BATCH {
        newChain := [ReadMany(newHeader)] + newChain;
        newHeader := [];
      }
    }
  }

  /** `add_request_if_need`, up to the call that queues the chain. */
  method AddRequestIfNeed(items: array<Item>, kind: SubType, disabled: bool) returns (chain: seq<Outgoing>)
    modifies items
    ensures disabled ==> chain == [] && items[..] == old(items[..])
    ensures !disabled ==> chain == Chain(old(items[..]), kind) && items[..] == After(old(items[..]), kind)
  {
    chain := [];
    if disabled { return; }
    var header: seq<nat> := [];
    for i := 0 to items.Length
      invariant Pass(items[..], header, chain) == UpTo(old(items[..]), kind, i)
    {
      header, chain := VisitObject(items, i, kind, header, chain);
    }
    if header != [] {
      chain := [ReadMany(header)] + chain;
    }
  }
}
