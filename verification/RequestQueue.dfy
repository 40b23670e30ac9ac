/** A device's queue of outgoing requests: a linked list whose tail is left dangling while it is empty. */
module RequestQueue {
  import opened Subsequences

  /** How a request left the queue. */
  datatype Exit<T> = Sent(item: T) | Cleaned(item: T)

  datatype Queue<T> = Queue(waiting: seq<T>, left: seq<Exit<T>>, enqueued: seq<T>)

  datatype Op<T> = Add(chain: seq<T>) | Send(disabled: bool) | Clean

  function Exits<T>(q: seq<T>, sent: bool): (r: seq<Exit<T>>)
    ensures |r| == |q|
  {
    seq(|q|, i requires 0 <= i < |q| => if sent then Sent(q[i]) else Cleaned(q[i]))
  }

  function Items<T>(left: seq<Exit<T>>): (r: seq<T>)
    ensures |r| == |left|
  {
    seq(|left|, i requires 0 <= i < |left| => left[i].item)
  }

  function SentOf<T>(left: seq<Exit<T>>): seq<T> {
    if left == [] then []
    else if left[|left| - 1].Sent? then SentOf(left[..|left| - 1]) + [left[|left| - 1].item]
    else SentOf(left[..|left| - 1])
  }

  function Step<T>(s: Queue<T>, op: Op<T>): Queue<T> {
    match op
    case Add(chain) => s.(waiting := s.waiting + chain, enqueued := s.enqueued + chain)
    case Send(disabled) =>
      if disabled || s.waiting == [] then s
      else s.(waiting := s.waiting[1..], left := s.left + [Sent(s.waiting[0])])
    case Clean => s.(waiting := [], left := s.left + Exits(s.waiting, false))
  }

  function Run<T>(s: Queue<T>, ops: seq<Op<T>>): Queue<T>
    decreases |ops|
  {
    if ops == [] then s else Run(Step(s, ops[0]), ops[1..])
  }

  /** First in, first out, and nothing lost or made up. */
  ghost predicate Fifo<T>(s: Queue<T>) {
    Items(s.left) + s.waiting == s.enqueued
  }

  lemma {:induction false} StepIsFifo<T>(s: Queue<T>, op: Op<T>)
    requires Fifo(s)
    ensures Fifo(Step(s, op))
  {
    var t := Step(s, op);
    match op
    case Add(chain) =>
      assert Items(s.left) + (s.waiting + chain) == Items(s.left) + s.waiting + chain;
    case Send(disabled) =>
      if !disabled && s.waiting != [] {
        assert Items(t.left) == Items(s.left) + [s.waiting[0]];
        assert Items(t.left) + t.waiting == Items(s.left) + s.waiting;
      }
    case Clean =>
      assert Items(t.left) == Items(s.left) + s.waiting;
      assert Items(t.left) + [] == Items(t.left);
  }

  /** Requests leave in the order they were enqueued, each once, whatever mix of calls is made. */
  lemma {:induction false} RunIsFifo<T>(s: Queue<T>, ops: seq<Op<T>>)
    requires Fifo(s)
    ensures Fifo(Run(s, ops))
    decreases |ops|
  {
    if ops != [] {
      StepIsFifo(s, ops[0]);
      RunIsFifo(Step(s, ops[0]), ops[1..]);
    }
  }

  lemma {:induction false} SentOfItems<T>(left: seq<Exit<T>>)
    ensures Subseq(SentOf(left), Items(left))
    ensures (forall e :: e in left ==> e.Sent?) ==> SentOf(left) == Items(left)
    decreases |left|
  {
    if left != [] {
      var most, last := left[..|left| - 1], left[|left| - 1];
      SentOfItems(most);
      assert Items(left) == Items(most) + [last.item];
      assert last in left && forall e :: e in most ==> e in left;
      SubseqSuffix(SentOf(most), Items(most), [last.item]);
      if last.Cleaned? {
        assert SentOf(most) + [last.item] + [] == SentOf(most) + [last.item] && SentOf(most) + [] == SentOf(most);
        SubseqLose(SentOf(most), SentOf(most), [last.item], [], Items(left));
      }
    }
  }

  lemma {:induction false} SubseqPrefix<T>(a: seq<T>, b: seq<T>, r: seq<T>)
    requires Subseq(a, b)
    ensures Subseq(a, b + r)
  {
    SubseqSuffix(a, b, r);
    assert a + r + [] == a + r && a + [] == a;
    SubseqLose(a, a, r, [], b + r);
  }

  ghost predicate OnlySent<T>(left: seq<Exit<T>>) {
    forall e :: e in left ==> e.Sent?
  }

  lemma {:induction false} NoCleanOnlySends<T>(s: Queue<T>, ops: seq<Op<T>>)
    requires OnlySent(s.left) && forall op :: op in ops ==> !op.Clean?
    ensures OnlySent(Run(s, ops).left)
    decreases |ops|
  {
    if ops != [] {
      assert ops[0] in ops && forall op :: op in ops[1..] ==> op in ops;
      NoCleanOnlySends(Step(s, ops[0]), ops[1..]);
    }
  }

  /** One more request is sent exactly by an enabled send on a queue that is not empty, and it is the oldest. */
  lemma {:induction false} SendExactly<T>(s: Queue<T>, op: Op<T>)
    ensures var t := Step(s, op);
            if op == Send(false) && s.waiting != [] then
              SentOf(t.left) == SentOf(s.left) + [s.waiting[0]] && t.waiting == s.waiting[1..]
            else
              SentOf(t.left) == SentOf(s.left) && (op.Send? ==> t == s)
  {
    match op
    case Add(_) =>
    case Send(disabled) =>
      if !disabled && s.waiting != [] { assert (s.left + [Sent(s.waiting[0])])[..|s.left|] == s.left; }
    case Clean => CleanedAreNotSent(s.left, s.waiting);
  }

  lemma {:induction false} CleanedAreNotSent<T>(left: seq<Exit<T>>, q: seq<T>)
    ensures SentOf(left + Exits(q, false)) == SentOf(left)
    decreases |q|
  {
    var all := left + Exits(q, false);
    if q == [] {
      assert all == left;
    } else {
      assert all[..|all| - 1] == left + Exits(q[..|q| - 1], false);
      CleanedAreNotSent(left, q[..|q| - 1]);
    }
  }

  /** The chains that are added, one after the other. */
  function Added<T>(ops: seq<Op<T>>): seq<T> {
    if ops == [] then []
    else if ops[0].Add? then ops[0].chain + Added(ops[1..])
    else Added(ops[1..])
  }

  /** While the device is disabled nothing leaves its queue: every request waits, behind those that came before. */
  lemma {:induction false} DisabledKeeps<T>(s: Queue<T>, ops: seq<Op<T>>)
    requires forall op :: op in ops ==> op.Add? || op == Send(true)
    ensures Run(s, ops).left == s.left && Run(s, ops).waiting == s.waiting + Added(ops)
    decreases |ops|
  {
    if ops != [] {
      assert ops[0] in ops && forall op :: op in ops[1..] ==> op in ops;
      DisabledKeeps(Step(s, ops[0]), ops[1..]);
      if ops[0].Add? {
        assert s.waiting + ops[0].chain + Added(ops[1..]) == s.waiting + (ops[0].chain + Added(ops[1..]));
      }
    } else {
      assert s.waiting + [] == s.waiting;
    }
  }

  /** From the empty queue, what is sent is an in-order part of what was enqueued; and unless the queue was
      cleaned, what was sent and then what waits are all of it. */
  lemma {:induction false} SentInOrder<T>(ops: seq<Op<T>>)
    ensures var t := Run(Queue([], [], []), ops);
            && Subseq(SentOf(t.left), t.enqueued)
            && ((forall op :: op in ops ==> !op.Clean?) ==> SentOf(t.left) + t.waiting == t.enqueued)
  {
    var s: Queue<T> := Queue([], [], []);
    var t := Run(s, ops);
    assert Items(s.left) + s.waiting == s.enqueued;
    RunIsFifo(s, ops);
    SentOfItems(t.left);
    SubseqPrefix(SentOf(t.left), Items(t.left), t.waiting);
    if forall op :: op in ops ==> !op.Clean? {
      NoCleanOnlySends(s, ops);
    }
  }

  class Request {
    const body: nat
    var next: Request?

    constructor (body: nat, next: Request?)
      ensures this.body == body && this.next == next
    {
      this.body, this.next := body, next;
    }
  }

  function First(nodes: seq<Request>): Request? {
    if nodes == [] then null else nodes[0]
  }

  function At(nodes: seq<Request>, i: nat): Request? {
    if i < |nodes| then nodes[i] else null
  }

  /** The nodes a walk along `next` meets, in order. */
  ghost predicate Linked(nodes: seq<Request>)
    reads nodes
  {
    && (forall i, j :: 0 <= i < j < |nodes| ==> nodes[i] != nodes[j])
    && (forall i :: 0 <= i < |nodes| ==> nodes[i].next == At(nodes, i + 1))
  }

  lemma {:induction false} LinkedTail(nodes: seq<Request>)
    requires Linked(nodes) && nodes != []
    ensures Linked(nodes[1..]) && nodes[0].next == First(nodes[1..])
  {
    forall i | 0 <= i < |nodes| - 1 ensures nodes[1..][i].next == At(nodes[1..], i + 1) {
      assert nodes[1..][i] == nodes[i + 1];
    }
  }

  /** Two disjoint lists become one when the last node of the first is pointed at the second. */
  lemma {:induction false} LinkedConcat(a: seq<Request>, b: seq<Request>)
    requires a != [] && Linked(b) && (forall n :: n in b ==> n !in a)
    requires forall i, j :: 0 <= i < j < |a| ==> a[i] != a[j]
    requires forall i :: 0 <= i < |a| - 1 ==> a[i].next == At(a, i + 1)
    requires a[|a| - 1].next == First(b)
    ensures Linked(a + b)
  {
    var q := a + b;
    forall i, j | 0 <= i < j < |q| ensures q[i] != q[j] {
      if j >= |a| {
        assert q[j] == b[j - |a|] && q[j] in b;
        if i >= |a| { assert q[i] == b[i - |a|]; } else { assert q[i] in a; }
      }
    }
    forall i | 0 <= i < |q| ensures q[i].next == At(q, i + 1) {
      if i < |a| { assert q[i] == a[i]; } else { assert q[i] == b[i - |a|]; }
    }
  }

  lemma {:induction false} LastOfConcat<T>(a: seq<T>, b: seq<T>)
    ensures b == [] ==> a + b == a
    ensures b != [] ==> (a + b)[|a + b| - 1] == b[|b| - 1]
  {}

  class RequestList {
    var head: Request?
    var tail: Request?
    ghost var nodes: seq<Request>
    ghost var left: seq<Exit<Request>>
    ghost var enqueued: seq<Request>

    /** Nothing is known of `tail` while the list is empty. */
    ghost predicate Valid()
      reads this, nodes
    {
      Linked(nodes) && head == First(nodes) && (nodes != [] ==> tail == nodes[|nodes| - 1])
    }

    ghost function State(): Queue<Request>
      reads this
    {
      Queue(nodes, left, enqueued)
    }

    ghost function Last(): set<Request>
      reads this
    {
      if nodes == [] then {} else {nodes[|nodes| - 1]}
    }

    constructor ()
      ensures Valid() && State() == Queue([], [], [])
    {
      head, tail, nodes, left, enqueued := null, null, [], [], [];
    }

    /** The walk of `add_request` over the chain it was given. */
    method WalkToLast(request: Request, ghost chain: seq<Request>)
      requires Linked(chain) && chain != [] && request == chain[0]
      modifies `tail
      ensures tail == chain[|chain| - 1]
    {
      var walk: Request? := request;
      ghost var k := 0;
      while walk != null
        invariant 0 <= k <= |chain| && walk == At(chain, k)
        invariant k == |chain| ==> tail == chain[|chain| - 1]
        decreases |chain| - k
      {
        if walk.next == null {
          tail := walk;
        }
        walk := walk.next;
        k := k + 1;
      }
    }

    /** The chain becomes the list, or is hung on the last node. */
    method LinkChain(request: Request, ghost chain: seq<Request>)
      requires Valid() && Linked(chain) && chain != [] && request == chain[0]
      requires forall n :: n in chain ==> n !in nodes
      modifies `head, Last()
      ensures Linked(chain) && Linked(nodes + chain) && head == First(nodes + chain)
    {
      if head == null {
        head := request;
        assert nodes + chain == chain;
        return;
      }
      var last := tail;
      forall i | 0 <= i < |chain| ensures chain[i] != last {
        assert chain[i] in chain && last in nodes;
      }
      tail.next := request;
      LinkedConcat(nodes, chain);
    }

    /** `add_request` */
    method AddRequest(request: Request?, ghost chain: seq<Request>)
      requires Valid() && Linked(chain) && request == First(chain)
      requires forall n :: n in chain ==> n !in nodes
      modifies this, Last()
      ensures Valid() && State() == Step(old(State()), Add(chain))
    {
      if request != null {
        LinkChain(request, chain);
        WalkToLast(request, chain);
      }
      LastOfConcat(nodes, chain);
      Record(chain);
    }

    ghost method Record(chain: seq<Request>)
      requires Linked(nodes + chain) && head == First(nodes + chain)
      requires nodes + chain != [] ==> tail == (nodes + chain)[|nodes + chain| - 1]
      modifies `nodes, `enqueued
      ensures Valid() && State() == Step(old(State()), Add(chain))
    {
      nodes, enqueued := nodes + chain, enqueued + chain;
    }

    /** The queue's part of `send_next_request`. */
    method SendNext(disabled: bool) returns (request: Request?)
      requires Valid()
      modifies this
      ensures Valid() && State() == Step(old(State()), Send(disabled))
      ensures request == if disabled then null else First(old(nodes))
    {
      request := null;
      if disabled { return; }
      if head != null {
        LinkedTail(nodes);
        request := head;
        head := request.next;
        left, nodes := left + [Sent(nodes[0])], nodes[1..];
      }
    }

    /** `clean_request`: what it frees is the whole queue, front to back. */
    method CleanRequests() returns (freed: seq<Request>)
      requires Valid()
      modifies this
      ensures Valid() && State() == Step(old(State()), Clean)
      ensures freed == old(nodes)
    {
      freed := [];
      var request := head;
      while request != null
        invariant |freed| <= |nodes| && freed == nodes[..|freed|]
        invariant request == At(nodes, |freed|)
        decreases |nodes| - |freed|
      {
        freed := freed + [request];
        request := request.next;
      }
      head, tail := null, null;
      left, nodes := left + Exits(nodes, false), [];
    }
  }
}
