/** The polling schedule: policies in a list, those that are due taken off the front and put back later. */
module Scheduler {
  import opened Counting

  datatype Policy = Policy(id: nat, interval: int, nextRun: int)

  predicate Due(p: Policy, now: int) { p.nextRun <= now }

  predicate Sorted(q: seq<Policy>) {
    forall i, j :: 0 <= i < j < |q| ==> q[i].nextRun <= q[j].nextRun
  }

  /** Where `insert_slave_policy` stops: at the first policy that does not run earlier. */
  function Spot(q: seq<Policy>, nextRun: int): (i: nat)
    ensures i <= |q|
    ensures forall j :: 0 <= j < i ==> q[j].nextRun < nextRun
    ensures i < |q| ==> q[i].nextRun >= nextRun
  {
    if q == [] || q[0].nextRun >= nextRun then 0 else 1 + Spot(q[1..], nextRun)
  }

  function Insert(q: seq<Policy>, p: Policy): (r: seq<Policy>)
    ensures |r| == |q| + 1
  {
    var i := Spot(q, p.nextRun);
    q[..i] + [p] + q[i..]
  }

  function Rescheduled(p: Policy, time: int): Policy { p.(nextRun := p.interval + time) }

  /** The head is taken off, run, and put back for its next time; `time` is the clock as it is then. */
  function Turn(q: seq<Policy>, time: int): (r: seq<Policy>)
    requires q != []
    ensures |r| == |q|
  {
    Insert(q[1..], Rescheduled(q[0], time))
  }

  /** How many policies at the front are due. */
  function DueFront(q: seq<Policy>, now: int): (d: nat)
    ensures d <= |q|
    ensures forall i :: 0 <= i < d ==> Due(q[i], now)
    ensures d < |q| ==> !Due(q[d], now)
  {
    if q == [] || !Due(q[0], now) then 0 else 1 + DueFront(q[1..], now)
  }

  lemma {:induction false} DueFrontIs(q: seq<Policy>, now: int, d: nat)
    requires d <= |q| && (forall i :: 0 <= i < d ==> Due(q[i], now)) && (d < |q| ==> !Due(q[d], now))
    ensures DueFront(q, now) == d
  {
    if d > 0 { DueFrontIs(q[1..], now, d - 1); }
  }

  /** A policy that is put back for later lands behind everything that is due. */
  lemma {:induction false} TurnShortens(q: seq<Policy>, now: int, time: int)
    requires DueFront(q, now) > 0 && q[0].interval + time > now
    ensures var d, t := DueFront(q, now), Turn(q, time);
            DueFront(t, now) == d - 1 && t[..d - 1] == q[1..d]
  {
    var d, rest, p := DueFront(q, now) - 1, q[1..], Rescheduled(q[0], time);
    var i := Spot(rest, p.nextRun);
    assert forall j :: 0 <= j < d ==> rest[j] == q[j + 1] && Due(rest[j], now);
    DueFrontIs(Turn(q, time), now, d);
  }

  /** `clock(k)` is what the clock shows at the `k`-th execution; each due policy at the front, when its turn
      comes, is put back for later than `now`. */
  ghost predicate PutBack(q: seq<Policy>, now: int, clock: nat -> int, k: nat) {
    forall i :: 0 <= i < DueFront(q, now) ==> q[i].interval + clock(k + i) > now
  }

  ghost predicate NeverBehind(clock: nat -> int, now: int) {
    forall k :: clock(k) >= now
  }

  ghost predicate Repeating(q: seq<Policy>, now: int) {
    forall i :: 0 <= i < DueFront(q, now) ==> q[i].interval >= 1
  }

  /** As they are when the clock does not go back and every interval is at least a second. */
  lemma {:induction false} RepeatingPutsBack(q: seq<Policy>, now: int, clock: nat -> int, k: nat)
    requires NeverBehind(clock, now) && Repeating(q, now)
    ensures PutBack(q, now, clock, k)
  {}

  /** The list after `n` turns of the due loop, the first of them being the `k`-th execution. */
  function After(q: seq<Policy>, clock: nat -> int, k: nat, n: nat): (r: seq<Policy>)
    requires q != []
    ensures |r| == |q|
    decreases n
  {
    if n == 0 then q else After(Turn(q, clock(k)), clock, k + 1, n - 1)
  }

  /** The policies the first `n` turns run. */
  function Ran(q: seq<Policy>, clock: nat -> int, k: nat, n: nat): (r: seq<Policy>)
    requires q != []
    ensures |r| == n
    decreases n
  {
    if n == 0 then [] else [q[0]] + Ran(Turn(q, clock(k)), clock, k + 1, n - 1)
  }

  lemma {:induction false} StillPutBack(q: seq<Policy>, now: int, clock: nat -> int, k: nat)
    requires DueFront(q, now) > 0 && q[0].interval + clock(k) > now
    ensures PutBack(Turn(q, clock(k)), now, clock, k + 1) <==> PutBack(q, now, clock, k)
  {
    var d, t := DueFront(q, now), Turn(q, clock(k));
    TurnShortens(q, now, clock(k));
    assert forall i :: 0 <= i < d - 1 ==> t[i] == t[..d - 1][i] == q[i + 1];
    if PutBack(q, now, clock, k) {
      forall i | 0 <= i < d - 1 ensures t[i].interval + clock(k + 1 + i) > now {
        assert q[i + 1].interval + clock(k + (i + 1)) > now;
      }
    }
    if PutBack(t, now, clock, k + 1) {
      forall i | 0 <= i < d ensures q[i].interval + clock(k + i) > now {
        if i > 0 { assert t[i - 1].interval + clock(k + 1 + (i - 1)) > now; }
      }
    }
  }

  lemma {:induction false} TurnMovesUp(q: seq<Policy>, now: int, time: int, n: nat)
    requires 0 < n <= DueFront(q, now) && q[0].interval + time > now
    ensures DueFront(Turn(q, time), now) == DueFront(q, now) - 1 && Turn(q, time)[..n - 1] == q[1..n]
  {
    var d, t := DueFront(q, now), Turn(q, time);
    TurnShortens(q, now, time);
    assert t[..n - 1] == t[..d - 1][..n - 1] == q[1..d][..n - 1] == q[1..n];
  }

  /** The loop runs the due policies at the front of the list, each once and in their order. */
  lemma {:induction false} RunsTheFront(q: seq<Policy>, now: int, clock: nat -> int, k: nat, n: nat)
    requires q != [] && PutBack(q, now, clock, k) && n <= DueFront(q, now)
    ensures Ran(q, clock, k, n) == q[..n]
    ensures DueFront(After(q, clock, k, n), now) == DueFront(q, now) - n
    decreases n
  {
    if n > 0 {
      assert q[0].interval + clock(k + 0) > now;
      TurnMovesUp(q, now, clock(k), n);
      StillPutBack(q, now, clock, k);
      RunsTheFront(Turn(q, clock(k)), now, clock, k + 1, n - 1);
      assert [q[0]] + q[1..n] == q[..n];
    }
  }

  // ---- what the list holds ----

  lemma {:induction false} CountInsert(q: seq<Policy>, x: Policy, p: Policy)
    ensures Count(Insert(q, x), p) == Count(q, p) + if x == p then 1 else 0
  {
    var i := Spot(q, x.nextRun);
    CountConcat(q[..i], [x], p);
    CountConcat(q[..i] + [x], q[i..], p);
    CountConcat(q[..i], q[i..], p);
    assert q[..i] + q[i..] == q;
  }

  /** The policies with their next times, in the order they were run. */
  function Renewed(q: seq<Policy>, clock: nat -> int, k: nat): (r: seq<Policy>)
    ensures |r| == |q|
  {
    if q == [] then [] else [Rescheduled(q[0], clock(k))] + Renewed(q[1..], clock, k + 1)
  }

  lemma {:induction false} SplitCount(q: seq<Policy>, n: nat, p: Policy)
    requires n <= |q|
    ensures Count(q, p) == Count(q[..n], p) + Count(q[n..], p)
  {
    CountConcat(q[..n], q[n..], p);
    assert q[..n] + q[n..] == q;
  }

  /** What one turn does behind the policies that are still to be run. */
  lemma {:induction false} TurnCounts(q: seq<Policy>, now: int, time: int, n: nat, p: Policy)
    requires 0 < n <= DueFront(q, now) && q[0].interval + time > now
    ensures var t := Turn(q, time);
            Count(t[n - 1..], p) == Count(q[n..], p) + if Rescheduled(q[0], time) == p then 1 else 0
  {
    var rest, t := q[1..], Turn(q, time);
    TurnMovesUp(q, now, time, n);
    CountInsert(rest, Rescheduled(q[0], time), p);
    SplitCount(t, n - 1, p);
    SplitCount(rest, n - 1, p);
    assert rest[..n - 1] == q[1..n] && rest[n - 1..] == q[n..];
  }

  /** After the pass the list holds what was not run, as it was, and what was run, with its next time set from
      the clock at its own execution; nothing is lost and nothing is there twice. */
  lemma {:induction false} KeepsPolicies(q: seq<Policy>, now: int, clock: nat -> int, k: nat, n: nat, p: Policy)
    requires q != [] && PutBack(q, now, clock, k) && n <= DueFront(q, now)
    ensures Count(After(q, clock, k, n), p) == Count(q[n..], p) + Count(Renewed(q[..n], clock, k), p)
    decreases n
  {
    if n == 0 {
      assert q[0..] == q;
    } else {
      assert q[0].interval + clock(k + 0) > now;
      StillPutBack(q, now, clock, k);
      TurnMovesUp(q, now, clock(k), n);
      TurnCounts(q, now, clock(k), n, p);
      KeepsPolicies(Turn(q, clock(k)), now, clock, k + 1, n - 1, p);
      RenewedFirst(q[..n], clock, k, p);
      assert q[..n][1..] == q[1..n];
    }
  }

  lemma {:induction false} RenewedFirst(q: seq<Policy>, clock: nat -> int, k: nat, p: Policy)
    requires q != []
    ensures Count(Renewed(q, clock, k), p)
            == (if Rescheduled(q[0], clock(k)) == p then 1 else 0) + Count(Renewed(q[1..], clock, k + 1), p)
  {
    assert Renewed(q, clock, k)[1..] == Renewed(q[1..], clock, k + 1);
  }

  lemma {:induction false} RenewedIsLater(q: seq<Policy>, now: int, clock: nat -> int, k: nat)
    requires forall i :: 0 <= i < |q| ==> q[i].interval + clock(k + i) > now
    ensures forall p :: p in Renewed(q, clock, k) ==> !Due(p, now)
  {
    if q != [] {
      assert q[0].interval + clock(k + 0) > now;
      forall i | 0 <= i < |q| - 1 ensures q[1..][i].interval + clock(k + 1 + i) > now {
        assert q[i + 1].interval + clock(k + (i + 1)) > now;
      }
      RenewedIsLater(q[1..], now, clock, k + 1);
    }
  }

  /** A pass leaves nothing due exactly when no due policy stood behind one that was not. */
  lemma {:induction false} LeavesNothingDue(q: seq<Policy>, now: int, clock: nat -> int, k: nat)
    requires q != [] && PutBack(q, now, clock, k)
    ensures var d := DueFront(q, now);
            (forall p :: p in After(q, clock, k, d) ==> !Due(p, now)) <==> (forall p :: p in q[d..] ==> !Due(p, now))
  {
    var d := DueFront(q, now);
    RenewedIsLater(q[..d], now, clock, k);
    forall p | Due(p, now) ensures p in After(q, clock, k, d) <==> p in q[d..] {
      KeepsPolicies(q, now, clock, k, d, p);
      CountMember(After(q, clock, k, d), p);
      CountMember(q[d..], p);
      CountMember(Renewed(q[..d], clock, k), p);
    }
  }

  /** A policy whatever its next time. */
  function Bare(p: Policy): Policy { p.(nextRun := 0) }

  function Bares(q: seq<Policy>): (r: seq<Policy>)
    ensures |r| == |q|
  {
    if q == [] then [] else [Bare(q[0])] + Bares(q[1..])
  }

  lemma {:induction false} BaresConcat(a: seq<Policy>, b: seq<Policy>)
    ensures Bares(a + b) == Bares(a) + Bares(b)
  {
    if a == [] {
      assert a + b == b;
    } else {
      assert (a + b)[1..] == a[1..] + b;
      BaresConcat(a[1..], b);
    }
  }

  lemma {:induction false} TurnKeepsEach(q: seq<Policy>, time: int, p: Policy)
    requires q != []
    ensures Count(Bares(Turn(q, time)), p) == Count(Bares(q), p)
  {
    var rest, x := q[1..], Rescheduled(q[0], time);
    var i := Spot(rest, x.nextRun);
    BaresConcat(rest[..i] + [x], rest[i..]);
    BaresConcat(rest[..i], [x]);
    BaresConcat(rest[..i], rest[i..]);
    assert rest[..i] + rest[i..] == rest && [x][1..] == [] && Bares([x]) == [Bare(x)];
    CountConcat(Bares(rest[..i]) + [Bare(x)], Bares(rest[i..]), p);
    CountConcat(Bares(rest[..i]), [Bare(x)], p);
    CountConcat(Bares(rest[..i]), Bares(rest[i..]), p);
    CountConcat([Bare(q[0])], Bares(rest), p);
  }

  /** However often the loop turns, on any list and any clock, no policy is lost, doubled or given another
      interval. */
  lemma {:induction false} KeepsEach(q: seq<Policy>, clock: nat -> int, k: nat, n: nat, p: Policy)
    requires q != []
    ensures Count(Bares(After(q, clock, k, n)), p) == Count(Bares(q), p)
    decreases n
  {
    if n > 0 {
      TurnKeepsEach(q, clock(k), p);
      KeepsEach(Turn(q, clock(k)), clock, k + 1, n - 1, p);
    }
  }

  // ---- a list in order ----

  lemma {:induction false} InsertSorts(q: seq<Policy>, p: Policy)
    requires Sorted(q)
    ensures Sorted(Insert(q, p))
  {}

  lemma {:induction false} AfterIsSorted(q: seq<Policy>, clock: nat -> int, k: nat, n: nat)
    requires q != [] && Sorted(q)
    ensures Sorted(After(q, clock, k, n))
    decreases n
  {
    if n > 0 {
      InsertSorts(q[1..], Rescheduled(q[0], clock(k)));
      AfterIsSorted(Turn(q, clock(k)), clock, k + 1, n - 1);
    }
  }

  /** On a list in order the pass runs every due policy exactly once, soonest first, and leaves the list in
      order with nothing due. */
  lemma {:induction false} SortedPass(q: seq<Policy>, now: int, clock: nat -> int, k: nat)
    requires q != [] && Sorted(q) && PutBack(q, now, clock, k)
    ensures var d, t := DueFront(q, now), After(q, clock, k, DueFront(q, now));
            && Ran(q, clock, k, d) == q[..d] && (forall i :: 0 <= i < |q| ==> (Due(q[i], now) <==> i < d))
            && Sorted(t) && (forall p :: p in t ==> !Due(p, now))
  {
    RunsTheFront(q, now, clock, k, DueFront(q, now));
    AfterIsSorted(q, clock, k, DueFront(q, now));
    LeavesNothingDue(q, now, clock, k);
  }

  // ---- whether the loop ends ----

  /** What up to `n` turns of the due loop leave, which policies they run, and whether the loop is over. */
  datatype Outcome = Outcome(list: seq<Policy>, ran: seq<Policy>, over: bool)

  function Loop(q: seq<Policy>, now: int, clock: nat -> int, k: nat, n: nat): Outcome
    decreases n
  {
    if q == [] || !Due(q[0], now) then Outcome(q, [], true)
    else if n == 0 then Outcome(q, [], false)
    else
      var rest := Loop(Turn(q, clock(k)), now, clock, k + 1, n - 1);
      rest.(ran := [q[0]] + rest.ran)
  }

  /** When every due policy at the front is put back for later, the loop ends by itself. */
  lemma {:induction false} LoopEnds(q: seq<Policy>, now: int, clock: nat -> int, k: nat, n: nat)
    requires PutBack(q, now, clock, k) && n >= DueFront(q, now)
    ensures var d := DueFront(q, now);
            Loop(q, now, clock, k, n) == Outcome(if q == [] then [] else After(q, clock, k, d), q[..d], true)
    decreases n
  {
    var d := DueFront(q, now);
    if d > 0 {
      assert q[0].interval + clock(k + 0) > now;
      TurnMovesUp(q, now, clock(k), d);
      StillPutBack(q, now, clock, k);
      LoopEnds(Turn(q, clock(k)), now, clock, k + 1, n - 1);
      assert Loop(q, now, clock, k, n).list == After(q, clock, k, d);
      assert [q[0]] + q[1..d] == q[..d];
    }
  }

  lemma {:induction false} InsertedAt(q: seq<Policy>, p: Policy, i: nat)
    requires i == Spot(q, p.nextRun)
    ensures Insert(q, p)[i] == p
    ensures forall j :: 0 <= j < i ==> Insert(q, p)[j] == q[j]
    ensures forall j :: i < j <= |q| ==> Insert(q, p)[j] == q[j - 1]
  {}

  /** Where a policy goes that is put back for no later than now. */
  predicate Returns(q: seq<Policy>, t: seq<Policy>, d: nat, i: nat, p: Policy) {
    && i < d <= |q| == |t| && t[i] == p
    && (forall j :: 0 <= j < i ==> t[j] == q[j + 1]) && (forall j :: i < j < |t| ==> t[j] == q[j])
  }

  lemma {:induction false} ReturnsInFront(q: seq<Policy>, now: int, t: seq<Policy>, i: nat, p: Policy)
    requires Returns(q, t, DueFront(q, now), i, p) && Due(p, now)
    ensures DueFront(t, now) == DueFront(q, now)
  {
    DueFrontIs(t, now, DueFront(q, now));
  }

  /** It lands among those that are due. */
  lemma {:induction false} TurnReturns(q: seq<Policy>, now: int, time: int)
    requires DueFront(q, now) > 0 && q[0].interval + time <= now
    ensures var d, t, p := DueFront(q, now), Turn(q, time), Rescheduled(q[0], time);
            DueFront(t, now) == d && Returns(q, t, d, Spot(q[1..], p.nextRun), p)
  {
    var rest, p, t, d := q[1..], Rescheduled(q[0], time), Turn(q, time), DueFront(q, now);
    var i := Spot(rest, p.nextRun);
    assert d < |q| ==> rest[d - 1] == q[d];
    assert i < d;
    InsertedAt(rest, p, i);
    assert Returns(q, t, d, i, p);
    ReturnsInFront(q, now, t, i, p);
  }

  lemma {:induction false} TooFewTurns(q: seq<Policy>, now: int, clock: nat -> int, k: nat, n: nat)
    requires n < DueFront(q, now)
    ensures !Loop(q, now, clock, k, n).over
    decreases n
  {
    if n > 0 {
      if q[0].interval + clock(k) > now { TurnShortens(q, now, clock(k)); } else { TurnReturns(q, now, clock(k)); }
      TooFewTurns(Turn(q, clock(k)), now, clock, k + 1, n - 1);
    }
  }

  /** The loop is over after as many turns as there are due policies at the front exactly when each of them is put
      back for later at its turn. */
  lemma {:induction false} RunsOnceExactly(q: seq<Policy>, now: int, clock: nat -> int, k: nat)
    ensures Loop(q, now, clock, k, DueFront(q, now)).over <==> PutBack(q, now, clock, k)
    decreases DueFront(q, now)
  {
    var d := DueFront(q, now);
    if d > 0 {
      var t := Turn(q, clock(k));
      if q[0].interval + clock(k) > now {
        TurnShortens(q, now, clock(k));
        StillPutBack(q, now, clock, k);
        RunsOnceExactly(t, now, clock, k + 1);
      } else {
        TurnReturns(q, now, clock(k));
        TooFewTurns(t, now, clock, k + 1, d - 1);
        assert q[0].interval + clock(k + 0) <= now;
      }
    }
  }

  /** The clock does not go back between executions. */
  ghost predicate Forward(clock: nat -> int) {
    forall i, j :: i <= j ==> clock(i) <= clock(j)
  }

  /** At that time every due policy at the front would be put back for later. */
  ghost predicate Clears(q: seq<Policy>, now: int, time: int) {
    forall i :: 0 <= i < DueFront(q, now) ==> q[i].interval + time > now
  }

  /** Some due policy at the front has an interval of at most `c`. */
  ghost predicate Stuck(q: seq<Policy>, now: int, c: int) {
    exists i :: 0 <= i < DueFront(q, now) && q[i].interval <= c
  }

  lemma {:induction false} StillClears(q: seq<Policy>, now: int, time: int, at: int)
    requires DueFront(q, now) > 0 && Clears(q, now, time)
    ensures Clears(Turn(q, at), now, time)
  {
    var d, t := DueFront(q, now), Turn(q, at);
    if q[0].interval + at > now {
      TurnShortens(q, now, at);
      assert forall i :: 0 <= i < d - 1 ==> t[i] == t[..d - 1][i] == q[i + 1];
    } else {
      TurnReturns(q, now, at);
    }
  }

  lemma {:induction false} StillStuck(q: seq<Policy>, now: int, c: int, at: int)
    requires DueFront(q, now) > 0 && Stuck(q, now, c) && c + at <= now
    ensures Stuck(Turn(q, at), now, c)
  {
    var d, t := DueFront(q, now), Turn(q, at);
    var j :| 0 <= j < d && q[j].interval <= c;
    if q[0].interval + at > now {
      TurnShortens(q, now, at);
      assert t[j - 1] == t[..d - 1][j - 1] == q[j];
    } else {
      TurnReturns(q, now, at);
      var i := Spot(q[1..], q[0].interval + at);
      if j == 0 {
        assert t[i].interval <= c;
      } else if j <= i {
        assert t[j - 1] == q[j];
      } else {
        assert t[j] == q[j];
      }
    }
  }

  lemma {:induction false} StuckLoops(q: seq<Policy>, now: int, clock: nat -> int, k: nat, n: nat, c: int)
    requires Stuck(q, now, c) && forall K: nat :: c + clock(K) <= now
    ensures !Loop(q, now, clock, k, n).over
    decreases n
  {
    if n > 0 {
      StillStuck(q, now, c, clock(k));
      StuckLoops(Turn(q, clock(k)), now, clock, k + 1, n - 1, c);
    }
  }

  ghost predicate Least(q: seq<Policy>, d: nat, m: nat) {
    m < d <= |q| && forall i :: 0 <= i < d ==> q[m].interval <= q[i].interval
  }

  lemma {:induction false} SomeLeast(q: seq<Policy>, d: nat)
    requires 0 < d <= |q|
    ensures exists m: nat :: Least(q, d, m)
  {
    if d == 1 {
      assert Least(q, d, 0);
    } else {
      SomeLeast(q, d - 1);
      var m: nat :| Least(q, d - 1, m);
      assert Least(q, d, if q[d - 1].interval < q[m].interval then d - 1 else m);
    }
  }

  lemma {:induction false} ClearsLater(q: seq<Policy>, now: int, clock: nat -> int, k: nat, K: nat)
    requires Forward(clock) && Clears(q, now, clock(K)) && K <= k
    ensures PutBack(q, now, clock, k)
  {
    forall i | 0 <= i < DueFront(q, now) ensures q[i].interval + clock(k + i) > now {
      assert clock(K) <= clock(k + i);
    }
  }

  lemma {:induction false} EndsOnceCleared(q: seq<Policy>, now: int, clock: nat -> int, k: nat, K: nat)
    requires Forward(clock) && Clears(q, now, clock(K))
    ensures exists n: nat :: Loop(q, now, clock, k, n).over
    decreases K - k
  {
    var d := DueFront(q, now);
    if K <= k {
      ClearsLater(q, now, clock, k, K);
      LoopEnds(q, now, clock, k, d);
    } else if d > 0 {
      StillClears(q, now, clock(K), clock(k));
      EndsOnceCleared(Turn(q, clock(k)), now, clock, k + 1, K);
      var n: nat :| Loop(Turn(q, clock(k)), now, clock, k + 1, n).over;
      assert Loop(q, now, clock, k, n + 1).over;
    } else {
      assert Loop(q, now, clock, k, 0).over;
    }
  }

  lemma {:induction false} EndsOnlyWhenCleared(q: seq<Policy>, now: int, clock: nat -> int, k: nat, n: nat)
    requires Loop(q, now, clock, k, n).over
    ensures exists K: nat :: Clears(q, now, clock(K))
  {
    var d := DueFront(q, now);
    if d == 0 {
      assert Clears(q, now, clock(0));
    } else {
      SomeLeast(q, d);
      var m: nat :| Least(q, d, m);
      if K: nat :| q[m].interval + clock(K) > now {
        assert Clears(q, now, clock(K));
      } else {
        StuckLoops(q, now, clock, k, n, q[m].interval);
      }
    }
  }

  /** Under every clock that does not go back the loop ends exactly when the clock gets to where every due policy
      at the front is put back for later. */
  lemma {:induction false} EndsExactly(q: seq<Policy>, now: int, clock: nat -> int, k: nat)
    requires Forward(clock)
    ensures (exists n: nat :: Loop(q, now, clock, k, n).over) <==> (exists K: nat :: Clears(q, now, clock(K)))
  {
    if n: nat :| Loop(q, now, clock, k, n).over {
      EndsOnlyWhenCleared(q, now, clock, k, n);
    }
    if K: nat :| Clears(q, now, clock(K)) {
      EndsOnceCleared(q, now, clock, k, K);
    }
  }

  ghost predicate GetsPast(clock: nat -> int, time: int) {
    exists K: nat :: clock(K) > time
  }

  /** A clock that keeps advancing gets past every time. */
  ghost predicate Advances(clock: nat -> int) {
    forall time :: GetsPast(clock, time)
  }

  /** Under such a clock the loop always ends, whatever the intervals. */
  lemma {:induction false} EndsWhenAdvancing(q: seq<Policy>, now: int, clock: nat -> int, k: nat)
    requires Forward(clock) && Advances(clock)
    ensures exists n: nat :: Loop(q, now, clock, k, n).over
  {
    var d := DueFront(q, now);
    if d == 0 {
      assert Clears(q, now, clock(0));
    } else {
      SomeLeast(q, d);
      var m: nat :| Least(q, d, m);
      assert GetsPast(clock, now - q[m].interval);
      var K: nat :| clock(K) > now - q[m].interval;
      assert Clears(q, now, clock(K));
    }
    EndsExactly(q, now, clock, k);
  }

  /** The clock still shows the time the pass began at. */
  ghost predicate Stands(clock: nat -> int, now: int) {
    forall k :: clock(k) == now
  }

  /** While the clock stands it ends exactly when every due policy at the front has an interval of at least a
      second. */
  lemma {:induction false} EndsWhenRepeating(q: seq<Policy>, now: int, clock: nat -> int, k: nat)
    requires Stands(clock, now)
    ensures (exists n: nat :: Loop(q, now, clock, k, n).over) <==> Repeating(q, now)
  {
    EndsExactly(q, now, clock, k);
    assert clock(0) == now;
  }

  // ---- the same, spelled out ----

  /** The head goes behind every policy that runs earlier, with its next time an interval after `time`. */
  ghost predicate PutAt(q: seq<Policy>, t: seq<Policy>, i: nat, at: int) {
    && i < |q| && t == q[1..i + 1] + [q[0].(nextRun := at)] + q[i + 1..]
    && (forall j :: 1 <= j <= i ==> q[j].nextRun < at) && (i + 1 < |q| ==> q[i + 1].nextRun >= at)
  }

  lemma {:induction false} TurnExactly(q: seq<Policy>, time: int, at: int)
    requires q != [] && at == q[0].interval + time
    ensures exists i: nat :: PutAt(q, Turn(q, time), i, at)
  {
    var rest := q[1..];
    var i := Spot(rest, at);
    assert rest[..i] == q[1..i + 1] && rest[i..] == q[i + 1..];
    assert forall j :: 1 <= j <= i ==> q[j] == rest[j - 1];
    assert PutAt(q, Turn(q, time), i, at);
  }

  lemma {:induction false} RenewedTimes(q: seq<Policy>, clock: nat -> int, k: nat, j: nat)
    requires j < |q|
    ensures Renewed(q, clock, k)[j] == q[j].(nextRun := q[j].interval + clock(k + j))
  {
    if j > 0 { RenewedTimes(q[1..], clock, k + 1, j - 1); }
  }

  /** Whatever the list and the clock, the loop runs only policies whose time has come, and is over only when the list
      is empty or its head has still to wait. */
  lemma {:induction false} RunsOnlyDue(q: seq<Policy>, now: int, clock: nat -> int, k: nat, n: nat)
    ensures var o := Loop(q, now, clock, k, n);
            && (forall p :: p in o.ran ==> p.nextRun <= now)
            && (o.over <==> o.list == [] || o.list[0].nextRun > now) && |o.ran| <= n && (!o.over ==> |o.ran| == n)
    decreases n
  {
    if q != [] && Due(q[0], now) && n > 0 { RunsOnlyDue(Turn(q, clock(k)), now, clock, k + 1, n - 1); }
  }

  // ---- the two faults ----

  /** One policy with interval 0: however many turns, the loop is not over. */
  lemma {:induction false} ZeroIntervalLoops(n: nat)
    ensures !Loop([Policy(0, 0, 0)], 0, (k: nat) => 0, 0, n).over
  {
    var q := [Policy(0, 0, 0)];
    DueFrontIs(q, 0, 1);
    assert q[0].interval <= 0;
    StuckLoops(q, 0, (k: nat) => 0, 0, n, 0);
  }

  /** A list out of order: nothing is run although a policy is due. */
  lemma {:induction false} DueLeftBehind(clock: nat -> int, k: nat, n: nat)
    ensures var q := [Policy(0, 1, 10), Policy(1, 1, 0)];
            Loop(q, 5, clock, k, n) == Outcome(q, [], true) && Due(q[1], 5)
  {}

  /** The loop has run `ran` and, from `q` on, ends in `goal`. */
  ghost predicate LeadsTo(q: seq<Policy>, now: int, clock: nat -> int, k: nat, n: nat, ran: seq<Policy>,
                          goal: Outcome)
  {
    var rest := Loop(q, now, clock, k, n);
    goal == rest.(ran := ran + rest.ran)
  }

  lemma {:induction false} OneMore(q: seq<Policy>, now: int, clock: nat -> int, k: nat, n: nat, ran: seq<Policy>,
                                   goal: Outcome)
    requires LeadsTo(q, now, clock, k, n, ran, goal)
    ensures q != [] && Due(q[0], now) && n > 0 ==>
              LeadsTo(Turn(q, clock(k)), now, clock, k + 1, n - 1, ran + [q[0]], goal)
    ensures q == [] || !Due(q[0], now) || n == 0 ==> goal == Outcome(q, ran, q == [] || !Due(q[0], now))
  {
    if q != [] && Due(q[0], now) && n > 0 {
      var rest := Loop(Turn(q, clock(k)), now, clock, k + 1, n - 1);
      assert ran + ([q[0]] + rest.ran) == ran + [q[0]] + rest.ran;
    } else {
      assert ran + [] == ran;
    }
  }

  class Worker {
    var list: seq<Policy>

    constructor (loaded: seq<Policy>)
      ensures list == loaded
    {
      list := loaded;
    }

    /** `insert_slave_policy` */
    method InsertSlavePolicy(p: Policy)
      modifies this
      ensures list == Insert(old(list), p)
    {
      var i := 0;
      while i < |list| && list[i].nextRun < p.nextRun
        invariant i <= |list|
        invariant Spot(list, p.nextRun) == i + Spot(list[i..], p.nextRun)
      {
        assert list[i..][1..] == list[i + 1..];
        i := i + 1;
      }
      list := list[..i] + [p] + list[i..];
    }

    /** `execute_policy`, as far as the schedule goes. */
    method ExecutePolicy(p: Policy, time: int)
      modifies this
      ensures list == Insert(old(list), Rescheduled(p, time))
    {
      InsertSlavePolicy(p.(nextRun := p.interval + time));
    }

    /** The head is taken off the list and executed. */
    method RunHead(time: int) returns (p: Policy)
      requires list != []
      modifies this
      ensures p == old(list)[0] && list == Turn(old(list), time)
    {
      p := list[0];
      list := list[1..];
      ExecutePolicy(p, time);
    }

    /** The due loop of `worker_func`, or as many as `turns` turns of it. */
    method DueLoop(now: int, clock: nat -> int, turns: nat) returns (ran: seq<Policy>, over: bool)
      modifies this
      ensures Outcome(list, ran, over) == Loop(old(list), now, clock, 0, turns)
    {
      ghost var goal := Loop(list, now, clock, 0, turns);
      assert [] + goal.ran == goal.ran;
      ran := [];
      var k, left := 0, turns;
      while left > 0 && list != [] && list[0].nextRun <= now
        invariant LeadsTo(list, now, clock, k, left, ran, goal)
        decreases left
      {
        OneMore(list, now, clock, k, left, ran, goal);
        var p := RunHead(clock(k));
        k, left, ran := k + 1, left - 1, ran + [p];
      }
      over := list == [] || list[0].nextRun > now;
      OneMore(list, now, clock, k, left, ran, goal);
    }

    /** All of it, when that many turns are enough. */
    method RunDue(now: int, clock: nat -> int, turns: nat) returns (ran: seq<Policy>, over: bool)
      modifies this
      ensures Outcome(list, ran, over) == Loop(old(list), now, clock, 0, turns)
      ensures PutBack(old(list), now, clock, 0) && turns >= DueFront(old(list), now) ==>
                over && ran == old(list)[..DueFront(old(list), now)]
    {
      if PutBack(list, now, clock, 0) && turns >= DueFront(list, now) {
        LoopEnds(list, now, clock, 0, turns);
      }
      ran, over := DueLoop(now, clock, turns);
    }
  }
}
