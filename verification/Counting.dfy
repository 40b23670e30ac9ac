/** How often a value stands in a sequence. */
module Counting {

  function Count<T(==)>(q: seq<T>, x: T): nat {
    if q == [] then 0 else (if q[0] == x then 1 else 0) + Count(q[1..], x)
  }

  lemma {:induction false} CountConcat<T>(a: seq<T>, b: seq<T>, x: T)
    ensures Count(a + b, x) == Count(a, x) + Count(b, x)
  {
    if a == [] {
      assert a + b == b;
    } else {
      assert (a + b)[1..] == a[1..] + b;
      CountConcat(a[1..], b, x);
    }
  }

  lemma {:induction false} CountMember<T>(q: seq<T>, x: T)
    ensures Count(q, x) > 0 <==> x in q
  {
    if q != [] { CountMember(q[1..], x); }
  }
}
