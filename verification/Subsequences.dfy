/** One sequence inside another, in order. */
module Subsequences {

  predicate Subseq<T(==)>(a: seq<T>, b: seq<T>)
    decreases |b|
  {
    if a == [] then true
    else if b == [] then false
    else (a[0] == b[0] && Subseq(a[1..], b[1..])) || Subseq(a, b[1..])
  }

  lemma {:induction false} SubseqSame<T>(a: seq<T>)
    ensures Subseq(a, a)
    decreases |a|
  {
    if a != [] { SubseqSame(a[1..]); }
  }

  lemma {:induction false} SubseqLength<T>(a: seq<T>, b: seq<T>)
    requires Subseq(a, b)
    ensures |a| <= |b|
    ensures |a| == |b| ==> a == b
    decreases |b|
  {
    if a != [] {
      if a[0] == b[0] && Subseq(a[1..], b[1..]) {
        SubseqLength(a[1..], b[1..]);
        assert |a| == |b| ==> a == [a[0]] + a[1..] == [b[0]] + b[1..] == b;
      } else {
        SubseqLength(a, b[1..]);
      }
    }
  }

  lemma {:induction false} SubseqTail<T>(a: seq<T>, b: seq<T>)
    requires a != [] && Subseq(a, b)
    ensures Subseq(a[1..], b)
    decreases |b|
  {
    if a[0] == b[0] && Subseq(a[1..], b[1..]) {
      SubseqWeaken(a[1..], b);
    } else {
      SubseqTail(a, b[1..]);
      SubseqWeaken(a[1..], b);
    }
  }

  lemma {:induction false} SubseqWeaken<T>(a: seq<T>, b: seq<T>)
    requires b != [] && Subseq(a, b[1..])
    ensures Subseq(a, b)
  {}

  lemma {:induction false} SubseqTrans<T>(a: seq<T>, b: seq<T>, c: seq<T>)
    requires Subseq(a, b) && Subseq(b, c)
    ensures Subseq(a, c)
    decreases |c|
  {
    if a != [] {
      if b[0] == c[0] && Subseq(b[1..], c[1..]) {
        if a[0] == b[0] && Subseq(a[1..], b[1..]) {
          SubseqTrans(a[1..], b[1..], c[1..]);
        } else {
          SubseqTrans(a, b[1..], c[1..]);
        }
      } else {
        SubseqTrans(a, b, c[1..]);
      }
    }
  }

  lemma {:induction false} SubseqSuffix<T>(a: seq<T>, b: seq<T>, r: seq<T>)
    requires Subseq(a, b)
    ensures Subseq(a + r, b + r)
    decreases |b|
  {
    if b == [] {
      SubseqSame(r);
      assert a + r == r == b + r;
    } else if a == [] {
      assert [] + r == r && (b + r)[1..] == b[1..] + r;
      SubseqSuffix([], b[1..], r);
    } else {
      assert (a + r)[1..] == a[1..] + r && (b + r)[1..] == b[1..] + r;
      if a[0] == b[0] && Subseq(a[1..], b[1..]) {
        SubseqSuffix(a[1..], b[1..], r);
      } else {
        SubseqSuffix(a, b[1..], r);
      }
    }
  }

  /** Leaving out a stretch in the middle. */
  lemma {:induction false} SubseqWithout<T>(p: seq<T>, gap: seq<T>, r: seq<T>)
    ensures Subseq(p + r, p + gap + r)
    decreases |p| + |gap|
  {
    if p != [] {
      assert (p + r)[1..] == p[1..] + r && (p + gap + r)[1..] == p[1..] + gap + r;
      SubseqWithout(p[1..], gap, r);
    } else if gap != [] {
      assert [] + r == r && ([] + gap + r)[1..] == [] + gap[1..] + r;
      SubseqWithout([], gap[1..], r);
    } else {
      assert p + r == p + gap + r;
      SubseqSame(p + r);
    }
  }

  /** What losing something in the middle does to an order that held before. */
  lemma {:induction false} SubseqLose<T>(now: seq<T>, p: seq<T>, gap: seq<T>, r: seq<T>, all: seq<T>)
    requires Subseq(p + gap + r, all) && now == p + r
    ensures Subseq(now, all)
  {
    SubseqWithout(p, gap, r);
    SubseqTrans(now, p + gap + r, all);
  }

  function MapSeq<A, B>(f: A -> B, q: seq<A>): (r: seq<B>)
    ensures |r| == |q|
    ensures forall i :: 0 <= i < |q| ==> r[i] == f(q[i])
  {
    seq(|q|, i requires 0 <= i < |q| => f(q[i]))
  }

  lemma {:induction false} MapSeqConcat<A, B>(f: A -> B, a: seq<A>, b: seq<A>)
    ensures MapSeq(f, a + b) == MapSeq(f, a) + MapSeq(f, b)
  {}

  lemma {:induction false} MapSeqFirst<A, B>(f: A -> B, q: seq<A>)
    requires q != []
    ensures MapSeq(f, q) == [f(q[0])] + MapSeq(f, q[1..])
  {}

  lemma {:induction false} MapSeqDrop<A, B>(f: A -> B, q: seq<A>, k: nat)
    requires k <= |q|
    ensures MapSeq(f, q[k..]) == MapSeq(f, q)[k..]
  {}
}
