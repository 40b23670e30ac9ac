/** Records as they lie in the file: an 8-byte length followed by the payload. */
module Frames {
  import opened Bytes

  type Record = seq<byte>

  function Frame(r: Record): (s: seq<byte>)
    ensures |s| == WORD + |r|
  {
    Word(|r|) + r
  }

  /** The bytes a run of records occupies. */
  function Flat(q: seq<Record>): seq<byte> {
    if q == [] then [] else Frame(q[0]) + Flat(q[1..])
  }

  /** Reads back records until the bytes run out. */
  function Parse(s: seq<byte>): seq<Record>
    decreases |s|
  {
    if |s| < WORD then [] else
    var n := Value(s[..WORD]);
    if WORD + n > |s| then [] else [s[WORD..WORD + n]] + Parse(s[WORD + n..])
  }

  function Size(q: seq<Record>): nat {
    if q == [] then 0 else WORD + |q[0]| + Size(q[1..])
  }

  /** What `putRingBuFiRecord` lets into the file. */
  ghost predicate Storable(q: seq<Record>) {
    forall r :: r in q ==> 1 <= |r| < OFFSET_LIMIT
  }

  lemma {:induction false} FlatSize(q: seq<Record>)
    ensures |Flat(q)| == Size(q)
  {
    if q != [] { FlatSize(q[1..]); }
  }

  lemma {:induction false} FlatConcat(a: seq<Record>, b: seq<Record>)
    ensures Flat(a + b) == Flat(a) + Flat(b)
    ensures Size(a + b) == Size(a) + Size(b)
  {
    if a == [] {
      assert a + b == b;
    } else {
      assert (a + b)[1..] == a[1..] + b;
      FlatConcat(a[1..], b);
    }
  }

  lemma {:induction false} SizeOfOne(r: Record)
    ensures Flat([r]) == Frame(r) && Size([r]) == WORD + |r|
  {
    assert [r][1..] == [];
    assert Flat([r]) == Frame(r) + [];
  }

  lemma {:induction false} ParseFlat(q: seq<Record>)
    requires Storable(q)
    ensures Parse(Flat(q)) == q
  {
    if q != [] {
      var s := Flat(q);
      assert s[..WORD] == Word(|q[0]|);
      assert q[0] in q;
      WordRoundTrip(|q[0]|);
      assert s[WORD..WORD + |q[0]|] == q[0];
      assert s[WORD + |q[0]|..] == Flat(q[1..]);
      assert forall r :: r in q[1..] ==> r in q;
      ParseFlat(q[1..]);
    }
  }

  lemma {:induction false} SizeMonotone(q: seq<Record>, i: nat, j: nat)
    requires i <= j <= |q|
    ensures Size(q[..i]) + WORD * (j - i) <= Size(q[..j]) <= Size(q)
    ensures Size(q[..j]) + Size(q[j..]) == Size(q)
  {
    assert q == q[..j] + q[j..];
    FlatConcat(q[..j], q[j..]);
    assert q[..j] == q[..i] + q[i..j];
    FlatConcat(q[..i], q[i..j]);
    SizeAtLeast(q[i..j]);
  }

  lemma {:induction false} SizeAtLeast(q: seq<Record>)
    ensures Size(q) >= WORD * |q|
  {
    if q != [] { SizeAtLeast(q[1..]); }
  }

  /** How many of the oldest records must go before `freed` reaches `want`. */
  function Cut(q: seq<Record>, freed: nat, want: nat): (k: nat)
    ensures k <= |q|
  {
    if freed >= want || q == [] then 0 else 1 + Cut(q[1..], freed + WORD + |q[0]|, want)
  }

  lemma {:induction false} CutIsLeast(q: seq<Record>, freed: nat, want: nat)
    ensures var k := Cut(q, freed, want);
            && (k == |q| || freed + Size(q[..k]) >= want)
            && (freed + Size(q) >= want ==> freed + Size(q[..k]) >= want)
            && forall j :: 0 <= j < k ==> freed + Size(q[..j]) < want
  {
    var k := Cut(q, freed, want);
    if freed >= want || q == [] {
      assert q[..k] == [];
      assert q == [] ==> Size(q) == 0;
    } else {
      var freed' := freed + WORD + |q[0]|;
      CutIsLeast(q[1..], freed', want);
      assert q[..k][1..] == q[1..][..k - 1];
      forall j | 0 <= j < k ensures freed + Size(q[..j]) < want {
        if j > 0 { assert q[..j][1..] == q[1..][..j - 1]; }
      }
    }
  }

  /** The bytes those records occupy. */
  function CutSize(q: seq<Record>, freed: nat, want: nat): nat {
    if freed >= want || q == [] then 0
    else WORD + |q[0]| + CutSize(q[1..], freed + WORD + |q[0]|, want)
  }

  lemma {:induction false} CutSizeIsSize(q: seq<Record>, freed: nat, want: nat)
    ensures CutSize(q, freed, want) == Size(q[..Cut(q, freed, want)])
  {
    var k := Cut(q, freed, want);
    if freed < want && q != [] {
      CutSizeIsSize(q[1..], freed + WORD + |q[0]|, want);
      assert q[..k][1..] == q[1..][..k - 1];
    }
  }

  lemma {:induction false} CutReaches(q: seq<Record>, freed: nat, want: nat)
    requires Cut(q, freed, want) < |q| || freed + Size(q) >= want
    ensures freed + Size(q[..Cut(q, freed, want)]) >= want
  {
    CutIsLeast(q, freed, want);
  }

  // ---- shapes of concatenation the proofs about queues keep meeting ----

  lemma {:induction false} DropWithin<T>(a: seq<T>, b: seq<T>, c: seq<T>, k: nat)
    requires k <= |a|
    ensures a[k..] + (b + c) == (a + b)[k..] + c
  {}

  lemma {:induction false} DropFirst<T>(a: seq<T>, b: seq<T>, c: seq<T>)
    ensures b + c + [] == (a + b)[|a|..] + c
    ensures b + c == (a + b)[|a|..] + c
  {}

  lemma {:induction false} DropAll<T>(a: seq<T>, b: seq<T>, c: seq<T>)
    ensures c + [] == (a + b)[|a| + |b|..] + c
    ensures (a + b)[|a| + |b|..] + c == c
  {}

  lemma {:induction false} NothingAfter<T>(a: seq<T>, c: seq<T>, k: nat)
    requires k <= |a|
    ensures a[k..] + c == (a + [])[k..] + c
    ensures k == |a| ==> c + [] == (a + [])[k..] + c
    ensures k == 0 ==> a + c + [] == (a + [])[k..] + c
  {
    assert a + [] == a;
  }

  lemma {:induction false} DropFront(front: seq<byte>, back: seq<byte>)
    ensures (front + back)[|front|..] == back
  {}

  /** The bytes behind a cut still spell the records that are left. */
  lemma {:induction false} FlatCut(file: seq<byte>, lo: nat, hi: nat, q: seq<Record>, k: nat)
    requires lo <= hi <= |file| && file[lo..hi] == Flat(q) && k <= |q|
    ensures lo + Size(q[..k]) <= hi && Size(q) == hi - lo
    ensures file[lo + Size(q[..k])..hi] == Flat(q[k..])
    ensures k < |q| ==> lo + Size(q[..k]) < hi
  {
    var front, back := Flat(q[..k]), Flat(q[k..]);
    assert Flat(q) == front + back && Size(q) == Size(q[..k]) + Size(q[k..]) by {
      assert q == q[..k] + q[k..];
      FlatConcat(q[..k], q[k..]);
    }
    assert |Flat(q)| == Size(q) && |front| == Size(q[..k]) by {
      FlatSize(q);
      FlatSize(q[..k]);
    }
    SizeAtLeast(q[k..]);
    DropFront(front, back);
    assert file[lo..hi][|front|..] == file[lo + |front|..hi];
  }
}
