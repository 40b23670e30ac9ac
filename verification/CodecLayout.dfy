/** The bytes of a parked message, field by field. */
module CodecLayout {
  import opened Bytes
  import opened Frames
  import opened Codec

  /** A field: eight bytes of length, then its bytes. */
  predicate FieldIs(data: seq<byte>, at: nat, field: seq<byte>) {
    && at + 8 + |field| <= |data|
    && data[at..at + 8] == Word(|field|) && data[at + 8..at + 8 + |field|] == field
  }

  lemma {:induction false} FrameIsField(data: seq<byte>, at: nat, field: seq<byte>)
    requires at + 8 + |field| <= |data| && data[at..at + 8 + |field|] == Frame(field)
    ensures FieldIs(data, at, field)
  {
    var f := data[at..at + 8 + |field|];
    assert data[at..at + 8] == f[..8] && data[at + 8..at + 8 + |field|] == f[8..];
  }

  lemma {:induction false} StringsInOrder(s: seq<byte>, e: seq<byte>, u: seq<byte>, p: seq<byte>, t: seq<byte>,
                                          rest: seq<byte>)
    requires s == Frame(e) + Frame(u) + Frame(p) + Frame(t) + rest
    ensures var i1 := 8 + |e|; var i2 := i1 + 8 + |u|; var i3 := i2 + 8 + |p|; var i4 := i3 + 8 + |t|;
            && FieldIs(s, 0, e) && FieldIs(s, i1, u) && FieldIs(s, i2, p) && FieldIs(s, i3, t) && s[i4..] == rest
  {
    var i1 := 8 + |e|;
    var i2 := i1 + 8 + |u|;
    var i3 := i2 + 8 + |p|;
    var i4 := i3 + 8 + |t|;
    Slices(s, Frame(e), Frame(u), Frame(p), Frame(t), rest);
    FrameIsField(s, 0, e);
    FrameIsField(s, i1, u);
    FrameIsField(s, i2, p);
    FrameIsField(s, i3, t);
  }

  lemma {:induction false} Slices(s: seq<byte>, a: seq<byte>, b: seq<byte>, c: seq<byte>, d: seq<byte>, rest: seq<byte>)
    requires s == a + b + c + d + rest
    ensures var i := |a| + |b|; var j := i + |c|; var k := j + |d|;
            s[0..|a|] == a && s[|a|..i] == b && s[i..j] == c && s[j..k] == d && s[k..] == rest
  {}

  lemma {:induction false} TailInOrder(rest: seq<byte>, flag: byte, y: seq<byte>, c: seq<byte>)
    requires rest == [flag] + Frame(y) + Frame(c)
    ensures |rest| == 1 + 8 + |y| + 8 + |c| && rest[0] == flag
    ensures FieldIs(rest, 1, y) && FieldIs(rest, 9 + |y|, c)
  {
    assert rest[1..9 + |y|] == Frame(y) && rest[9 + |y|..] == Frame(c);
    assert rest[9 + |y|..17 + |y| + |c|] == rest[9 + |y|..];
    FrameIsField(rest, 1, y);
    FrameIsField(rest, 9 + |y|, c);
  }

  lemma {:induction false} FieldMoves(s: seq<byte>, at: nat, rest: seq<byte>, i: nat, field: seq<byte>)
    requires at <= |s| && rest == s[at..] && FieldIs(rest, i, field)
    ensures FieldIs(s, at + i, field)
  {
    assert rest[i..i + 8] == s[at + i..at + i + 8];
    assert rest[i + 8..i + 8 + |field|] == s[at + i + 8..at + i + 8 + |field|];
  }

  /** Endpoint, user, password, topic; the retain flag in one byte; payload, certificate path. */
  lemma {:induction false} FieldsInOrder(m: Message)
    ensures var s := Serialize(m);
            var i1 := 8 + |BytesOf(m.endpoint)|;
            var i2 := i1 + 8 + |BytesOf(m.user)|;
            var i3 := i2 + 8 + |BytesOf(m.password)|;
            var i4 := i3 + 8 + |BytesOf(m.topic)|;
            var i5 := i4 + 9 + |BytesOf(m.payload)|;
            && |s| == i5 + 8 + |BytesOf(m.certfile)|
            && FieldIs(s, 0, BytesOf(m.endpoint)) && FieldIs(s, i1, BytesOf(m.user))
            && FieldIs(s, i2, BytesOf(m.password)) && FieldIs(s, i3, BytesOf(m.topic))
            && s[i4] == m.retain
            && FieldIs(s, i4 + 1, BytesOf(m.payload)) && FieldIs(s, i5, BytesOf(m.certfile))
  {
    var s, y, c := Serialize(m), BytesOf(m.payload), BytesOf(m.certfile);
    var e, u, p, t := BytesOf(m.endpoint), BytesOf(m.user), BytesOf(m.password), BytesOf(m.topic);
    var i4, rest := 32 + |e| + |u| + |p| + |t|, [m.retain] + Frame(y) + Frame(c);
    Together(Frame(e) + Frame(u) + Frame(p) + Frame(t), [m.retain], Frame(y), Frame(c));
    StringsInOrder(s, e, u, p, t, rest);
    TailInOrder(rest, m.retain, y, c);
    FieldMoves(s, i4, rest, 1, y);
    FieldMoves(s, i4, rest, 9 + |y|, c);
  }

  lemma {:induction false} Together(a: seq<byte>, b: seq<byte>, c: seq<byte>, d: seq<byte>)
    ensures a + b + c + d == a + (b + c + d)
  {}
}
