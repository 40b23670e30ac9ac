/** The codec as the code runs it: a buffer filled, and read, at a moving index. */
module CodecBuffers {
  import opened Bytes
  import opened Frames
  import R = Ring
  import opened Codec

  method MemCpy(dst: array<byte>, at: nat, src: seq<byte>)
    requires at + |src| <= dst.Length
    modifies dst
    ensures dst[..at + |src|] == old(dst[..at]) + src
  {
    for i := 0 to |src|
      invariant dst[..at] == old(dst[..at])
      invariant dst[at..at + i] == src[..i]
    {
      dst[at + i] := src[i];
      assert dst[at..at + i + 1] == dst[at..at + i] + [src[i]];
    }
    assert dst[..at + |src|] == dst[..at] + dst[at..at + |src|];
  }

  method PutField(out: array<byte>, idx: nat, s: seq<byte>) returns (next: nat)
    requires idx + WORD + |s| <= out.Length
    modifies out
    ensures next == idx + WORD + |s|
    ensures out[..next] == old(out[..idx]) + Frame(s)
  {
    MemCpy(out, idx, Word(|s|));
    next := idx + WORD;
    MemCpy(out, next, s);
    next := next + |s|;
    assert old(out[..idx]) + Word(|s|) + s == old(out[..idx]) + Frame(s);
  }

  /** `serializeMsg` */
  method SerializeMsg(m: Message) returns (out: array<byte>, idx: nat)
    requires m.endpoint.Str? && m.user.Str? && m.password.Str? && m.topic.Str?
    ensures fresh(out) && out[..] == Serialize(m)
    ensures idx == out.Length == MessageLen(m)
  {
    out := new byte[MessageLen(m)];
    idx := PutField(out, 0, m.endpoint.bytes);
    assert out[..idx] == Frame(m.endpoint.bytes);
    idx := PutField(out, idx, m.user.bytes);
    idx := PutField(out, idx, m.password.bytes);
    idx := PutField(out, idx, m.topic.bytes);
    MemCpy(out, idx, [m.retain]);
    idx := idx + 1;
    idx := PutField(out, idx, BytesOf(m.payload));
    idx := PutField(out, idx, BytesOf(m.certfile));
    assert out[..] == out[..idx];
  }

  method GetLen(data: array<byte>, idx: nat) returns (len: nat, next: nat)
    requires FieldAt(data[..], idx)
    ensures len == FieldLen(data[..], idx) && next == idx + WORD
  {
    len := Value(data[idx..idx + WORD]);
    assert data[..][idx..idx + WORD] == data[idx..idx + WORD];
    next := idx + WORD;
  }

  method GetString(data: array<byte>, idx: nat) returns (s: Ptr, next: nat)
    requires FieldAt(data[..], idx)
    ensures s == StringAt(data[..], idx) && next == FieldEnd(data[..], idx)
  {
    var len, at := GetLen(data, idx);
    ToIntBound(len + 1);
    s := AsCString(ByteCopy(data[..][at..], R.ToInt(len + 1), true));
    next := at + len;
  }

  method GetBlob(data: array<byte>, idx: nat) returns (s: Ptr, next: nat)
    requires FieldAt(data[..], idx)
    ensures s == BlobAt(data[..], idx) && next == FieldEnd(data[..], idx)
  {
    var len, at := GetLen(data, idx);
    ToIntBound(len);
    s := ByteCopy(data[..][at..], R.ToInt(len), false);
    next := at + len;
  }

  method GetCertfile(data: array<byte>, idx: nat) returns (s: Ptr)
    requires FieldAt(data[..], idx)
    ensures s == if FieldLen(data[..], idx) > 0 then StringAt(data[..], idx) else Null
  {
    var len, _ := GetLen(data, idx);
    if len > 0 {
      var path, next := GetString(data, idx);
      s := path;
    } else {
      s := Null;
    }
  }

  /** Whether a field that the reader is about to copy lies inside the buffer. */
  method HasField(data: array<byte>, idx: nat) returns (inside: bool)
    ensures inside <==> FieldAt(data[..], idx)
  {
    if idx + WORD > data.Length {
      return false;
    }
    var len := Value(data[idx..idx + WORD]);
    assert data[..][idx..idx + WORD] == data[idx..idx + WORD];
    inside := idx + WORD + len <= data.Length;
  }

  ghost predicate Prefix(data: seq<byte>, i1: nat, i2: nat, i3: nat, i4: nat) {
    && FieldAt(data, 0) && FieldEnd(data, 0) == i1 && FieldAt(data, i1) && FieldEnd(data, i1) == i2
    && FieldAt(data, i2) && FieldEnd(data, i2) == i3 && FieldAt(data, i3) && FieldEnd(data, i3) == i4
  }

  /** The four strings, unless one of them runs past the buffer. */
  method GetStrings(data: array<byte>)
    returns (endpoint: Ptr, user: Ptr, password: Ptr, topic: Ptr, idx: nat, inside: bool,
             ghost i1: nat, ghost i2: nat, ghost i3: nat)
    ensures inside ==>
              && Prefix(data[..], i1, i2, i3, idx)
              && endpoint == StringAt(data[..], 0) && user == StringAt(data[..], i1)
              && password == StringAt(data[..], i2) && topic == StringAt(data[..], i3)
    ensures !inside ==> Deserialize(data[..]) == OutOfBounds
  {
    endpoint, user, password, topic, idx := Null, Null, Null, Null, 0;
    i1, i2, i3 := 0, 0, 0;
    inside := HasField(data, idx);
    if !inside { return; }
    endpoint, idx := GetString(data, idx);
    i1 := idx;
    inside := HasField(data, idx);
    if !inside { return; }
    user, idx := GetString(data, idx);
    i2 := idx;
    inside := HasField(data, idx);
    if !inside { return; }
    password, idx := GetString(data, idx);
    i3 := idx;
    inside := HasField(data, idx);
    if !inside { return; }
    topic, idx := GetString(data, idx);
  }

  lemma {:induction false} TailRunsOut(data: seq<byte>, i1: nat, i2: nat, i3: nat, i4: nat)
    requires Prefix(data, i1, i2, i3, i4)
    ensures !FieldAt(data, i4 + 1) ==> Deserialize(data) == OutOfBounds
    ensures FieldAt(data, i4 + 1) && !FieldAt(data, FieldEnd(data, i4 + 1)) ==> Deserialize(data) == OutOfBounds
  {}

  /** `deserializeMsg`; where the source would read past the buffer the result is `OutOfBounds`. */
  method DeserializeMsg(data: array<byte>) returns (p: Parsed)
    ensures p == Deserialize(data[..])
  {
    var endpoint, user, password, topic, idx, inside, i1, i2, i3 := GetStrings(data);
    if !inside { return OutOfBounds; }
    TailRunsOut(data[..], i1, i2, i3, idx);
    var retain := RetainAt(data[..], idx);
    inside := HasField(data, idx + 1);
    if !inside { return OutOfBounds; }
    var payload, next := GetBlob(data, idx + 1);
    inside := HasField(data, next);
    if !inside { return OutOfBounds; }
    var certfile := GetCertfile(data, next);
    var msg := Message(endpoint, user, password, topic, retain, payload, certfile);
    Walk(data[..], msg, i1, i2, i3, idx, next);
    return Parsed(msg);
  }
}
