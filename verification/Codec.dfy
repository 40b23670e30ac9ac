/** The binary form in which the sender parks its messages in the ring file. */
module Codec {
  import opened Bytes
  import opened Frames
  import opened Ring

  datatype Ptr = Null | Str(bytes: seq<byte>)

  /** C strings without their terminator; `payload` comes with its own length. */
  datatype Message = Message(endpoint: Ptr, user: Ptr, password: Ptr, topic: Ptr, retain: byte,
                             payload: Ptr, certfile: Ptr)

  function BytesOf(p: Ptr): seq<byte> {
    if p.Str? then p.bytes else []
  }

  ghost predicate CString(p: Ptr) {
    p.Str? && 0 !in p.bytes && |p.bytes| < OFFSET_LIMIT
  }

  /** What `mqtt_send` queues: four strings, a payload with the length it has, perhaps a certificate path. */
  ghost predicate Sendable(m: Message) {
    && CString(m.endpoint) && CString(m.user) && CString(m.password) && CString(m.topic)
    && |BytesOf(m.payload)| < OFFSET_LIMIT
    && (m.certfile == Null || CString(m.certfile))
  }

  /** `messageLen` */
  function MessageLen(m: Message): nat {
    WORD + |BytesOf(m.endpoint)| + WORD + |BytesOf(m.user)| + WORD + |BytesOf(m.password)|
    + WORD + |BytesOf(m.topic)| + 1 + WORD + |BytesOf(m.payload)| + WORD + |BytesOf(m.certfile)|
  }

  /** `serializeMsg`: each field is its length word and its bytes, the retain flag a single byte. */
  function Serialize(m: Message): seq<byte> {
    Frame(BytesOf(m.endpoint)) + Frame(BytesOf(m.user)) + Frame(BytesOf(m.password)) + Frame(BytesOf(m.topic))
    + [m.retain] + Frame(BytesOf(m.payload)) + Frame(BytesOf(m.certfile))
  }

  lemma SerializeFits(m: Message)
    ensures |Serialize(m)| == MessageLen(m)
  {}

  /** `byte_copy` on the bytes at `src`; with `padnull` the last byte is the terminator. */
  function ByteCopy(src: seq<byte>, len: int, padnull: bool): Ptr
    requires len - (if padnull then 1 else 0) <= |src|
  {
    if len <= 0 then Null
    else if padnull then Str(src[..len - 1] + [0])
    else Str(src[..len])
  }

  /** A C string ends at its first zero byte. */
  function UpToNul(s: seq<byte>): seq<byte> {
    if s == [] || s[0] == 0 then [] else [s[0]] + UpToNul(s[1..])
  }

  function AsCString(p: Ptr): Ptr {
    if p.Str? then Str(UpToNul(p.bytes)) else Null
  }

  predicate FieldAt(data: seq<byte>, idx: nat) {
    idx + WORD <= |data| && idx + WORD + Value(data[idx..idx + WORD]) <= |data|
  }

  function FieldLen(data: seq<byte>, idx: nat): nat
    requires FieldAt(data, idx)
  {
    Value(data[idx..idx + WORD])
  }

  function FieldEnd(data: seq<byte>, idx: nat): (end: nat)
    requires FieldAt(data, idx)
    ensures idx + WORD <= end <= |data|
  {
    idx + WORD + FieldLen(data, idx)
  }

  lemma ToIntBound(v: nat)
    ensures ToInt(v) <= v
  {}

  /** A string field as the reader gets it: the length goes through a 32-bit `int`. */
  function StringAt(data: seq<byte>, idx: nat): Ptr
    requires FieldAt(data, idx)
  {
    ToIntBound(FieldLen(data, idx) + 1);
    AsCString(ByteCopy(data[idx + WORD..], ToInt(FieldLen(data, idx) + 1), true))
  }

  function BlobAt(data: seq<byte>, idx: nat): Ptr
    requires FieldAt(data, idx)
  {
    ToIntBound(FieldLen(data, idx));
    ByteCopy(data[idx + WORD..], ToInt(FieldLen(data, idx)), false)
  }

  /** The expression at line 254 adds the index to the first byte instead of reading at the index. */
  function RetainAt(data: seq<byte>, idx: nat): byte
    requires data != []
  {
    ((data[0] as nat + idx) % 256) as byte
  }

  datatype Parsed = OutOfBounds | Parsed(msg: Message)

  /** `deserializeMsg`; `OutOfBounds` stands for a read past the buffer. */
  function Deserialize(data: seq<byte>): Parsed {
    if !FieldAt(data, 0) then OutOfBounds else
    var i1 := FieldEnd(data, 0);
    if !FieldAt(data, i1) then OutOfBounds else
    var i2 := FieldEnd(data, i1);
    if !FieldAt(data, i2) then OutOfBounds else
    var i3 := FieldEnd(data, i2);
    if !FieldAt(data, i3) then OutOfBounds else
    var i4 := FieldEnd(data, i3);
    if !FieldAt(data, i4 + 1) then OutOfBounds else
    var i5 := FieldEnd(data, i4 + 1);
    if !FieldAt(data, i5) then OutOfBounds else
    Parsed(Message(StringAt(data, 0), StringAt(data, i1), StringAt(data, i2), StringAt(data, i3),
                   RetainAt(data, i4), BlobAt(data, i4 + 1),
                   if FieldLen(data, i5) > 0 then StringAt(data, i5) else Null))
  }

  // ---- what comes back ----

  /** A string of `n` bytes after its length went through an `int`. */
  function Narrowed(p: Ptr): Ptr
    requires p.Str?
  {
    var len := ToInt(|p.bytes| + 1);
    ToIntBound(|p.bytes| + 1);
    if len <= 0 then Null else Str(p.bytes[..len - 1])
  }

  function NarrowedBlob(p: Ptr): Ptr {
    var len := ToInt(|BytesOf(p)|);
    ToIntBound(|BytesOf(p)|);
    if len <= 0 then Null else Str(BytesOf(p)[..len])
  }

  /** The flag line 254 computes for a message with strings of these lengths. */
  function GarbledRetain(m: Message): byte {
    var n := |BytesOf(m.endpoint)|;
    ((n + 4 * WORD + n + |BytesOf(m.user)| + |BytesOf(m.password)| + |BytesOf(m.topic)|) % 256) as byte
  }

  function Restored(m: Message): Message
    requires m.endpoint.Str? && m.user.Str? && m.password.Str? && m.topic.Str?
  {
    Message(Narrowed(m.endpoint), Narrowed(m.user), Narrowed(m.password), Narrowed(m.topic), GarbledRetain(m),
            NarrowedBlob(m.payload),
            if BytesOf(m.certfile) == [] then Null else Narrowed(m.certfile))
  }

  /** A message with nothing for an empty payload or an empty certificate path. */
  function Normal(m: Message): Message {
    m.(payload := if BytesOf(m.payload) == [] then Null else m.payload,
       certfile := if BytesOf(m.certfile) == [] then Null else m.certfile)
  }

  predicate Short(p: Ptr) { |BytesOf(p)| < 0x7FFF_FFFF }

  predicate AllShort(m: Message) {
    && Short(m.endpoint) && Short(m.user) && Short(m.password) && Short(m.topic)
    && |BytesOf(m.payload)| < 0x8000_0000 && Short(m.certfile)
  }

  lemma {:induction false} UpToNulStops(s: seq<byte>, n: nat)
    requires n <= |s| && 0 !in s
    ensures UpToNul(s[..n] + [0]) == s[..n]
    decreases n
  {
    var t := s[..n] + [0];
    if n > 0 {
      assert t[0] == s[0] && s[0] in s;
      assert t[1..] == s[1..][..n - 1] + [0];
      assert 0 !in s[1..];
      UpToNulStops(s[1..], n - 1);
      assert s[..n] == [s[0]] + s[1..][..n - 1];
    }
  }

  /** A field reads back from wherever it stands. */
  lemma {:induction false} FieldInside(data: seq<byte>, idx: nat, s: seq<byte>)
    requires idx + WORD + |s| <= |data| && |s| < SIZE_T_LIMIT
    requires data[idx..idx + WORD + |s|] == Frame(s)
    ensures FieldAt(data, idx) && FieldLen(data, idx) == |s| && FieldEnd(data, idx) == idx + WORD + |s|
    ensures data[idx + WORD..idx + WORD + |s|] == s
  {
    var f := data[idx..idx + WORD + |s|];
    assert f[..WORD] == data[idx..idx + WORD] == Word(|s|);
    assert f[WORD..] == data[idx + WORD..idx + WORD + |s|] == s;
    WordRoundTrip(|s|);
  }

  lemma {:induction false} StringInside(data: seq<byte>, idx: nat, p: Ptr)
    requires CString(p)
    requires idx + WORD + |p.bytes| <= |data| && data[idx..idx + WORD + |p.bytes|] == Frame(p.bytes)
    ensures FieldAt(data, idx) && FieldEnd(data, idx) == idx + WORD + |p.bytes|
    ensures StringAt(data, idx) == Narrowed(p)
  {
    FieldInside(data, idx, p.bytes);
    var len := ToInt(|p.bytes| + 1);
    ToIntBound(|p.bytes| + 1);
    if len > 0 {
      var rest := data[idx + WORD..];
      assert rest[..|p.bytes|] == p.bytes;
      assert rest[..len - 1] == p.bytes[..len - 1];
      UpToNulStops(p.bytes, len - 1);
    }
  }

  lemma {:induction false} BlobInside(data: seq<byte>, idx: nat, p: Ptr)
    requires |BytesOf(p)| < OFFSET_LIMIT && idx + WORD + |BytesOf(p)| <= |data|
    requires data[idx..idx + WORD + |BytesOf(p)|] == Frame(BytesOf(p))
    ensures FieldAt(data, idx) && FieldEnd(data, idx) == idx + WORD + |BytesOf(p)|
    ensures BlobAt(data, idx) == NarrowedBlob(p)
  {
    var s := BytesOf(p);
    FieldInside(data, idx, s);
    var len := ToInt(|s|);
    ToIntBound(|s|);
    if len > 0 {
      var rest := data[idx + WORD..];
      assert rest[..|s|] == s;
      assert rest[..len] == s[..len];
    }
  }

  /** Peeling the last part off a prefix of the buffer. */
  lemma {:induction false} Peel(data: seq<byte>, front: seq<byte>, last: seq<byte>)
    requires |front| + |last| <= |data| && data[..|front| + |last|] == front + last
    ensures data[..|front|] == front && data[|front|..|front| + |last|] == last
  {
    var s := data[..|front| + |last|];
    assert s[..|front|] == data[..|front|];
    assert s[|front|..] == data[|front|..|front| + |last|];
  }

  lemma {:induction false} Parts(data: seq<byte>, e: seq<byte>, u: seq<byte>, p: seq<byte>, t: seq<byte>,
                                 r: seq<byte>, y: seq<byte>, c: seq<byte>, suffix: seq<byte>)
    requires data == e + u + p + t + r + y + c + suffix
    ensures var i2 := |e| + |u|; var i3 := i2 + |p|; var i4 := i3 + |t|; var i5 := i4 + |r|; var i6 := i5 + |y|;
            && |data| >= i6 + |c|
            && data[0..|e|] == e && data[|e|..i2] == u && data[i2..i3] == p && data[i3..i4] == t
            && data[i5..i6] == y && data[i6..i6 + |c|] == c
  {
    assert data[..|data|] == data;
    Peel(data, e + u + p + t + r + y + c, suffix);
    Peel(data, e + u + p + t + r + y, c);
    Peel(data, e + u + p + t + r, y);
    Peel(data, e + u + p + t, r);
    Peel(data, e + u + p, t);
    Peel(data, e + u, p);
    Peel(data, e, u);
  }

  lemma {:induction false} FirstByte(data: seq<byte>, s: seq<byte>)
    requires WORD + |s| <= |data| && data[0..WORD + |s|] == Frame(s)
    ensures data[0] as nat == |s| % 256
  {
    assert data[0..WORD + |s|][0] == data[0];
    assert Frame(s)[0] == Word(|s|)[0];
  }

  lemma ModAdd(n: nat, i: nat)
    ensures (n % 256 + i) % 256 == (n + i) % 256
  {
    assert n == 256 * (n / 256) + n % 256;
  }

  lemma {:induction false} RetainGarbled(data: seq<byte>, idx: nat, m: Message)
    requires CString(m.endpoint) && WORD + |m.endpoint.bytes| <= |data|
    requires data[0..WORD + |m.endpoint.bytes|] == Frame(m.endpoint.bytes)
    requires idx == 4 * WORD + |m.endpoint.bytes| + |BytesOf(m.user)| + |BytesOf(m.password)| + |BytesOf(m.topic)|
    ensures RetainAt(data, idx) == GarbledRetain(m)
  {
    FirstByte(data, m.endpoint.bytes);
    ModAdd(|m.endpoint.bytes|, idx);
  }

  /** Where the fields of a readable buffer begin: `retain` stands at `i4`, the payload right after it. */
  ghost predicate Layout(data: seq<byte>, i1: nat, i2: nat, i3: nat, i4: nat, i5: nat) {
    && FieldAt(data, 0) && FieldEnd(data, 0) == i1 && FieldAt(data, i1) && FieldEnd(data, i1) == i2
    && FieldAt(data, i2) && FieldEnd(data, i2) == i3 && FieldAt(data, i3) && FieldEnd(data, i3) == i4
    && FieldAt(data, i4 + 1) && FieldEnd(data, i4 + 1) == i5 && FieldAt(data, i5)
  }

  ghost predicate Strings(data: seq<byte>, m: Message, i1: nat, i2: nat, i3: nat)
    requires FieldAt(data, 0) && FieldAt(data, i1) && FieldAt(data, i2) && FieldAt(data, i3)
  {
    && StringAt(data, 0) == m.endpoint && StringAt(data, i1) == m.user
    && StringAt(data, i2) == m.password && StringAt(data, i3) == m.topic
  }

  ghost predicate Tail(data: seq<byte>, m: Message, i4: nat, i5: nat)
    requires FieldAt(data, i4 + 1) && FieldAt(data, i5)
  {
    && RetainAt(data, i4) == m.retain && BlobAt(data, i4 + 1) == m.payload
    && m.certfile == if FieldLen(data, i5) > 0 then StringAt(data, i5) else Null
  }

  /** The reader's walk over the fields, once their places are known. */
  lemma {:induction false} Walk(data: seq<byte>, m: Message, i1: nat, i2: nat, i3: nat, i4: nat, i5: nat)
    requires Layout(data, i1, i2, i3, i4, i5)
    requires Strings(data, m, i1, i2, i3) && Tail(data, m, i4, i5)
    ensures Deserialize(data) == Parsed(m)
  {}

  /** Deserializing a serialized message, whatever follows it in the buffer, gives exactly `Restored`. */
  lemma {:induction false} RoundTrip(m: Message, suffix: seq<byte>)
    requires Sendable(m)
    ensures Deserialize(Serialize(m) + suffix) == Parsed(Restored(m))
  {
    var data := Serialize(m) + suffix;
    Parts(data, Frame(m.endpoint.bytes), Frame(m.user.bytes), Frame(m.password.bytes), Frame(m.topic.bytes),
          [m.retain], Frame(BytesOf(m.payload)), Frame(BytesOf(m.certfile)), suffix);
    var i1 := WORD + |m.endpoint.bytes|;
    var i2 := i1 + WORD + |m.user.bytes|;
    var i3 := i2 + WORD + |m.password.bytes|;
    var i4 := i3 + WORD + |m.topic.bytes|;
    FieldsBack(data, m, i1, i2, i3, i4, i4 + 1 + WORD + |BytesOf(m.payload)|);
  }

  /** The six fields of `m` stand one after the other in `data`, with a byte between topic and payload. */
  ghost predicate Spells(data: seq<byte>, m: Message, i1: nat, i2: nat, i3: nat, i4: nat, i5: nat) {
    && Sendable(m)
    && i1 == WORD + |m.endpoint.bytes| && i2 == i1 + WORD + |m.user.bytes|
    && i3 == i2 + WORD + |m.password.bytes| && i4 == i3 + WORD + |m.topic.bytes|
    && i5 == i4 + 1 + WORD + |BytesOf(m.payload)| && i5 + WORD + |BytesOf(m.certfile)| <= |data|
    && data[0..i1] == Frame(m.endpoint.bytes) && data[i1..i2] == Frame(m.user.bytes)
    && data[i2..i3] == Frame(m.password.bytes) && data[i3..i4] == Frame(m.topic.bytes)
    && data[i4 + 1..i5] == Frame(BytesOf(m.payload))
    && data[i5..i5 + WORD + |BytesOf(m.certfile)|] == Frame(BytesOf(m.certfile))
  }

  lemma {:induction false} LayoutBack(data: seq<byte>, m: Message, i1: nat, i2: nat, i3: nat, i4: nat, i5: nat)
    requires Spells(data, m, i1, i2, i3, i4, i5)
    ensures Layout(data, i1, i2, i3, i4, i5) && FieldLen(data, i5) == |BytesOf(m.certfile)|
  {
    FieldInside(data, 0, m.endpoint.bytes);
    FieldInside(data, i1, m.user.bytes);
    FieldInside(data, i2, m.password.bytes);
    FieldInside(data, i3, m.topic.bytes);
    FieldInside(data, i4 + 1, BytesOf(m.payload));
    FieldInside(data, i5, BytesOf(m.certfile));
  }

  lemma {:induction false} StringsBack(data: seq<byte>, m: Message, i1: nat, i2: nat, i3: nat, i4: nat, i5: nat)
    requires Spells(data, m, i1, i2, i3, i4, i5) && Layout(data, i1, i2, i3, i4, i5)
    ensures Strings(data, Restored(m), i1, i2, i3)
  {
    StringInside(data, 0, m.endpoint);
    StringInside(data, i1, m.user);
    StringInside(data, i2, m.password);
    StringInside(data, i3, m.topic);
  }

  lemma {:induction false} TailBack(data: seq<byte>, m: Message, i1: nat, i2: nat, i3: nat, i4: nat, i5: nat)
    requires Spells(data, m, i1, i2, i3, i4, i5) && Layout(data, i1, i2, i3, i4, i5)
    requires FieldLen(data, i5) == |BytesOf(m.certfile)|
    ensures Tail(data, Restored(m), i4, i5)
  {
    BlobInside(data, i4 + 1, m.payload);
    if m.certfile.Str? { StringInside(data, i5, m.certfile); }
    RetainGarbled(data, i4, m);
  }

  lemma {:induction false} FieldsBack(data: seq<byte>, m: Message, i1: nat, i2: nat, i3: nat, i4: nat, i5: nat)
    requires Spells(data, m, i1, i2, i3, i4, i5)
    ensures Deserialize(data) == Parsed(Restored(m))
  {
    LayoutBack(data, m, i1, i2, i3, i4, i5);
    StringsBack(data, m, i1, i2, i3, i4, i5);
    TailBack(data, m, i1, i2, i3, i4, i5);
    Walk(data, Restored(m), i1, i2, i3, i4, i5);
  }

  lemma NarrowedIsSame(p: Ptr)
    requires CString(p)
    ensures Narrowed(p) == p <==> Short(p)
  {}

  /** A message survives the file up to an empty payload or certificate path becoming NULL exactly when its
      lengths fit an `int` and its retain flag happens to be the one line 254 computes. */
  lemma {:induction false} RestoredExactly(m: Message)
    requires Sendable(m)
    ensures Restored(m) == Normal(m) <==> AllShort(m) && m.retain == GarbledRetain(m)
    ensures AllShort(m) ==> Restored(m) == Normal(m).(retain := GarbledRetain(m))
  {
    NarrowedIsSame(m.endpoint);
    NarrowedIsSame(m.user);
    NarrowedIsSame(m.password);
    NarrowedIsSame(m.topic);
    if m.certfile.Str? { NarrowedIsSame(m.certfile); }
    var n := |BytesOf(m.payload)|;
    assert n >= 0x8000_0000 ==> ToInt(n) < n;
  }

  lemma {:induction false} RestoredShort(m: Message)
    requires Sendable(m) && AllShort(m)
    ensures Deserialize(Serialize(m)) == Parsed(Normal(m).(retain := GarbledRetain(m)))
  {
    RoundTrip(m, []);
    assert Serialize(m) + [] == Serialize(m);
    RestoredExactly(m);
  }

  /** Four empty strings and a cleared retain flag: the message comes back with the flag set to 32. */
  lemma {:induction false} RetainLost(m: Message)
    requires m.endpoint == m.user == m.password == m.topic == Str([])
    requires m.retain == 0 && m.payload == Null && m.certfile == Null
    ensures Sendable(m) && AllShort(m) && Deserialize(Serialize(m)) == Parsed(m.(retain := 32))
  {
    BareFlag(m);
    RestoredShort(m);
  }

  lemma {:induction false} BareFlag(m: Message)
    requires m.endpoint == m.user == m.password == m.topic == Str([]) && m.payload == m.certfile == Null
    ensures GarbledRetain(m) == 32 && Normal(m) == m && Sendable(m) && AllShort(m)
  {}
}
