/** The wire format: [uuid:16][ttl:1][sender:32][receiver:32][timestamp:8][payload_len:4][payload]. */
module Codec {
  import opened Types

  const HEADER: nat := 93

  // ---------- big-endian integers ----------

  /** `v` in `n` bytes, most significant first. */
  function BigEndian(v: nat, n: nat): (s: bytes)
    ensures |s| == n
  {
    if n == 0 then [] else BigEndian(v / 256, n - 1) + [v % 256]
  }

  function ReadBigEndian(s: bytes): nat
  {
    if s == [] then 0 else ReadBigEndian(s[..|s| - 1]) * 256 + s[|s| - 1]
  }

  lemma Widths()
    ensures Pow(256, 4) == TWO32 && Pow(256, 8) == TWO64
  {
    assert Pow(256, 4) == TWO32;
    assert Pow(256, 6) == 0x1_0000_0000_0000;
  }

  lemma {:induction false} ReadWritten(v: nat, n: nat)
    requires v < Pow(256, n)
    ensures ReadBigEndian(BigEndian(v, n)) == v
  {
    if n > 0 {
      ReadWritten(v / 256, n - 1);
      assert BigEndian(v, n)[..n - 1] == BigEndian(v / 256, n - 1);
    }
  }

  lemma {:induction false} WriteRead(s: bytes)
    ensures ReadBigEndian(s) < Pow(256, |s|)
    ensures BigEndian(ReadBigEndian(s), |s|) == s
  {
    if s != [] {
      var front := s[..|s| - 1];
      WriteRead(front);
      assert ReadBigEndian(s) / 256 == ReadBigEndian(front);
      assert s == front + [s[|s| - 1]];
    }
  }

  /** Most significant first: byte `i` of `n` counts multiples of 256^(n-1-i). */
  lemma {:induction false} BigEndianDigit(v: nat, n: nat, i: nat)
    requires i < n
    ensures BigEndian(v, n)[i] == v / Pow(256, n - 1 - i) % 256
  {
    if i < n - 1 {
      BigEndianDigit(v / 256, n - 1, i);
      DivideTwice(v, Pow(256, n - 2 - i));
    }
  }

  lemma DivideTwice(v: nat, p: nat)
    requires p >= 1
    ensures v / 256 / p == v / (256 * p)
  {
    var q, r := v / (256 * p), v % (256 * p);
    assert v == 256 * (p * q) + r;
    assert v / 256 == p * q + r / 256;
    assert 0 <= r / 256 < p;
    Quotient(v / 256, p, q, r / 256);
  }

  lemma Quotient(x: nat, p: nat, q: nat, r: nat)
    requires r < p && x == p * q + r
    ensures x / p == q
  {
    Apart(p, x / p, q, x % p, r);
  }

  /** A quotient and its remainder are unique. */
  lemma Apart(p: nat, k: nat, q: nat, s: nat, r: nat)
    requires r < p && s < p && p * k + s == p * q + r
    ensures k == q
  {
    if k < q {
      AtLeastOnce(p, q - k, k);
    } else if q < k {
      AtLeastOnce(p, k - q, q);
    }
  }

  lemma {:induction false} AtLeastOnce(p: nat, d: nat, k: nat)
    requires d >= 1
    ensures p * (k + d) >= p * k + p
  {
    if d == 1 {
      assert p * (k + 1) == p * k + p;
    } else {
      AtLeastOnce(p, d - 1, k);
      assert p * (k + d) == p * (k + d - 1) + p;
    }
  }

  // ---------- frames as byte strings ----------

  /** The length field is cast to 32 bits, so it keeps only the low word of the payload length. */
  function Encode(m: Message): (frame: bytes)
    ensures |frame| == HEADER + |m.payload|
  {
    m.uuid + [m.ttl] + m.sender + m.receiver
    + BigEndian(m.timestamp, 8) + BigEndian(|m.payload| % TWO32, 4) + m.payload
  }

  /**
   * `Overread` is the one outcome C leaves undefined: the length check adds the 93-byte
   * header to the declared length in 32 bits, the sum wraps, and the payload copy would
   * read past the input.
   */
  datatype Decoded = Reject | Overread | Accept(msg: Message)

  /** The payload length that a full header declares. */
  function Declared(data: bytes): (n: nat)
    requires |data| >= HEADER
    ensures n < TWO32
  {
    Widths();
    WriteRead(data[89..93]);
    ReadBigEndian(data[89..93])
  }

  function Decode(data: bytes): Decoded
  {
    if |data| < HEADER then Reject
    else
      var n := Declared(data);
      if |data| < (HEADER + n) % TWO32 then Reject
      else if |data| < HEADER + n then Overread
      else Accept(Fields(data, n))
  }

  function Fields(data: bytes, n: nat): Message
    requires HEADER + n <= |data|
  {
    Widths();
    WriteRead(data[81..89]);
    Message(data[..16], data[16], data[17..49], data[49..81],
            ReadBigEndian(data[81..89]), data[93..93 + n])
  }

  // ---------- the format is an exact prefix code ----------

  /** Reads every field back out of a frame, whatever follows the header. */
  lemma HeaderFields(m: Message, rest: bytes)
    ensures var data := Encode(m)[..93] + rest;
            && data[..16] == m.uuid && data[16] == m.ttl
            && data[17..49] == m.sender && data[49..81] == m.receiver
            && data[81..89] == BigEndian(m.timestamp, 8)
            && data[89..93] == BigEndian(|m.payload| % TWO32, 4)
            && ReadBigEndian(data[81..89]) == m.timestamp
            && Declared(data) == |m.payload| % TWO32
  {
    var a := m.uuid + [m.ttl] + m.sender + m.receiver;
    var t := BigEndian(m.timestamp, 8);
    var l := BigEndian(|m.payload| % TWO32, 4);
    var data := Encode(m)[..93] + rest;
    assert Encode(m)[..93] == a + t + l;
    assert data[81..89] == t;
    assert data[89..93] == l;
    Widths();
    ReadWritten(m.timestamp, 8);
    ReadWritten(|m.payload| % TWO32, 4);
  }

  /** What decoding makes of a frame's header followed by any bytes that cover the declared length. */
  lemma DecodeHeader(m: Message, rest: bytes)
    requires |m.payload| % TWO32 <= |rest|
    ensures Decode(Encode(m)[..93] + rest) == Accept(m.(payload := rest[..|m.payload| % TWO32]))
  {
    hide Encode;
    hide Declared;
    hide ReadBigEndian;
    HeaderFields(m, rest);
    var data := Encode(m)[..93] + rest;
    assert data[93..93 + |m.payload| % TWO32] == rest[..|m.payload| % TWO32];
  }

  /** Decoding a frame, with anything after it, returns the message exactly when its length fits 32 bits. */
  lemma RoundTrip(m: Message, suffix: bytes)
    ensures Decode(Encode(m) + suffix) == Accept(m) <==> |m.payload| < TWO32
  {
    DecodeHeader(m, m.payload + suffix);
    FrameSplit(m, suffix);
    assert (m.payload + suffix)[..|m.payload| % TWO32] == m.payload[..|m.payload| % TWO32];
  }

  lemma FrameSplit(m: Message, suffix: bytes)
    ensures Encode(m) + suffix == Encode(m)[..93] + (m.payload + suffix)
  {
    assert Encode(m)[93..] == m.payload;
  }

  lemma DecodeEncode(m: Message)
    requires |m.payload| < TWO32
    ensures Decode(Encode(m)) == Accept(m)
  {
    RoundTrip(m, []);
    assert Encode(m) + [] == Encode(m);
  }

  /** The UUID a receiver would read out of `data`, if it accepts it. */
  function UuidOf(data: bytes): Option<Uuid> {
    match Decode(data)
    case Accept(m) => Some(m.uuid)
    case _ => None
  }

  lemma UuidOfEncode(m: Message)
    ensures UuidOf(Encode(m)) == Some(m.uuid)
  {
    DecodeHeader(m, m.payload);
    FrameSplit(m, []);
    assert Encode(m) + [] == Encode(m) && m.payload + [] == m.payload;
  }

  /** No proper prefix of a frame is accepted; it is rejected outright unless the 32-bit sum wraps. */
  lemma ProperPrefix(m: Message, k: nat)
    requires |m.payload| < TWO32
    requires k < |Encode(m)|
    ensures !Decode(Encode(m)[..k]).Accept?
    ensures Decode(Encode(m)[..k]).Reject? <==> k < HEADER || HEADER + |m.payload| < TWO32
  {
    if k >= HEADER {
      HeaderFields(m, Encode(m)[93..k]);
      assert Encode(m)[..k] == Encode(m)[..93] + Encode(m)[93..k];
    }
  }

  /** The undefined case, in terms a receiver could check: a complete header, a wrapping sum, a short input. */
  lemma OverreadExactly(data: bytes)
    ensures Decode(data).Overread? <==>
            |data| >= HEADER && HEADER + Declared(data) >= TWO32 && |data| < HEADER + Declared(data)
  {
  }

  /** An input is accepted exactly when it holds a full header and all of the declared payload. */
  lemma AcceptExactly(data: bytes)
    ensures Decode(data).Accept? <==> |data| >= 93 && |data| >= 93 + ReadBigEndian(data[89..93])
  {
  }

  /** Such inputs exist: any 89 bytes followed by four bytes 255 declare 2^32 - 1 bytes in a 93-byte input. */
  lemma OverreadOccurs(head: bytes)
    requires |head| == 89
    ensures Decode(head + [255, 255, 255, 255]).Overread?
  {
    var data: bytes := head + [255, 255, 255, 255];
    assert data[89..93] == [255, 255, 255, 255];
    Read4(data[89..93]);
  }

  lemma EncodeInjective(a: Message, b: Message)
    requires Encode(a) == Encode(b)
    ensures a == b
  {
    HeaderFields(a, a.payload);
    HeaderFields(b, b.payload);
    assert Encode(a) == Encode(a)[..93] + a.payload;
    assert Encode(b) == Encode(b)[..93] + b.payload;
    assert a.payload == Encode(a)[93..] == Encode(b)[93..] == b.payload;
  }

  /** No frame is a proper prefix of another. */
  lemma PrefixFree(a: Message, b: Message)
    requires |a.payload| < TWO32 && |b.payload| < TWO32
    requires Encode(a) <= Encode(b)
    ensures a == b
  {
    var suffix := Encode(b)[|Encode(a)|..];
    assert Encode(b) == Encode(a) + suffix;
    RoundTrip(a, suffix);
    DecodeEncode(b);
  }

  /** Re-encoding whatever was accepted gives back the bytes it was read from. */
  lemma EncodeDecode(data: bytes)
    requires Decode(data).Accept?
    ensures var m := Decode(data).msg;
            && |m.payload| < TWO32
            && HEADER + |m.payload| <= |data|
            && Encode(m) == data[..HEADER + |m.payload|]
  {
    hide Pow;
    hide BigEndian;
    hide ReadBigEndian;
    Widths();
    var m := Decode(data).msg;
    WriteRead(data[81..89]);
    WriteRead(data[89..93]);
    assert data[..HEADER + |m.payload|] == data[..16] + [data[16]] + data[17..49] + data[49..81]
                                           + data[81..89] + data[89..93] + data[93..93 + |m.payload|];
  }

  // ---------- the two C functions, moving a cursor over a buffer ----------

  // Each writer appends at the cursor: `buf[..at]` grows by the field and the rest is untouched.

  method CopyInto(buf: array<byte>, at: nat, src: bytes)
    requires at + |src| <= buf.Length
    modifies buf
    ensures buf[..at + |src|] == old(buf[..at]) + src
    ensures forall k :: at + |src| <= k < buf.Length ==> buf[k] == old(buf[k])
  {
    for i := 0 to |src|
      invariant buf[..at + i] == old(buf[..at]) + src[..i]
      invariant forall k :: at + i <= k < buf.Length ==> buf[k] == old(buf[k])
    {
      buf[at + i] := src[i];
    }
    assert src[..|src|] == src;
  }

  method WriteU32(buf: array<byte>, at: nat, v: nat)
    requires at + 4 <= buf.Length
    requires v < TWO32
    modifies buf
    ensures buf[..at + 4] == old(buf[..at]) + BigEndian(v, 4)
    ensures forall k :: at + 4 <= k < buf.Length ==> buf[k] == old(buf[k])
  {
    buf[at] := v / 0x100_0000 % 256;
    buf[at + 1] := v / 0x1_0000 % 256;
    buf[at + 2] := v / 0x100 % 256;
    buf[at + 3] := v % 256;
    Bytes4(v);
  }

  method WriteU64(buf: array<byte>, at: nat, v: u64)
    requires at + 8 <= buf.Length
    modifies buf
    ensures buf[..at + 8] == old(buf[..at]) + BigEndian(v, 8)
    ensures forall k :: at + 8 <= k < buf.Length ==> buf[k] == old(buf[k])
  {
    buf[at] := v / 0x100_0000_0000_0000 % 256;
    buf[at + 1] := v / 0x1_0000_0000_0000 % 256;
    buf[at + 2] := v / 0x100_0000_0000 % 256;
    buf[at + 3] := v / 0x1_0000_0000 % 256;
    buf[at + 4] := v / 0x100_0000 % 256;
    buf[at + 5] := v / 0x1_0000 % 256;
    buf[at + 6] := v / 0x100 % 256;
    buf[at + 7] := v % 256;
    Bytes8(v);
  }

  lemma Bytes4(v: nat)
    ensures BigEndian(v, 4) == [v / 0x100_0000 % 256, v / 0x1_0000 % 256, v / 0x100 % 256, v % 256]
  {
    assert BigEndian(v / 0x1_0000, 2) == [v / 0x100_0000 % 256, v / 0x1_0000 % 256];
    assert v / 0x100 / 256 == v / 0x1_0000;
  }

  lemma Bytes8(v: nat)
    ensures BigEndian(v, 8) ==
            [v / 0x100_0000_0000_0000 % 256, v / 0x1_0000_0000_0000 % 256,
             v / 0x100_0000_0000 % 256, v / 0x1_0000_0000 % 256,
             v / 0x100_0000 % 256, v / 0x1_0000 % 256, v / 0x100 % 256, v % 256]
  {
    var hi := v / 0x1_0000_0000;
    var a, b, c := v / 0x100_0000, v / 0x1_0000, v / 0x100;
    assert a / 256 == hi && b / 256 == a && c / 256 == b;
    Shift(v, c, 8);
    Shift(c, b, 7);
    Shift(b, a, 6);
    Shift(a, hi, 5);
    Bytes4(hi);
    HighBytes(v);
  }

  lemma Shift(v: nat, w: nat, n: nat)
    requires n > 0 && w == v / 256
    ensures BigEndian(v, n) == BigEndian(w, n - 1) + [v % 256]
  {
  }

  lemma HighBytes(v: nat)
    ensures v / 0x1_0000_0000 / 0x100_0000 == v / 0x100_0000_0000_0000
    ensures v / 0x1_0000_0000 / 0x1_0000 == v / 0x1_0000_0000_0000
    ensures v / 0x1_0000_0000 / 0x100 == v / 0x100_0000_0000
  {
  }

  /** `bc_message_serialize`: writes the frame at the front of `buf`, or reports the size it needs. */
  method Serialize(m: Message, buf: array<byte>) returns (code: Code, outLen: nat)
    modifies buf
    ensures outLen == |Encode(m)|
    ensures code == if buf.Length < |Encode(m)| then BufferTooSmall else Ok
    ensures code.Ok? ==> buf[..outLen] == Encode(m)
    ensures forall k :: 0 <= k < buf.Length && (code.Ok? ==> outLen <= k) ==> buf[k] == old(buf[k])
  {
    var needed := HEADER + |m.payload|;
    if buf.Length < needed {
      return BufferTooSmall, needed;
    }
    var p := 0;
    CopyInto(buf, p, m.uuid);
    p := p + 16;
    buf[p] := m.ttl;
    p := p + 1;
    assert buf[..p] == m.uuid + [m.ttl];
    CopyInto(buf, p, m.sender);
    p := p + 32;
    CopyInto(buf, p, m.receiver);
    p := p + 32;
    WriteU64(buf, p, m.timestamp);
    p := p + 8;
    WriteU32(buf, p, |m.payload| % TWO32);
    p := p + 4;
    if |m.payload| > 0 {
      CopyInto(buf, p, m.payload);
      p := p + |m.payload|;
    }
    return Ok, p;
  }

  method ReadU32(s: bytes) returns (v: nat)
    requires |s| == 4
    ensures v == ReadBigEndian(s)
  {
    v := (s[0] as int) * 0x100_0000 + (s[1] as int) * 0x1_0000 + (s[2] as int) * 0x100 + s[3];
    Read4(s);
  }

  method ReadU64(s: bytes) returns (v: nat)
    requires |s| == 8
    ensures v == ReadBigEndian(s)
  {
    v := (s[0] as int) * 0x100_0000_0000_0000 + (s[1] as int) * 0x1_0000_0000_0000
       + (s[2] as int) * 0x100_0000_0000 + (s[3] as int) * 0x1_0000_0000
       + (s[4] as int) * 0x100_0000 + (s[5] as int) * 0x1_0000 + (s[6] as int) * 0x100 + s[7];
    Read4(s[..4]);
    assert s[..4] == s[..5][..4] && s[..5] == s[..6][..5] && s[..6] == s[..7][..6];
    assert ReadBigEndian(s[..5]) == ReadBigEndian(s[..4]) * 256 + s[4];
    assert ReadBigEndian(s[..6]) == ReadBigEndian(s[..5]) * 256 + s[5];
    assert ReadBigEndian(s[..7]) == ReadBigEndian(s[..6]) * 256 + s[6];
  }

  lemma Read4(s: bytes)
    requires |s| == 4
    ensures ReadBigEndian(s) == (s[0] as int) * 0x100_0000 + (s[1] as int) * 0x1_0000 + (s[2] as int) * 0x100 + s[3]
  {
    assert s[..3][..2] == s[..2] && s[..2][..1] == s[..1] && s[..1][..0] == [];
    assert ReadBigEndian(s[..1]) == s[0];
    assert ReadBigEndian(s[..2]) == (s[0] as int) * 256 + s[1];
    assert ReadBigEndian(s[..3]) == ReadBigEndian(s[..2]) * 256 + s[2];
  }

  /** `bc_message_deserialize`: walks the header, then copies the payload. */
  method Deserialize(data: bytes) returns (r: Decoded)
    ensures r == Decode(data)
  {
    if |data| < HEADER {
      return Reject;
    }
    Widths();
    WriteRead(data[81..89]);
    var p := 0;
    var uuid := data[p..p + 16];
    p := p + 16;
    var ttl := data[p];
    p := p + 1;
    var sender := data[p..p + 32];
    p := p + 32;
    var receiver := data[p..p + 32];
    p := p + 32;
    var timestamp := ReadU64(data[p..p + 8]);
    p := p + 8;
    var payloadLen := ReadU32(data[p..p + 4]);
    p := p + 4;
    if |data| < (HEADER + payloadLen) % TWO32 {
      return Reject;
    }
    if |data| < HEADER + payloadLen {
      return Overread;
    }
    var payload := if payloadLen > 0 then data[p..p + payloadLen] else [];
    return Accept(Message(uuid, ttl, sender, receiver, timestamp, payload));
  }
}
