/**
 The packet framing of client/src/network/packets.cpp: a sixteen-byte header, the type, the payload.

 The little-endian readers and writers are in modloader_bytes.h, which is not part of this model; they are
 taken to do what their names say.
 */
module Packets {
  import opened Machine
  import opened Options

  type Bytes = seq<u8>

  const MAGIC: u32 := 0x31504c4d
  const HEADER: nat := 16
  const MAX_TYPE: nat := 64
  const MAX_PAYLOAD: nat := 8 * 1024 * 1024

  datatype Packet = Packet(kind: Bytes, version: u32, payload: Bytes)

  datatype Result = Incomplete | Complete(packet: Packet, size: nat) | Invalid

  /** `Text_Is_Valid`: not empty, not too long, and printable. */
  predicate TextIsValid(text: Bytes, maximum: nat)
  {
    0 < |text| <= maximum && forall c <- text :: c >= 0x20 && c != 0x7F
  }

  predicate Encodable(packet: Packet)
  {
    TextIsValid(packet.kind, MAX_TYPE) && |packet.payload| <= MAX_PAYLOAD
  }

  // ---------------------------------------------------------------- little-endian words

  function Le32(v: u32): (b: Bytes)
    ensures |b| == 4
  {
    [v % 256, v / 256 % 256, v / 0x1_0000 % 256, v / 0x100_0000]
  }

  function Read32(b: Bytes, at: nat): u32
    requires at + 4 <= |b|
  {
    var w: int, x: int, y: int, z: int := b[at], b[at + 1], b[at + 2], b[at + 3];
    w + 256 * x + 0x1_0000 * y + 0x100_0000 * z
  }

  /** Four digits to base 256. */
  lemma {:induction false} Digits(v: nat, w: nat, x: nat, y: nat, z: nat)
    requires v == w + 256 * x + 0x1_0000 * y + 0x100_0000 * z && w < 256 && x < 256 && y < 256
    ensures v % 256 == w && v / 256 % 256 == x && v / 0x1_0000 % 256 == y && v / 0x100_0000 == z
  {
    assert v / 256 == x + 256 * y + 0x1_0000 * z;
    assert v / 0x1_0000 == y + 256 * z;
  }

  lemma {:induction false} DigitsOf(v: nat)
    ensures v == v % 256 + 256 * (v / 256 % 256) + 0x1_0000 * (v / 0x1_0000 % 256) + 0x100_0000 * (v / 0x100_0000)
  {
    var a := v / 256;
    var b := a / 256;
    var c := b / 256;
    assert v == v % 256 + 256 * (a % 256) + 0x1_0000 * (b % 256) + 0x100_0000 * c;
    Digits(v, v % 256, a % 256, b % 256, c);
  }

  lemma {:induction false} ReadLe32(v: u32, b: Bytes, at: nat)
    requires at + 4 <= |b| && b[at..at + 4] == Le32(v)
    ensures Read32(b, at) == v
  {
    assert b[at] == b[at..at + 4][0] && b[at + 1] == b[at..at + 4][1] && b[at + 2] == b[at..at + 4][2] && b[at + 3] == b[at..at + 4][3];
    DigitsOf(v);
  }

  lemma {:induction false} Le32Read(b: Bytes, at: nat)
    requires at + 4 <= |b|
    ensures Le32(Read32(b, at)) == b[at..at + 4]
  {
    Digits(Read32(b, at), b[at], b[at + 1], b[at + 2], b[at + 3]);
  }

  // ---------------------------------------------------------------- the frame

  function Encode(packet: Packet): (b: Bytes)
    requires Encodable(packet)
    ensures |b| == HEADER + |packet.kind| + |packet.payload|
  {
    Le32(MAGIC) + Le32(packet.version) + Le32(|packet.kind|) + Le32(|packet.payload|) + packet.kind + packet.payload
  }

  function Decode(b: Bytes): (r: Result)
    ensures r.Complete? ==> HEADER < r.size <= |b|
    ensures r.Incomplete? ==> |b| < HEADER + MAX_TYPE + MAX_PAYLOAD
  {
    if |b| < HEADER then Incomplete
    else
      var kindSize, payloadSize := Read32(b, 8), Read32(b, 12);
      if Read32(b, 0) != MAGIC || kindSize == 0 || kindSize > MAX_TYPE || payloadSize > MAX_PAYLOAD then Invalid
      else
        var size := HEADER + kindSize + payloadSize;
        if |b| < size then Incomplete
        else
          var kind := b[HEADER..HEADER + kindSize];
          if TextIsValid(kind, MAX_TYPE) then Complete(Packet(kind, Read32(b, 4), b[HEADER + kindSize..size]), size) else Invalid
  }

  /** The header of an encoding, wherever it is cut after the header. */
  lemma {:induction false} EncodedHeader(packet: Packet, b: Bytes)
    requires Encodable(packet) && HEADER <= |b| && (b <= Encode(packet) || Encode(packet) <= b)
    ensures Read32(b, 0) == MAGIC && Read32(b, 4) == packet.version
    ensures Read32(b, 8) == |packet.kind| && Read32(b, 12) == |packet.payload|
  {
    var e := Encode(packet);
    assert e[0..4] == Le32(MAGIC) && e[4..8] == Le32(packet.version);
    assert e[8..12] == Le32(|packet.kind|) && e[12..16] == Le32(|packet.payload|);
    assert b[0..4] == e[0..4] && b[4..8] == e[4..8] && b[8..12] == e[8..12] && b[12..16] == e[12..16];
    ReadLe32(MAGIC, b, 0);
    ReadLe32(packet.version, b, 4);
    ReadLe32(|packet.kind|, b, 8);
    ReadLe32(|packet.payload|, b, 12);
  }

  /** What was encoded is decoded, whatever follows. */
  lemma {:induction false} DecodeEncode(packet: Packet, rest: Bytes)
    requires Encodable(packet)
    ensures Decode(Encode(packet) + rest) == Complete(packet, |Encode(packet)|)
  {
    var e := Encode(packet);
    var b := e + rest;
    EncodedHeader(packet, b);
    var n := HEADER + |packet.kind|;
    assert b[HEADER..n] == e[HEADER..n] == packet.kind;
    assert b[n..|e|] == e[n..] == packet.payload;
    hide Read32, Encode;
  }

  /** A beginning of an encoding is incomplete: it is never taken for an invalid or another packet. */
  lemma {:induction false} DecodePrefix(packet: Packet, b: Bytes)
    requires Encodable(packet) && b <= Encode(packet) && b != Encode(packet)
    ensures Decode(b) == Incomplete
  {
    if |b| >= HEADER { EncodedHeader(packet, b); }
    assert |b| < |Encode(packet)|;
    hide Read32, Encode;
  }

  /** What is decoded is an encoding: nothing else is accepted. */
  lemma {:induction false} EncodeDecode(b: Bytes)
    requires Decode(b).Complete?
    ensures Encodable(Decode(b).packet) && Encode(Decode(b).packet) == b[..Decode(b).size]
  {
    var Complete(packet, size) := Decode(b);
    hide Read32, Le32, TextIsValid;
    Le32Read(b, 0);
    Le32Read(b, 4);
    Le32Read(b, 8);
    Le32Read(b, 12);
    Pieces(b, HEADER + |packet.kind|, size);
  }

  lemma {:induction false} Pieces(b: Bytes, n: nat, size: nat)
    requires HEADER <= n <= size <= |b|
    ensures b[..size] == b[0..4] + b[4..8] + b[8..12] + b[12..16] + b[HEADER..n] + b[n..size]
  {}

  /** A four-byte number, the lowest byte first. */
  function Word(b: Bytes, at: nat): nat
    requires at + 4 <= |b|
  {
    b[at] as nat + 256 * b[at + 1] as nat + 65536 * b[at + 2] as nat + 16777216 * b[at + 3] as nat
  }

  /**
   Bytes are invalid exactly when a whole header is there that does not begin with "MLP1", or names a type of no
   or more than 64 bytes or a payload of more than eight megabytes, or when the whole packet is there and its type
   has a control character.
   */
  lemma {:induction false} InvalidExactly(b: Bytes)
    ensures Decode(b) == Invalid <==>
            && |b| >= 16
            && var kind, payload := Word(b, 8), Word(b, 12);
               || b[..4] != [77, 76, 80, 49] || kind == 0 || kind > 64 || payload > 8388608
               || (|b| >= 16 + kind + payload && exists k :: 16 <= k < 16 + kind && (b[k] < 32 || b[k] == 127))
  {
    if |b| >= 16 {
      MagicBytes();
      Le32Read(b, 0);
      assert b[0..4] == b[..4];
      hide Le32;
      if b[..4] == [77, 76, 80, 49] { ReadLe32(MAGIC, b, 0); }
      var kind: nat := Read32(b, 8);
      if 0 < kind <= 64 && |b| >= 16 + kind { TextCut(b, kind); }
      hide TextIsValid;
    }
  }

  lemma {:induction false} TextCut(b: Bytes, kind: nat)
    requires 0 < kind <= 64 && |b| >= 16 + kind
    ensures TextIsValid(b[16..16 + kind], MAX_TYPE) <==> !exists k :: 16 <= k < 16 + kind && (b[k] < 32 || b[k] == 127)
  {
    var text := b[16..16 + kind];
    assert forall k :: 16 <= k < 16 + kind ==> b[k] == text[k - 16];
    if k :| 16 <= k < 16 + kind && (b[k] < 32 || b[k] == 127) {
      assert text[k - 16] in text;
    }
  }

  lemma {:induction false} MagicBytes()
    ensures Le32(MAGIC) == [77, 76, 80, 49]
  {}

  /** One packet byte by byte: type "ab", version 0x01020304, payload 5. */
  lemma {:induction false} FrameBytes()
    ensures Encodable(Packet([97, 98], 0x01020304, [5]))
    ensures Encode(Packet([97, 98], 0x01020304, [5])) == [77, 76, 80, 49, 4, 3, 2, 1, 2, 0, 0, 0, 1, 0, 0, 0, 97, 98, 5]
  {
    MagicBytes();
    assert Le32(0x01020304) == [4, 3, 2, 1] && Le32(2) == [2, 0, 0, 0] && Le32(1) == [1, 0, 0, 0];
    hide Le32;
  }

  // ---------------------------------------------------------------- the encoder in place

  method WriteLe32(a: array<u8>, at: nat, v: u32)
    requires at + 4 <= a.Length
    modifies a
    ensures a[..] == old(a[..at]) + Le32(v) + old(a[at + 4..])
  {
    a[at] := v % 256;
    a[at + 1] := v / 256 % 256;
    a[at + 2] := v / 0x1_0000 % 256;
    a[at + 3] := v / 0x100_0000;
  }

  method CopyTo(a: array<u8>, at: nat, b: Bytes)
    requires at + |b| <= a.Length
    modifies a
    ensures a[..] == old(a[..at]) + b + old(a[at + |b|..])
  {
    for i := 0 to |b|
      invariant forall k :: 0 <= k < i ==> a[at + k] == b[k]
      invariant forall k :: 0 <= k < at || at + i <= k < a.Length ==> a[k] == old(a[k])
    {
      a[at + i] := b[i];
    }
    assert a[at..at + |b|] == b;
    assert a[..] == a[..at] + a[at..at + |b|] + a[at + |b|..];
  }

  method EncodePacket(kind: Bytes, version: u32, payload: Bytes) returns (out: Option<Bytes>)
    ensures out == if Encodable(Packet(kind, version, payload)) then Some(Encode(Packet(kind, version, payload))) else None
  {
    if !TextIsValid(kind, MAX_TYPE) || |payload| > MAX_PAYLOAD { return None; }
    var a := new u8[HEADER + |kind| + |payload|];
    WriteLe32(a, 0, MAGIC);
    WriteLe32(a, 4, version);
    WriteLe32(a, 8, |kind|);
    WriteLe32(a, 12, |payload|);
    assert a[..HEADER] == Le32(MAGIC) + Le32(version) + Le32(|kind|) + Le32(|payload|);
    CopyTo(a, HEADER, kind);
    assert a[..HEADER + |kind|] == Le32(MAGIC) + Le32(version) + Le32(|kind|) + Le32(|payload|) + kind;
    if payload != [] { CopyTo(a, HEADER + |kind|, payload); }
    assert a[..] == Encode(Packet(kind, version, payload));
    out := Some(a[..]);
  }

  // ---------------------------------------------------------------- streams of packets

  ghost predicate AllEncodable(packets: seq<Packet>)
  {
    forall p <- packets :: Encodable(p)
  }

  function EncodeAll(packets: seq<Packet>): Bytes
    requires AllEncodable(packets)
  {
    if packets == [] then [] else Encode(packets[0]) + EncodeAll(packets[1..])
  }

  lemma {:induction false} EncodeAllNext(packets: seq<Packet>, last: Packet)
    requires AllEncodable(packets) && Encodable(last)
    ensures AllEncodable(packets + [last]) && EncodeAll(packets + [last]) == EncodeAll(packets) + Encode(last)
  {
    hide Encode;
    if packets == [] {
      assert (packets + [last])[1..] == [];
    } else {
      assert (packets + [last])[1..] == packets[1..] + [last];
      EncodeAllNext(packets[1..], last);
    }
  }

  /** The beginning of a stream decodes to its first packet or is incomplete, but is never invalid. */
  lemma {:induction false} StreamDecodes(packets: seq<Packet>, b: Bytes)
    requires AllEncodable(packets) && b <= EncodeAll(packets)
    ensures Decode(b) != Invalid
    ensures Decode(b).Complete? ==>
              packets != [] && Decode(b).packet == packets[0] && b[Decode(b).size..] <= EncodeAll(packets[1..])
              && b[..Decode(b).size] == Encode(packets[0])
  {
    if packets != [] {
      var e := Encode(packets[0]);
      if |b| < |e| {
        assert b <= e && b != e;
        DecodePrefix(packets[0], b);
      } else {
        assert b == e + b[|e|..];
        DecodeEncode(packets[0], b[|e|..]);
      }
    }
    hide Decode, Encode;
  }
}
