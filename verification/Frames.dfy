/** The tunnel's wire format: frames of [4-byte length][1-byte type][4-byte
    stream id][payload], integers big-endian, read and written one frame at a
    time straight off a byte stream. */
module Frames {
  type byte = b: nat | b < 256
  type uint32 = n: nat | n < 0x1_0000_0000
  type Bytes = seq<byte>

  const HEADER_SIZE: nat := 9
  const MAX_PAYLOAD: nat := 65536

  const OPEN: byte := 1
  const DATA: byte := 2
  const CLOSE: byte := 3
  const PING: byte := 4
  const PONG: byte := 5
  const AUTH: byte := 6
  const AUTH_OK: byte := 7

  predicate Known(ty: byte) {
    OPEN <= ty <= AUTH_OK
  }

  /** The types that address a logical stream; the rest ride on stream 0. */
  predicate CarriesStream(ty: byte) {
    ty == OPEN || ty == DATA || ty == CLOSE
  }

  datatype Frame = Frame(ty: byte, id: uint32, payload: Bytes) {
    predicate Valid() {
      && Known(ty)
      && |payload| <= MAX_PAYLOAD
      && (CarriesStream(ty) <==> id != 0)
    }
  }

  // Big-endian 32-bit integers

  function PutUint32(n: uint32): (b: Bytes)
    ensures |b| == 4
  {
    [n / 0x100_0000, n / 0x1_0000 % 256, n / 0x100 % 256, n % 256]
  }

  function GetUint32(b: Bytes): uint32
    requires |b| == 4
  {
    var b0: nat, b1: nat, b2: nat := b[0], b[1], b[2];
    ((b0 * 256 + b1) * 256 + b2) * 256 + b[3]
  }

  lemma Uint32RoundTrip(n: uint32)
    ensures GetUint32(PutUint32(n)) == n
  {
    var a, b := n / 0x100, n / 0x1_0000;
    assert n == a * 256 + n % 256;
    assert a == b * 256 + a % 256;
    assert b == b / 256 * 256 + b % 256 && b / 256 == n / 0x100_0000;
  }

  lemma Uint32Canonical(b: Bytes)
    requires |b| == 4
    ensures PutUint32(GetUint32(b)) == b
  {
    var h0: nat := b[0];
    var h1 := h0 * 256 + b[1];
    var h2 := h1 * 256 + b[2];
    var n := h2 * 256 + b[3];
    assert n / 0x100 == h2 && n % 256 == b[3];
    assert n / 0x1_0000 == h1 && h2 % 256 == b[2];
    assert n / 0x100_0000 == b[0] && h1 % 256 == b[1];
  }

  // One frame

  function Encode(f: Frame): (s: Bytes)
    requires f.Valid()
    ensures |s| == HEADER_SIZE + |f.payload|
  {
    PutUint32(|f.payload|) + [f.ty] + PutUint32(f.id) + f.payload
  }

  datatype ReadError = Eof | UnexpectedEof | Oversized | Malformed

  /** What one ReadFrame makes of the bytes to come: a frame or an error, and
      the bytes it has not consumed. */
  datatype Reading = Got(frame: Frame, rest: Bytes) | Failed(error: ReadError, rest: Bytes)

  function Decode(s: Bytes): Reading {
    if s == [] then Failed(Eof, [])
    else if |s| < HEADER_SIZE then Failed(UnexpectedEof, [])
    else
      var length := GetUint32(s[..4]);
      if length > MAX_PAYLOAD then Failed(Oversized, s[9..])
      else if |s| - HEADER_SIZE < length then Failed(UnexpectedEof, [])
      else
        var f := Frame(s[4], GetUint32(s[5..9]), s[9..9 + length]);
        if f.Valid() then Got(f, s[9 + length..]) else Failed(Malformed, s[9 + length..])
  }

  lemma DecodeEncoded(f: Frame, rest: Bytes)
    requires f.Valid()
    ensures Decode(Encode(f) + rest) == Got(f, rest)
  {
    var s := Encode(f) + rest;
    assert s[..4] == PutUint32(|f.payload|);
    assert s[5..9] == PutUint32(f.id);
    assert s[4] == f.ty;
    Uint32RoundTrip(|f.payload|);
    Uint32RoundTrip(f.id);
    assert s[9..9 + |f.payload|] == f.payload;
    assert s[9 + |f.payload|..] == rest;
  }

  lemma EncodeDecoded(s: Bytes)
    ensures Decode(s).Got? ==> Decode(s).frame.Valid() && s == Encode(Decode(s).frame) + Decode(s).rest
  {
    if Decode(s).Got? {
      var f := Decode(s).frame;
      Uint32Canonical(s[..4]);
      Uint32Canonical(s[5..9]);
      var n := 9 + |f.payload|;
      assert s == s[..4] + [s[4]] + s[5..9] + s[9..n] + s[n..];
    }
  }

  /** A torn frame never decodes, and it is told apart from a clean end. */
  lemma TornFrame(f: Frame, k: nat)
    requires f.Valid() && k < |Encode(f)|
    ensures Decode(Encode(f)[..k]) == Failed(if k == 0 then Eof else UnexpectedEof, [])
  {
    var s := Encode(f)[..k];
    if k >= HEADER_SIZE {
      assert s[..4] == PutUint32(|f.payload|);
      Uint32RoundTrip(|f.payload|);
    }
  }

  // The wire, byte by byte

  /** A four-byte field starts with its most significant byte. */
  lemma BigEndian(n: uint32)
    ensures var b := PutUint32(n);
      var b0: nat, b1: nat, b2: nat, b3: nat := b[0], b[1], b[2], b[3];
      b0 * 0x100_0000 + b1 * 0x1_0000 + b2 * 0x100 + b3 == n
  {
    var a, c := n / 0x100, n / 0x1_0000;
    assert n == a * 256 + n % 256 && a == c * 256 + a % 256;
    assert c == c / 256 * 256 + c % 256 && c / 256 == n / 0x100_0000;
  }

  /** Bytes 0 to 3 are the length, byte 4 the type, bytes 5 to 8 the stream, and the
      rest the payload. */
  lemma Layout(f: Frame)
    requires f.Valid()
    ensures var s := Encode(f);
      && s[..4] == PutUint32(|f.payload|) && s[4] == f.ty
      && s[5..9] == PutUint32(f.id) && s[9..] == f.payload
  {
  }

  /** A frame, as it goes over the wire. */
  lemma DataOnTheWire()
    ensures Encode(Frame(DATA, 0x0102_0304, [7, 8])) == [0, 0, 0, 2, 2, 1, 2, 3, 4, 7, 8]
    ensures Encode(Frame(OPEN, 1, [])) == [0, 0, 0, 0, 1, 0, 0, 0, 1]
    ensures Encode(Frame(CLOSE, 2, [])) == [0, 0, 0, 0, 3, 0, 0, 0, 2]
    ensures Encode(Frame(PING, 0, [])) == [0, 0, 0, 0, 4, 0, 0, 0, 0]
    ensures Encode(Frame(PONG, 0, [])) == [0, 0, 0, 0, 5, 0, 0, 0, 0]
    ensures Encode(Frame(AUTH, 0, [9])) == [0, 0, 0, 1, 6, 0, 0, 0, 0, 9]
    ensures Encode(Frame(AUTH_OK, 0, [])) == [0, 0, 0, 0, 7, 0, 0, 0, 0]
  {
  }

  /** Which frames are refused, at either end. */
  lemma ValidFrames(f: Frame)
    ensures f.Valid() <==>
            1 <= f.ty <= 7 && |f.payload| <= 65536 && (f.id == 0 <==> 4 <= f.ty)
  {
  }

  /** A length over the limit is refused with none of the payload read; a frame of an
      unknown type or on the wrong stream with all of it. */
  lemma RefusedOnTheWire(n: uint32, ty: byte, id: uint32, rest: Bytes)
    ensures var s := PutUint32(n) + [ty] + PutUint32(id) + rest;
      && (n > 65536 ==> Decode(s) == Failed(Oversized, rest))
      && (n <= 65536 && n <= |rest| && !Frame(ty, id, rest[..n]).Valid() ==> Decode(s) == Failed(Malformed, rest[n..]))
  {
    var s := PutUint32(n) + [ty] + PutUint32(id) + rest;
    assert s[..4] == PutUint32(n) && s[5..9] == PutUint32(id) && s[9..] == rest;
    Uint32RoundTrip(n);
    Uint32RoundTrip(id);
    if n <= |rest| {
      assert s[9..9 + n] == rest[..n] && s[9 + n..] == rest[n..];
    }
  }

  // A run of frames

  ghost predicate AllValid(fs: seq<Frame>) {
    forall f <- fs :: f.Valid()
  }

  function EncodeAll(fs: seq<Frame>): Bytes
    requires AllValid(fs)
  {
    if fs == [] then [] else Encode(fs[0]) + EncodeAll(fs[1..])
  }

  /** Everything a read loop gets out of a byte string: its frames in order and
      the error that ends the loop. */
  function DecodeAll(s: Bytes): (r: (seq<Frame>, ReadError))
    ensures AllValid(r.0)
    decreases |s|
  {
    EncodeDecoded(s);
    match Decode(s)
    case Failed(e, _) => ([], e)
    case Got(f, rest) =>
      var (fs, e) := DecodeAll(rest);
      ([f] + fs, e)
  }

  lemma DecodeAllStep(f: Frame, rest: Bytes)
    requires f.Valid()
    ensures DecodeAll(Encode(f) + rest) == ([f] + DecodeAll(rest).0, DecodeAll(rest).1)
  {
    DecodeEncoded(f, rest);
  }

  lemma EncodeFirst(fs: seq<Frame>, tail: Bytes)
    requires AllValid(fs) && fs != []
    ensures EncodeAll(fs) + tail == Encode(fs[0]) + (EncodeAll(fs[1..]) + tail)
  {
  }

  lemma {:induction false} DecodePrefix(fs: seq<Frame>, tail: Bytes)
    requires AllValid(fs) && DecodeAll(tail).0 == []
    ensures DecodeAll(EncodeAll(fs) + tail) == (fs, DecodeAll(tail).1)
  {
    if fs == [] {
      assert EncodeAll(fs) + tail == tail;
    } else {
      EncodeFirst(fs, tail);
      DecodePrefix(fs[1..], tail);
      DecodeAllStep(fs[0], EncodeAll(fs[1..]) + tail);
      assert fs == [fs[0]] + fs[1..];
    }
  }

  /** Frames sent back to back, then cut anywhere inside the next one, come out
      as exactly those frames; the loop ends in a clean EOF only on a boundary. */
  lemma DecodeRun(fs: seq<Frame>, next: Frame, k: nat)
    requires AllValid(fs) && next.Valid() && k < |Encode(next)|
    ensures DecodeAll(EncodeAll(fs) + Encode(next)[..k]) == (fs, if k == 0 then Eof else UnexpectedEof)
  {
    TornFrame(next, k);
    DecodePrefix(fs, Encode(next)[..k]);
  }

  /** The other direction: a byte string that ends cleanly is the encoding of
      the frames read from it, so accepted strings and frame lists match one to one. */
  lemma {:induction false} EncodeRun(s: Bytes)
    ensures DecodeAll(s).1 == Eof <==> s == EncodeAll(DecodeAll(s).0)
    decreases |s|
  {
    EncodeDecoded(s);
    match Decode(s)
    case Failed(e, _) =>
    case Got(f, rest) =>
      EncodeRun(rest);
      var fs := DecodeAll(rest).0;
      assert ([f] + fs)[1..] == fs;
      if s == EncodeAll([f] + fs) {
        assert Encode(f) + rest == Encode(f) + EncodeAll(fs);
        assert rest == (Encode(f) + rest)[|Encode(f)|..] == EncodeAll(fs);
      }
  }

  lemma EncodeAllInjective(fs: seq<Frame>, gs: seq<Frame>)
    requires AllValid(fs) && AllValid(gs) && EncodeAll(fs) == EncodeAll(gs)
    ensures fs == gs
  {
    var ping := Frame(PING, 0, []);
    DecodeRun(fs, ping, 0);
    DecodeRun(gs, ping, 0);
    assert EncodeAll(fs) + Encode(ping)[..0] == EncodeAll(fs);
    assert EncodeAll(gs) + Encode(ping)[..0] == EncodeAll(gs);
  }

  // The two halves over a connection

  /** The readable half of a connection: the bytes still to come before it ends. */
  class Source {
    var data: Bytes

    constructor (data: Bytes)
      ensures this.data == data
    {
      this.data := data;
    }

    /** io.ReadFull: n bytes, or why there are fewer. */
    method ReadFull(n: nat) returns (b: Bytes, short: bool, eof: bool)
      modifies this
      ensures short <==> |old(data)| < n
      ensures eof <==> short && old(data) == []
      ensures short ==> data == []
      ensures !short ==> b == old(data)[..n] && data == old(data)[n..]
    {
      short := |data| < n;
      eof := short && data == [];
      var k := if short then |data| else n;
      b, data := data[..k], data[k..];
    }
  }

  /** The writable half: what has been written, and how much more it will take
      before the connection breaks. */
  class Sink {
    var data: Bytes
    var room: nat

    constructor (room: nat)
      ensures data == [] && this.room == room
    {
      data, this.room := [], room;
    }

    method Write(b: Bytes) returns (ok: bool)
      modifies this
      ensures ok <==> |b| <= old(room)
      ensures ok ==> data == old(data) + b && room == old(room) - |b|
      ensures !ok ==> data == old(data) + b[..old(room)] && room == 0
    {
      ok := |b| <= room;
      var k := if ok then |b| else room;
      data, room := data + b[..k], room - k;
      assert ok ==> b[..k] == b;
    }
  }

  /** WriteFrame refuses an invalid frame before writing anything; otherwise it
      writes the encoding, or a proper prefix of it when the connection breaks. */
  method WriteFrame(w: Sink, f: Frame) returns (ok: bool)
    modifies w
    ensures !f.Valid() ==> !ok && w.data == old(w.data) && w.room == old(w.room)
    ensures f.Valid() ==> (ok <==> |Encode(f)| <= old(w.room))
    ensures ok ==> w.data == old(w.data) + Encode(f) && w.room == old(w.room) - |Encode(f)|
    ensures f.Valid() && !ok ==> w.data == old(w.data) + Encode(f)[..old(w.room)] && w.room == 0
  {
    if !f.Valid() {
      return false;
    }
    var hdr := PutUint32(|f.payload|) + [f.ty] + PutUint32(f.id);
    assert Encode(f) == hdr + f.payload;
    ok := w.Write(hdr);
    if !ok || |f.payload| == 0 {
      return;
    }
    ok := w.Write(f.payload);
  }

  method ReadFrame(r: Source) returns (reading: Reading)
    modifies r
    ensures reading == Decode(old(r.data))
    ensures r.data == reading.rest
  {
    ghost var s := r.data;
    var hdr, short, eof := r.ReadFull(HEADER_SIZE);
    if short {
      return Failed(if eof then Eof else UnexpectedEof, []);
    }
    assert hdr[..4] == s[..4] && hdr[5..9] == s[5..9];
    var length := GetUint32(hdr[..4]);
    if length > MAX_PAYLOAD {
      return Failed(Oversized, r.data);
    }
    var payload := [];
    if length > 0 {
      payload, short, eof := r.ReadFull(length);
      if short {
        return Failed(UnexpectedEof, []);
      }
    }
    assert payload == s[9..9 + length] && r.data == s[9 + length..];
    var f := Frame(hdr[4], GetUint32(hdr[5..9]), payload);
    reading := if f.Valid() then Got(f, r.data) else Failed(Malformed, r.data);
  }
}
