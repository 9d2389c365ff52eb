/** The length-prefixed frame codec: 4 bytes of size, 8 of identifier, 1 of type, payload. */
module Frames {
  import opened Basics

  newtype uint8 = x: int | 0 <= x < 0x100
  type Bytes = seq<uint8>

  const MAX_PAYLOAD := 0x10_0000
  const HEADER_SIZE := 13
  const ID_LIMIT := 0x1_0000_0000_0000_0000

  /** `id` is a 64-bit value; `kind` is the raw type byte. */
  datatype Frame = Frame(id: nat, kind: uint8, payload: Bytes)

  predicate ValidKind(kind: uint8) {
    1 <= kind <= 3
  }

  /** The frames a caller can hold: any type byte, any payload, a 64-bit identifier. */
  predicate Representable(f: Frame) {
    f.id < ID_LIMIT
  }

  predicate Writable(f: Frame) {
    Representable(f) && ValidKind(f.kind) && |f.payload| <= MAX_PAYLOAD
  }

  datatype Error = Eof | UnexpectedEof | TooLarge(size: nat) | InvalidKind(kind: uint8) | Broken
  datatype Read = Got(frame: Frame, rest: Bytes) | Fail(error: Error)

  // ---- big-endian numbers -------------------------------------------------------------------

  function Pow256(k: nat): nat {
    if k == 0 then 1 else 256 * Pow256(k - 1)
  }

  function BigEndian(n: nat, k: nat): Bytes {
    if k == 0 then [] else BigEndian(n / 256, k - 1) + [(n % 256) as uint8]
  }

  function Number(s: Bytes): nat {
    if s == [] then 0 else 256 * Number(s[..|s| - 1]) + s[|s| - 1] as nat
  }

  lemma {:induction false} BigEndianReads(n: nat, k: nat)
    ensures |BigEndian(n, k)| == k
    ensures n < Pow256(k) ==> Number(BigEndian(n, k)) == n
  {
    if k > 0 {
      BigEndianReads(n / 256, k - 1);
      var s := BigEndian(n, k);
      assert s[..|s| - 1] == BigEndian(n / 256, k - 1);
    }
  }

  lemma {:induction false} NumberWrites(s: Bytes)
    ensures Number(s) < Pow256(|s|)
    ensures BigEndian(Number(s), |s|) == s
  {
    if s != [] {
      NumberWrites(s[..|s| - 1]);
      assert s == s[..|s| - 1] + [s[|s| - 1]];
    }
  }

  /** Four bytes as a number, the first weighing most. */
  function Quad(a: uint8, b: uint8, c: uint8, d: uint8): nat {
    a as nat * 0x100_0000 + b as nat * 0x1_0000 + c as nat * 0x100 + d as nat
  }

  lemma NumberAppend(s: Bytes, d: uint8)
    ensures Number(s + [d]) == 256 * Number(s) + d as nat
  {
    assert (s + [d])[..|s|] == s;
  }

  lemma NumberOfFour(front: Bytes, a: uint8, b: uint8, c: uint8, d: uint8)
    ensures Number(front + [a, b, c, d]) == Number(front) * 0x1_0000_0000 + Quad(a, b, c, d)
  {
    assert front + [a, b, c, d] == front + [a] + [b] + [c] + [d];
    NumberAppend(front, a);
    NumberAppend(front + [a], b);
    NumberAppend(front + [a] + [b], c);
    NumberAppend(front + [a] + [b] + [c], d);
  }

  lemma NumberOfBytes(s: Bytes)
    ensures |s| == 4 ==> Number(s) == Quad(s[0], s[1], s[2], s[3])
    ensures |s| == 8 ==>
      Number(s) == Quad(s[0], s[1], s[2], s[3]) * 0x1_0000_0000 + Quad(s[4], s[5], s[6], s[7])
  {
    if |s| == 4 {
      NumberOfFour([], s[0], s[1], s[2], s[3]);
      assert s == [] + [s[0], s[1], s[2], s[3]];
    }
    if |s| == 8 {
      NumberOfFour([], s[0], s[1], s[2], s[3]);
      NumberOfFour(s[..4], s[4], s[5], s[6], s[7]);
      assert s[..4] == [] + [s[0], s[1], s[2], s[3]];
      assert s == s[..4] + [s[4], s[5], s[6], s[7]];
    }
  }

  lemma Powers()
    ensures Pow256(4) == 0x1_0000_0000
    ensures Pow256(8) == ID_LIMIT
  {
    assert Pow256(2) == 0x1_0000;
    assert Pow256(4) == 0x1_0000_0000;
    assert Pow256(6) == 0x1_0000_0000_0000;
  }

  // ---- the wire format ------------------------------------------------------------------------

  function Header(f: Frame): Bytes {
    BigEndian(|f.payload|, 4) + BigEndian(f.id, 8) + [f.kind]
  }

  function Encode(f: Frame): Bytes {
    Header(f) + f.payload
  }

  /** `io.ReadFull` on a stream that ends: end of file only when nothing was read. */
  function ShortRead(available: Bytes): Error {
    if available == [] then Eof else UnexpectedEof
  }

  function Decode(s: Bytes): Read {
    if |s| < HEADER_SIZE then Fail(ShortRead(s))
    else
      var size := Number(s[..4]);
      if size > MAX_PAYLOAD then Fail(TooLarge(size))
      else if !ValidKind(s[12]) then Fail(InvalidKind(s[12]))
      else if |s| - HEADER_SIZE < size then Fail(ShortRead(s[HEADER_SIZE..]))
      else Got(Frame(Number(s[4..12]), s[12], s[HEADER_SIZE..HEADER_SIZE + size]), s[HEADER_SIZE + size..])
  }

  lemma HeaderParts(f: Frame, tail: Bytes)
    requires Writable(f)
    ensures var s := Header(f) + tail;
      && |Header(f)| == HEADER_SIZE
      && Number(s[..4]) == |f.payload| && Number(s[4..12]) == f.id && s[12] == f.kind && s[HEADER_SIZE..] == tail
  {
    Powers();
    BigEndianReads(|f.payload|, 4);
    BigEndianReads(f.id, 8);
    var s := Header(f) + tail;
    assert s[..4] == BigEndian(|f.payload|, 4);
    assert s[4..12] == BigEndian(f.id, 8);
  }

  /** Reading back what was written yields the frame and leaves the rest of the stream. */
  lemma DecodeInvertsEncode(f: Frame, rest: Bytes)
    requires Writable(f)
    ensures Decode(Encode(f) + rest) == Got(f, rest)
  {
    HeaderParts(f, f.payload + rest);
    assert Encode(f) + rest == Header(f) + (f.payload + rest);
    var s := Encode(f) + rest;
    assert s[HEADER_SIZE..HEADER_SIZE + |f.payload|] == f.payload;
    assert s[HEADER_SIZE + |f.payload|..] == rest;
  }

  /** Whatever is accepted is the encoding of what was returned: no two byte strings
      decode to one frame, and every returned frame can be written again. */
  lemma AcceptedBytesAreCanonical(s: Bytes)
    requires Decode(s).Got?
    ensures Writable(Decode(s).frame)
    ensures Encode(Decode(s).frame) + Decode(s).rest == s
  {
    Powers();
    var f := Decode(s).frame;
    NumberWrites(s[..4]);
    NumberWrites(s[4..12]);
    assert s == s[..4] + s[4..12] + [s[12]] + s[HEADER_SIZE..];
    assert s[HEADER_SIZE..] == f.payload + Decode(s).rest;
  }

  /** A truncated frame is an error; it is taken for a clean end of the stream exactly
      when nothing, or the bare header, had arrived. */
  lemma TruncationIsAnError(f: Frame, p: Bytes)
    requires Writable(f) && p < Encode(f)
    ensures Decode(p) == Fail(if |p| == 0 || |p| == HEADER_SIZE then Eof else UnexpectedEof)
  {
    HeaderParts(f, f.payload);
    assert p == Encode(f)[..|p|];
    if |p| >= HEADER_SIZE {
      assert p[..4] == Encode(f)[..4];
      assert p[HEADER_SIZE..] == f.payload[..|p| - HEADER_SIZE];
    }
  }

  // ---- streams -----------------------------------------------------------------------------------

  function Stream(frames: seq<Frame>): Bytes {
    if frames == [] then [] else Encode(frames[0]) + Stream(frames[1..])
  }

  datatype Transcript = Transcript(frames: seq<Frame>, end: Error)

  /** Reading until the first error, as the reader loop of a connection does. */
  function ReadAll(s: Bytes): Transcript
    decreases |s|
  {
    match Decode(s)
    case Fail(e) => Transcript([], e)
    case Got(f, rest) => var t := ReadAll(rest); Transcript([f] + t.frames, t.end)
  }

  /** A stream of writable frames is read back exactly, then ends cleanly. */
  lemma {:induction false} StreamRoundTrip(frames: seq<Frame>)
    requires forall f :: f in frames ==> Writable(f)
    ensures ReadAll(Stream(frames)) == Transcript(frames, Eof)
  {
    if frames != [] {
      DecodeInvertsEncode(frames[0], Stream(frames[1..]));
      StreamRoundTrip(frames[1..]);
      assert frames == [frames[0]] + frames[1..];
    }
  }

  /** Cutting a stream anywhere loses a suffix of the frames and never invents one. */
  lemma {:induction false} CutStream(frames: seq<Frame>, p: Bytes)
    requires (forall f :: f in frames ==> Writable(f)) && p <= Stream(frames)
    ensures ReadAll(p).frames <= frames
    ensures ReadAll(p).end == Eof || ReadAll(p).end == UnexpectedEof
  {
    if frames != [] {
      var first := Encode(frames[0]);
      if |p| < |first| {
        assert p < first by {
          assert p == Stream(frames)[..|p|] == first[..|p|];
        }
        TruncationIsAnError(frames[0], p);
      } else {
        var rest := p[|first|..];
        assert p == first + rest by {
          assert p[..|first|] == Stream(frames)[..|first|] == first;
        }
        DecodeInvertsEncode(frames[0], rest);
        assert rest <= Stream(frames[1..]) by {
          assert Stream(frames)[|first|..] == Stream(frames[1..]);
        }
        CutStream(frames[1..], rest);
        assert frames == [frames[0]] + frames[1..];
      }
    }
  }

  // ---- the program ----------------------------------------------------------------------------------

  /** A sink that fails once it has taken `room` more bytes, if there is such a limit. */
  class ByteWriter {
    var bytes: Bytes
    var room: Option<nat>

    constructor (room: Option<nat>)
      ensures bytes == [] && this.room == room
    {
      bytes, this.room := [], room;
    }

    ghost predicate Fits(n: nat) reads this {
      room.Some? ==> n <= room.value
    }

    /** `io.Writer.Write`: everything, or an error after what fitted. */
    method Write(chunk: Bytes) returns (ok: bool)
      modifies this
      ensures ok <==> old(Fits(|chunk|))
      ensures bytes == old(bytes) + (if ok then chunk else chunk[..old(room).value])
      ensures room == if old(room).None? then None else Some(if ok then old(room).value - |chunk| else 0)
    {
      if room.None? {
        bytes := bytes + chunk;
        return true;
      }
      if |chunk| <= room.value {
        bytes, room := bytes + chunk, Some(room.value - |chunk|);
        return true;
      }
      bytes, room := bytes + chunk[..room.value], Some(0);
      return false;
    }
  }

  /** A source of `data` that then ends, or fails when it is `broken`. */
  class ByteReader {
    const data: Bytes
    const broken: bool
    var pos: nat

    ghost predicate Valid() reads this { pos <= |data| }

    ghost function Remaining(): Bytes
      requires Valid()
      reads this
    {
      data[pos..]
    }

    constructor (data: Bytes, broken: bool)
      ensures Valid() && Remaining() == data && this.broken == broken
    {
      this.data, this.broken := data, broken;
      pos := 0;
    }

    /** `io.ReadFull`: `n` bytes, or an error after consuming what there was. */
    method ReadFull(n: nat) returns (ok: bool, chunk: Bytes, error: Error)
      requires Valid()
      modifies this
      ensures Valid()
      ensures ok <==> n <= |old(Remaining())|
      ensures ok ==> chunk == old(Remaining())[..n] && Remaining() == old(Remaining())[n..]
      ensures !ok ==> error == if broken then Broken else ShortRead(old(Remaining()))
    {
      if n <= |data| - pos {
        ok, chunk, error := true, data[pos..pos + n], Eof;
        pos := pos + n;
      } else {
        ok, chunk, error := false, [], if broken then Broken else if pos == |data| then Eof else UnexpectedEof;
        pos := |data|;
      }
    }
  }

  /** What a source that ends in a failure turns a short read into. */
  function Received(result: Read, broken: bool): Read {
    if broken && result.Fail? && (result.error == Eof || result.error == UnexpectedEof) then Fail(Broken) else result
  }

  lemma Regroup(front: Bytes, digit: uint8, tail: Bytes)
    ensures front + ([digit] + tail) == (front + [digit]) + tail
  {
  }

  lemma DigitMoves(value: nat, rest: nat, digit: uint8, i: nat, tail: Bytes)
    requires rest == value / 256 && digit == (value % 256) as uint8
    ensures |BigEndian(rest, i)| == i
    ensures BigEndian(rest, i) + ([digit] + tail) == BigEndian(value, i + 1) + tail
  {
    BigEndianReads(rest, i);
    assert BigEndian(value, i + 1) == BigEndian(rest, i) + [digit];
    Regroup(BigEndian(rest, i), digit, tail);
  }

  method PutBigEndian(a: array<uint8>, at: nat, k: nat, n: nat)
    requires at + k <= a.Length
    modifies a
    ensures a[at..at + k] == BigEndian(n, k)
    ensures forall i :: 0 <= i < a.Length && !(at <= i < at + k) ==> a[i] == old(a[i])
  {
    var value := n;
    var i := k;
    BigEndianReads(n, k);
    while i > 0
      invariant 0 <= i <= k
      invariant |BigEndian(value, i)| == i
      invariant BigEndian(value, i) + a[at + i..at + k] == BigEndian(n, k)
      invariant forall j :: 0 <= j < a.Length && !(at + i <= j < at + k) ==> a[j] == old(a[j])
    {
      ghost var tail, digit := a[at + i..at + k], (value % 256) as uint8;
      i := i - 1;
      a[at + i] := (value % 256) as uint8;
      assert a[at + i..at + k] == [digit] + tail;
      DigitMoves(value, value / 256, digit, i, tail);
      value := value / 256;
    }
    assert a[at..at + k] == BigEndian(value, 0) + a[at..at + k];
  }

  lemma HeaderReads(size: nat, id: nat, kind: uint8)
    ensures var s := BigEndian(size, 4) + BigEndian(id, 8) + [kind];
      && |BigEndian(size, 4)| == 4 && |BigEndian(id, 8)| == 8 && |s| == 13 && s[12] == kind
      && (size < 0x1_0000_0000 ==> size == Quad(s[0], s[1], s[2], s[3]))
      && (id < 0x1_0000_0000_0000_0000 ==>
            id == Quad(s[4], s[5], s[6], s[7]) * 0x1_0000_0000 + Quad(s[8], s[9], s[10], s[11]))
  {
    Powers();
    BigEndianReads(size, 4);
    BigEndianReads(id, 8);
    NumberOfBytes(BigEndian(size, 4));
    NumberOfBytes(BigEndian(id, 8));
  }

  method BuildHeader(size: nat, id: nat, kind: uint8) returns (bytes: Bytes)
    ensures |bytes| == 13 && bytes[12] == kind
    ensures size < 0x1_0000_0000 ==> size == Quad(bytes[0], bytes[1], bytes[2], bytes[3])
    ensures id < 0x1_0000_0000_0000_0000 ==>
      id == Quad(bytes[4], bytes[5], bytes[6], bytes[7]) * 0x1_0000_0000 + Quad(bytes[8], bytes[9], bytes[10], bytes[11])
    ensures bytes == BigEndian(size, 4) + BigEndian(id, 8) + [kind]
  {
    HeaderReads(size, id, kind);
    var header := new uint8[HEADER_SIZE];
    PutBigEndian(header, 0, 4, size);
    ghost var front := header[0..4];
    PutBigEndian(header, 4, 8, id);
    assert header[0..4] == front;
    header[12] := kind;
    assert header[0..4] == front && header[4..12] == BigEndian(id, 8);
    bytes := header[..];
    assert bytes == bytes[0..4] + bytes[4..12] + [bytes[12]];
    assert bytes[0..4] == BigEndian(size, 4) && bytes[4..12] == BigEndian(id, 8);
  }

  datatype WriteError = WroteAll | BadKind(kind: uint8) | PayloadTooLarge(size: nat) | WriteFailed

  /** Invalid frames are rejected before a byte is written; a sink that fails holds a
      strict prefix of the frame, which no reader takes for a frame. */
  method WriteFrame(w: ByteWriter, frame: Frame) returns (error: WriteError)
    requires Representable(frame)
    modifies w
    ensures error.BadKind? <==> frame.kind < 1 || frame.kind > 3
    ensures error.PayloadTooLarge? <==> 1 <= frame.kind <= 3 && |frame.payload| > 0x10_0000
    ensures error == WroteAll <==> Writable(frame) && old(w.Fits(|Encode(frame)|))
    ensures error == WriteFailed <==> Writable(frame) && !old(w.Fits(|Encode(frame)|))
    ensures error == WroteAll ==> w.bytes == old(w.bytes) + Encode(frame)
    ensures error == WriteFailed ==>
      && old(w.room).value < |Encode(frame)| && w.bytes == old(w.bytes) + Encode(frame)[..old(w.room).value]
      && Decode(Encode(frame)[..old(w.room).value]).Fail?
    ensures error != WroteAll && error != WriteFailed ==> w.bytes == old(w.bytes)
  {
    if !ValidKind(frame.kind) {
      return BadKind(frame.kind);
    }
    if |frame.payload| > MAX_PAYLOAD {
      return PayloadTooLarge(|frame.payload|);
    }
    CutFrames(frame);
    var header := BuildHeader(|frame.payload|, frame.id, frame.kind);
    var ok := WriteBoth(w, header, frame.payload);
    return if ok then WroteAll else WriteFailed;
  }

  lemma CutFrames(frame: Frame)
    requires Writable(frame)
    ensures forall n :: 0 <= n < |Encode(frame)| ==> Decode(Encode(frame)[..n]).Fail?
  {
    forall n | 0 <= n < |Encode(frame)| ensures Decode(Encode(frame)[..n]).Fail? {
      TruncationIsAnError(frame, Encode(frame)[..n]);
    }
  }

  /** Header and payload in two writes; the second only after the first went through. */
  method WriteBoth(w: ByteWriter, header: Bytes, payload: Bytes) returns (ok: bool)
    modifies w
    ensures ok <==> old(w.Fits(|header + payload|))
    ensures w.bytes == old(w.bytes) + (if ok then header + payload else (header + payload)[..old(w.room).value])
  {
    ok := w.Write(header);
    if !ok {
      assert (header + payload)[..old(w.room).value] == header[..old(w.room).value];
      return;
    }
    ok := w.Write(payload);
    if !ok {
      assert (header + payload)[..old(w.room).value] == header + payload[..old(w.room).value - |header|];
    }
  }

  method ReadFrame(r: ByteReader) returns (result: Read)
    requires r.Valid()
    modifies r
    ensures r.Valid()
    ensures var s := old(r.Remaining()); |s| >= 13 ==>
      var size := Quad(s[0], s[1], s[2], s[3]);
      && (result == Fail(TooLarge(size)) <==> size > 0x10_0000)
      && (size <= 0x10_0000 ==> (result == Fail(InvalidKind(s[12])) <==> s[12] < 1 || s[12] > 3))
      && (result.Got? <==> size <= 0x10_0000 && 1 <= s[12] <= 3 && |s| >= 13 + size)
      && (result.Got? ==>
            && result.frame.kind == s[12] && result.frame.payload == s[13..13 + size]
            && result.frame.id == Quad(s[4], s[5], s[6], s[7]) * 0x1_0000_0000 + Quad(s[8], s[9], s[10], s[11]))
    ensures result == Received(Decode(old(r.Remaining())), r.broken)
    ensures result.Got? ==> r.Remaining() == result.rest
  {
    ghost var s := r.Remaining();
    if |s| >= 13 {
      NumberOfBytes(s[..4]);
      NumberOfBytes(s[4..12]);
    }
    var ok, header, error := r.ReadFull(HEADER_SIZE);
    if !ok {
      return Fail(error);
    }
    var size := Number(header[..4]);
    assert header[..4] == s[..4] && header[4..12] == s[4..12];
    if size > MAX_PAYLOAD {
      return Fail(TooLarge(size));
    }
    var id, kind := Number(header[4..12]), header[12];
    if !ValidKind(kind) {
      return Fail(InvalidKind(kind));
    }
    var payload;
    ok, payload, error := r.ReadFull(size);
    if !ok {
      return Fail(error);
    }
    assert s[HEADER_SIZE..][..size] == s[HEADER_SIZE..HEADER_SIZE + size];
    assert s[HEADER_SIZE..][size..] == s[HEADER_SIZE + size..];
    return Got(Frame(id, kind, payload), r.data[r.pos..]);
  }
}
