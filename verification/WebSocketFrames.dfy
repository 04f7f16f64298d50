/** Frames of the streaming client, after sections 5.2 and 5.3 of RFC 6455: three length encodings, masking,
    and reads from a socket that delivers its bytes in chunks of any size. */
module WebSocketFrames {
  import opened Terms

  type Byte = x: int | 0 <= x < 256

  type Mask = m: seq<Byte> | |m| == 4 witness [0, 0, 0, 0]

  type Opcode = x: int | 0 <= x < 16

  datatype Frame = Frame(opcode: Opcode, payload: seq<Byte>)

  // ---------- Numbers as bytes ----------

  function Pow256(n: nat): nat {
    if n == 0 then 1 else 256 * Pow256(n - 1)
  }

  function BigEndian(n: nat, width: nat): seq<Byte> {
    if width == 0 then [] else BigEndian(n / 256, width - 1) + [n % 256]
  }

  function FromBigEndian(bytes: seq<Byte>): nat {
    if bytes == [] then 0 else 256 * FromBigEndian(bytes[..|bytes| - 1]) + bytes[|bytes| - 1]
  }

  lemma {:induction false} NumberRoundTrip(n: nat, width: nat)
    requires n < Pow256(width)
    ensures |BigEndian(n, width)| == width && FromBigEndian(BigEndian(n, width)) == n
  {
    if width > 0 {
      NumberRoundTrip(n / 256, width - 1);
      assert BigEndian(n, width)[..width - 1] == BigEndian(n / 256, width - 1);
    }
  }

  // ---------- Masking ----------

  /** Exclusive or of the lowest `bits` bits, bit by bit. */
  function Xor(a: nat, b: nat, bits: nat): nat {
    if bits == 0 then 0 else 2 * Xor(a / 2, b / 2, bits - 1) + if a % 2 == b % 2 then 0 else 1
  }

  lemma {:induction false} XorIsSmall(a: nat, b: nat, bits: nat)
    ensures Xor(a, b, bits) < Pow2(bits)
  {
    if bits > 0 {
      XorIsSmall(a / 2, b / 2, bits - 1);
    }
  }

  function Pow2(n: nat): nat {
    if n == 0 then 1 else 2 * Pow2(n - 1)
  }

  lemma XorHalves(a: nat, m: nat, bits: nat)
    requires bits > 0
    ensures Xor(a, m, bits) / 2 == Xor(a / 2, m / 2, bits - 1)
    ensures Xor(a, m, bits) % 2 == if a % 2 == m % 2 then 0 else 1
  {
    TwiceAndABit(Xor(a / 2, m / 2, bits - 1), if a % 2 == m % 2 then 0 else 1);
  }

  lemma TwiceAndABit(n: nat, bit: nat)
    requires bit < 2
    ensures (2 * n + bit) / 2 == n && (2 * n + bit) % 2 == bit
  {
  }

  lemma {:induction false} XorTwice(a: nat, m: nat, bits: nat)
    requires a < Pow2(bits)
    ensures Xor(Xor(a, m, bits), m, bits) == a
  {
    if bits > 0 {
      var x, half := Xor(a, m, bits), a / 2;
      XorHalves(a, m, bits);
      XorTwice(half, m / 2, bits - 1);
      assert Xor(x, m, bits) == 2 * half + if x % 2 == m % 2 then 0 else 1;
      assert a == 2 * half + a % 2;
    }
  }

  function XorByte(a: Byte, b: Byte): Byte {
    XorIsSmall(a, b, 8);
    assert Pow2(8) == 256;
    Xor(a, b, 8)
  }

  function Masked(payload: seq<Byte>, mask: Mask): seq<Byte> {
    seq(|payload|, i requires 0 <= i < |payload| => XorByte(payload[i], mask[i % 4]))
  }

  lemma MaskingTwiceIsIdentity(payload: seq<Byte>, mask: Mask)
    ensures Masked(Masked(payload, mask), mask) == payload
  {
    forall i | 0 <= i < |payload| ensures Masked(Masked(payload, mask), mask)[i] == payload[i] {
      assert Pow2(8) == 256;
      XorTwice(payload[i], mask[i % 4], 8);
    }
  }

  // ---------- The wire format ----------

  function LengthCode(length: nat): Byte {
    if length < 126 then length else if length < 65536 then 126 else 127
  }

  function ExtendedLength(length: nat): seq<Byte> {
    if length < 126 then [] else if length < 65536 then BigEndian(length, 2) else BigEndian(length, 8)
  }

  predicate Sendable(f: Frame) {
    |f.payload| < Pow256(8)
  }

  /** The top bit of the first byte marks a final frame, that of the second a masked one. Both bytes are
      otherwise below 0x80, so setting the bit is adding it. */
  function Header(opcode: Opcode, length: nat, masked: bool): seq<Byte> {
    [0x80 + opcode, if masked then 0x80 + LengthCode(length) else LengthCode(length)] + ExtendedLength(length)
  }

  function Body(payload: seq<Byte>, mask: Option<Mask>): seq<Byte> {
    match mask
    case Some(m) => m + Masked(payload, m)
    case None => payload
  }

  /** A frame as a client (masked) or a server (unmasked) sends it. */
  function Encode(f: Frame, mask: Option<Mask>): seq<Byte> {
    Header(f.opcode, |f.payload|, mask.Some?) + Body(f.payload, mask)
  }

  function ExtendedSize(code: Byte): nat {
    if code == 126 then 2 else if code == 127 then 8 else 0
  }

  datatype Parsed = Parsed(opcode: Opcode, length: nat, masked: bool, size: nat)

  /** The header at the start of a byte stream, and its size. */
  function ParseHeader(bytes: seq<Byte>): Option<Parsed> {
    if |bytes| < 2 then None
    else
      var code := bytes[1] % 0x80;
      var size := 2 + ExtendedSize(code);
      if |bytes| < size then None
      else Some(Parsed(
        bytes[0] % 0x10, if size == 2 then code else FromBigEndian(bytes[2..size]), bytes[1] >= 0x80, size))
  }

  function ParseBody(bytes: seq<Byte>, length: nat, masked: bool): Option<(seq<Byte>, seq<Byte>)> {
    var from := if masked then 4 else 0;
    if |bytes| < from + length then None
    else
      var payload := bytes[from..from + length];
      Some((if masked then Masked(payload, bytes[..4]) else payload, bytes[from + length..]))
  }

  /** The first frame of a byte stream and what follows it. */
  function Decode(bytes: seq<Byte>): Option<(Frame, seq<Byte>)> {
    match ParseHeader(bytes)
    case None => None
    case Some(h) =>
      HeaderFits(bytes);
      match ParseBody(bytes[h.size..], h.length, h.masked)
      case None => None
      case Some((payload, rest)) => Some((Frame(h.opcode, payload), rest))
  }

  lemma HeaderFits(bytes: seq<Byte>)
    ensures ParseHeader(bytes).Some? ==> 2 <= ParseHeader(bytes).value.size <= |bytes|
  {
  }

  lemma CodeIsSmall(length: nat)
    ensures LengthCode(length) < 128
    ensures length < 126 ==> LengthCode(length) == length && ExtendedSize(LengthCode(length)) == 0
    ensures 126 <= length ==> ExtendedSize(LengthCode(length)) == if length < 65536 then 2 else 8
  {
  }

  lemma LengthRoundTrip(length: nat)
    requires length < Pow256(8)
    ensures |ExtendedLength(length)| == ExtendedSize(LengthCode(length))
    ensures length == if length < 126 then LengthCode(length) else FromBigEndian(ExtendedLength(length))
  {
    CodeIsSmall(length);
    if 126 <= length < 65536 {
      assert Pow256(2) == 65536;
      NumberRoundTrip(length, 2);
    } else if 65536 <= length {
      NumberRoundTrip(length, 8);
    }
  }

  lemma TopBit(code: Byte)
    requires code < 0x80
    ensures (0x80 + code) % 0x80 == code % 0x80 == code
  {
  }

  lemma HeaderRoundTrip(opcode: Opcode, length: nat, masked: bool, rest: seq<Byte>)
    requires length < Pow256(8)
    ensures ParseHeader(Header(opcode, length, masked) + rest)
            == Some(Parsed(opcode, length, masked, |Header(opcode, length, masked)|))
  {
    var header, extended := Header(opcode, length, masked), ExtendedLength(length);
    CodeIsSmall(length);
    TopBit(LengthCode(length));
    assert (0x80 + opcode) % 0x10 == opcode;
    LengthRoundTrip(length);
    assert (header + rest)[2..2 + |extended|] == extended;
  }

  lemma BodyRoundTrip(payload: seq<Byte>, mask: Option<Mask>, rest: seq<Byte>)
    ensures ParseBody(Body(payload, mask) + rest, |payload|, mask.Some?) == Some((payload, rest))
  {
    var bytes, n := Body(payload, mask) + rest, |payload|;
    match mask
    case Some(m) =>
      assert bytes[..4] == m && bytes[4..4 + n] == Masked(payload, m) && bytes[4 + n..] == rest;
      MaskingTwiceIsIdentity(payload, m);
    case None =>
      assert bytes[..n] == payload && bytes[n..] == rest;
  }

  /** Reading what was sent gives the frame back and leaves the rest of the stream. */
  lemma FrameRoundTrip(f: Frame, mask: Option<Mask>, rest: seq<Byte>)
    requires Sendable(f)
    ensures Decode(Encode(f, mask) + rest) == Some((f, rest))
  {
    var header, body := Header(f.opcode, |f.payload|, mask.Some?), Body(f.payload, mask);
    assert Encode(f, mask) + rest == header + (body + rest);
    assert (header + (body + rest))[|header|..] == body + rest;
    HeaderRoundTrip(f.opcode, |f.payload|, mask.Some?, body + rest);
    BodyRoundTrip(f.payload, mask, rest);
  }

  function EncodeAll(frames: seq<Frame>, masks: seq<Option<Mask>>): seq<Byte>
    requires |masks| == |frames|
  {
    if frames == [] then [] else Encode(frames[0], masks[0]) + EncodeAll(frames[1..], masks[1..])
  }

  lemma NextFrame(frames: seq<Frame>, masks: seq<Option<Mask>>, rest: seq<Byte>, i: nat)
    requires i < |frames| == |masks|
    ensures EncodeAll(frames[i..], masks[i..]) + rest
            == Encode(frames[i], masks[i]) + (EncodeAll(frames[i + 1..], masks[i + 1..]) + rest)
  {
    assert frames[i..][1..] == frames[i + 1..] && masks[i..][1..] == masks[i + 1..];
  }

  // ---------- The socket and the client ----------

  /** The bytes still to come, the bytes sent, and how the network will cut the former: chunk sizes that the
      program does not know. */
  class Socket {
    var incoming: seq<Byte>
    var outgoing: seq<Byte>
    var chunks: seq<nat>

    constructor (incoming: seq<Byte>, chunks: seq<nat>)
      ensures this.incoming == incoming && this.chunks == chunks && outgoing == []
    {
      this.incoming, this.chunks, outgoing := incoming, chunks, [];
    }

    /** Some bytes, at least one and at most `size` of them; none when the peer has closed. */
    method Recv(size: nat) returns (chunk: seq<Byte>)
      requires 0 < size
      modifies this`incoming, this`chunks
      ensures old(incoming) == chunk + incoming && |chunk| <= size
      ensures chunk == [] <==> old(incoming) == []
    {
      var n := size;
      if chunks != [] {
        n, chunks := Min(size, Max(1, chunks[0])), chunks[1..];
      }
      n := Min(n, |incoming|);
      chunk, incoming := incoming[..n], incoming[n..];
    }

    method SendAll(bytes: seq<Byte>)
      modifies this`outgoing
      ensures outgoing == old(outgoing) + bytes
    {
      outgoing := outgoing + bytes;
    }

    /** `_read_exact`: exactly `size` bytes, however the network cuts them. */
    method ReadExact(size: nat) returns (bytes: Option<seq<Byte>>)
      modifies this`incoming, this`chunks
      ensures size <= |old(incoming)| ==> bytes == Some(old(incoming)[..size]) && incoming == old(incoming)[size..]
      ensures |old(incoming)| < size ==> bytes == None && incoming == []
    {
      var read: seq<Byte> := [];
      while |read| < size
        invariant |read| <= size && old(incoming) == read + incoming
        decreases size - |read|
      {
        var chunk := Recv(size - |read|);
        if chunk == [] {
          return None;
        }
        read := read + chunk;
      }
      bytes := Some(read);
    }

    /** `_send_frame`, with the mask it drew. A payload whose length takes more than eight bytes is refused. */
    method SendFrame(f: Frame, mask: Mask) returns (sent: bool)
      modifies this`outgoing
      ensures sent <==> Sendable(f)
      ensures outgoing == if sent then old(outgoing) + Encode(f, Some(mask)) else old(outgoing)
    {
      var length := |f.payload|;
      var header: seq<Byte> := [0x80 + f.opcode];
      if length < 126 {
        header := header + [0x80 + length];
      } else if length < 65536 {
        header := header + [0x80 + 126];
        header := header + BigEndian(length, 2);
      } else {
        if length >= Pow256(8) {
          return false;
        }
        header := header + [0x80 + 127];
        header := header + BigEndian(length, 8);
      }
      assert Pow256(8) == 0x1_0000_0000_0000_0000;
      assert header == Header(f.opcode, length, true);
      var masked := Masked(f.payload, mask);
      assert header + mask + masked == Encode(f, Some(mask));
      SendAll(header + mask + masked);
      sent := true;
    }

    method ReadHeader() returns (h: Option<Parsed>)
      modifies this`incoming, this`chunks
      ensures h == ParseHeader(old(incoming))
      ensures h.Some? ==> 2 <= h.value.size <= |old(incoming)| && incoming == old(incoming)[h.value.size..]
    {
      var header := ReadExact(2);
      if header.None? {
        return None;
      }
      var first, second := header.value[0], header.value[1];
      var opcode, masked, code := first % 0x10, second >= 0x80, second % 0x80;
      if code == 126 || code == 127 {
        var extended := ReadExact(ExtendedSize(code));
        if extended.None? {
          return None;
        }
        assert extended.value == old(incoming)[2..2 + ExtendedSize(code)];
        h := Some(Parsed(opcode, FromBigEndian(extended.value), masked, 2 + ExtendedSize(code)));
      } else {
        h := Some(Parsed(opcode, code, masked, 2));
      }
    }

    method ReadBody(length: nat, masked: bool) returns (payload: Option<seq<Byte>>)
      modifies this`incoming, this`chunks
      ensures match ParseBody(old(incoming), length, masked)
              case None => payload == None
              case Some((p, rest)) => payload == Some(p) && incoming == rest
    {
      var mask: Mask := [0, 0, 0, 0];
      if masked {
        var drawn := ReadExact(4);
        if drawn.None? {
          return None;
        }
        mask := drawn.value;
      }
      payload := ReadExact(length);
      if payload.Some? && masked {
        assert payload.value == old(incoming)[4..4 + length];
        payload := Some(Masked(payload.value, mask));
      }
    }

    /** `_read_frame`: what it returns, and what it leaves, is what decoding the whole stream gives. */
    method ReadFrame() returns (frame: Option<Frame>)
      modifies this`incoming, this`chunks
      ensures match Decode(old(incoming))
              case None => frame == None
              case Some((f, rest)) => frame == Some(f) && incoming == rest
    {
      var h := ReadHeader();
      if h.None? {
        return None;
      }
      var payload := ReadBody(h.value.length, h.value.masked);
      if payload.None? {
        return None;
      }
      frame := Some(Frame(h.value.opcode, payload.value));
    }

    method ReadSent(ghost f: Frame, ghost mask: Option<Mask>, ghost later: seq<Byte>) returns (frame: Frame)
      requires Sendable(f) && incoming == Encode(f, mask) + later
      modifies this`incoming, this`chunks
      ensures frame == f && incoming == later
    {
      FrameRoundTrip(f, mask, later);
      var read := ReadFrame();
      frame := read.value;
    }

    /** Whatever the frames, the masks and the chunk sizes, the concatenated frames read back as they were. */
    method ReadFrames(ghost frames: seq<Frame>, ghost masks: seq<Option<Mask>>, ghost rest: seq<Byte>, count: nat)
      returns (got: seq<Frame>)
      requires |masks| == |frames| == count && forall i | 0 <= i < count :: Sendable(frames[i])
      requires incoming == EncodeAll(frames, masks) + rest
      modifies this`incoming, this`chunks
      ensures got == frames && incoming == rest
    {
      got := [];
      for i := 0 to count
        invariant got == frames[..i] && incoming == EncodeAll(frames[i..], masks[i..]) + rest
      {
        NextFrame(frames, masks, rest, i);
        var frame := ReadSent(frames[i], masks[i], EncodeAll(frames[i + 1..], masks[i + 1..]) + rest);
        got := got + [frame];
      }
    }
  }
}
