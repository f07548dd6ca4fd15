/** The WebSocket frame codec (readFrame and writeFrame of services/api/internal/live/chat_hub.go),
    against the framing of section 5.2 of RFC 6455.

    Bytes are integers below 256, so masking out bits is a remainder and shifting a quotient. */
module Frames {

  newtype byte = x: int | 0 <= x < 256

  const MAX_FRAME_BYTES := 65536

  datatype Frame = Frame(opcode: byte, payload: seq<byte>)

  /** How a read ends: with a frame, with an I/O error for want of bytes, refused as too large, or in
      the run-time fault of allocating a payload of negative length. */
  datatype ReadResult =
    | Read(frame: Frame)
    | ShortRead
    | TooLarge
    | Fault

  // ---------- Big-endian integers ----------

  function Power256(k: nat): nat {
    if k == 0 then 1 else 256 * Power256(k - 1)
  }

  function Uint(bytes: seq<byte>): nat {
    if bytes == [] then 0
    else 256 * Uint(bytes[..|bytes| - 1]) + bytes[|bytes| - 1] as nat
  }

  function PutUint(n: nat, k: nat): (bytes: seq<byte>)
    ensures |bytes| == k
  {
    if k == 0 then [] else PutUint(n / 256, k - 1) + [(n % 256) as byte]
  }

  lemma {:induction false} UintOfPutUint(n: nat, k: nat)
    requires n < Power256(k)
    ensures Uint(PutUint(n, k)) == n
  {
    if k > 0 {
      UintOfPutUint(n / 256, k - 1);
      assert PutUint(n, k)[..k - 1] == PutUint(n / 256, k - 1);
    }
  }

  lemma {:induction false} UintBound(bytes: seq<byte>)
    ensures Uint(bytes) < Power256(|bytes|)
  {
    if bytes != [] { UintBound(bytes[..|bytes| - 1]); }
  }

  // int64(Uint64(ext)): the upper half of the range is negative.
  function AsInt64(n: nat): int {
    if n < 0x8000_0000_0000_0000 then n else n - 0x1_0000_0000_0000_0000
  }

  // ---------- Masking (section 5.3) ----------

  // The exclusive or of the k low bits of two numbers, bit by bit.
  function XorBits(a: nat, b: nat, k: nat): (x: nat)
    ensures x < Power2(k)
  {
    if k == 0 then 0 else 2 * XorBits(a / 2, b / 2, k - 1) + (a + b) % 2
  }

  function Power2(k: nat): nat {
    if k == 0 then 1 else 2 * Power2(k - 1)
  }

  function Xor(a: byte, b: byte): byte {
    assert Power2(8) == 256;
    XorBits(a as nat, b as nat, 8) as byte
  }

  lemma {:induction false} XorBitsTwice(a: nat, b: nat, k: nat)
    requires a < Power2(k)
    ensures XorBits(XorBits(a, b, k), b, k) == a
  {
    if k > 0 {
      var half := XorBits(a / 2, b / 2, k - 1);
      XorBitsTwice(a / 2, b / 2, k - 1);
      BitTwice(a, b, half);
    }
  }

  lemma BitTwice(a: nat, b: nat, half: nat)
    ensures var x := 2 * half + (a + b) % 2;
            x / 2 == half && 2 * (a / 2) + (x + b) % 2 == a
  {
  }

  lemma XorTwice(a: byte, b: byte)
    ensures Xor(Xor(a, b), b) == a
  {
    assert Power2(8) == 256;
    XorBitsTwice(a as nat, b as nat, 8);
  }

  function Masked(payload: seq<byte>, key: seq<byte>): seq<byte>
    requires |key| == 4
  {
    seq(|payload|, i requires 0 <= i < |payload| => Xor(payload[i], key[i % 4]))
  }

  lemma MaskedTwice(payload: seq<byte>, key: seq<byte>)
    requires |key| == 4
    ensures Masked(Masked(payload, key), key) == payload
  {
    forall i | 0 <= i < |payload| ensures Masked(Masked(payload, key), key)[i] == payload[i] {
      XorTwice(payload[i], key[i % 4]);
    }
  }

  method UnmaskInPlace(payload: array<byte>, key: seq<byte>)
    requires |key| == 4
    modifies payload
    ensures payload[..] == Masked(old(payload[..]), key)
  {
    for i := 0 to payload.Length
      invariant forall k :: 0 <= k < i ==> payload[k] == Xor(old(payload[k]), key[k % 4])
      invariant forall k :: i <= k < payload.Length ==> payload[k] == old(payload[k])
    {
      payload[i] := Xor(payload[i], key[i % 4]);
    }
  }

  // ---------- The format ----------

  /** The length field in the form that writeFrame chooses; mask is the top bit of its first byte. */
  function LengthField(n: nat, mask: nat): (field: seq<byte>)
    requires mask == 0 || mask == 128
    ensures |field| == if n < 126 then 1 else if n < 65536 then 3 else 9
  {
    if n < 126 then [(mask + n) as byte]
    else if n < 65536 then [(mask + 126) as byte] + PutUint(n, 2)
    else [(mask + 127) as byte] + PutUint(n, 8)
  }

  /** FIN and the opcode: 0x80|opcode. */
  function FirstByte(opcode: byte): byte {
    if opcode < 128 then opcode + 128 else opcode
  }

  /** A frame from the server, never masked. */
  function Encode(f: Frame): seq<byte> {
    [FirstByte(f.opcode)] + LengthField(|f.payload|, 0) + f.payload
  }

  /** A frame from a client, masked as section 5.3 asks. */
  function EncodeMasked(f: Frame, key: seq<byte>): seq<byte>
    requires |key| == 4
  {
    [FirstByte(f.opcode)] + LengthField(|f.payload|, 128) + key + Masked(f.payload, key)
  }

  // The number of extended length bytes that the second byte announces.
  function ExtendedLength(second: byte): nat {
    if second % 128 == 126 then 2 else if second % 128 == 127 then 8 else 0
  }

  function PayloadLength(s: seq<byte>): int
    requires |s| >= 2 && |s| >= 2 + ExtendedLength(s[1])
  {
    if s[1] % 128 == 126 then Uint(s[2..4])
    else if s[1] % 128 == 127 then AsInt64(Uint(s[2..10]))
    else (s[1] % 128) as int
  }

  function HeaderLength(s: seq<byte>): nat
    requires |s| >= 2
  {
    2 + ExtendedLength(s[1]) + if s[1] >= 128 then 4 else 0
  }

  /** What one readFrame makes of the bytes still to come, and how many of them it takes; a read
      that runs out of bytes has taken them all. */
  function Decode(s: seq<byte>): (ReadResult, nat) {
    if |s| < 2 || |s| < 2 + ExtendedLength(s[1]) then (ShortRead, |s|)
    else if PayloadLength(s) > MAX_FRAME_BYTES then (TooLarge, 2 + ExtendedLength(s[1]))
    else DecodeBody(s, 2 + ExtendedLength(s[1]), s[1] >= 128, PayloadLength(s))
  }

  // The mask key, if any, and a payload of n bytes, from position `at` on.
  function DecodeBody(s: seq<byte>, at: nat, masked: bool, n: int): (ReadResult, nat)
    requires 1 <= at <= |s|
  {
    var h := if masked then at + 4 else at;
    if |s| < h then (ShortRead, |s|)
    else if n < 0 then (Fault, h)
    else if |s| < h + n then (ShortRead, |s|)
    else (Read(Frame(s[0] % 16, if masked then Masked(s[h..h + n], s[h - 4..h]) else s[h..h + n])), h + n)
  }

  method Unmask(bytes: seq<byte>, key: seq<byte>) returns (unmasked: seq<byte>)
    requires |key| == 4
    ensures unmasked == Masked(bytes, key)
  {
    var payload := new byte[|bytes|](i requires 0 <= i < |bytes| => bytes[i]);
    assert payload[..] == bytes;
    UnmaskInPlace(payload, key);
    unmasked := payload[..];
  }

  lemma Slices(s: seq<byte>, from: nat, n: nat)
    requires from + n <= |s|
    ensures s[from..][..n] == s[from..from + n] && s[from..][n..] == s[from + n..]
  {
  }

  class WSConn {
    var incoming: seq<byte>  // bytes received and not yet read
    var outgoing: seq<byte>  // bytes written

    constructor (incoming: seq<byte>)
      ensures this.incoming == incoming && outgoing == []
    {
      this.incoming, outgoing := incoming, [];
    }

    // io.ReadFull
    method ReadFull(n: nat) returns (bytes: seq<byte>, ok: bool)
      modifies this`incoming
      ensures ok <==> n <= |old(incoming)|
      ensures ok ==> bytes == old(incoming)[..n] && incoming == old(incoming)[n..]
      ensures !ok ==> incoming == []
    {
      if |incoming| < n {
        incoming := [];
        return [], false;
      }
      bytes, incoming, ok := incoming[..n], incoming[n..], true;
    }

    // The extended payload length, when the second byte announces one.
    method ReadLength(second: byte, ghost s: seq<byte>) returns (payloadLen: int, ok: bool)
      requires |s| >= 2 && second == s[1] && incoming == s[2..]
      modifies this`incoming
      ensures ok <==> |s| >= 2 + ExtendedLength(second)
      ensures ok ==> payloadLen == PayloadLength(s) && incoming == s[2 + ExtendedLength(second)..]
      ensures !ok ==> incoming == []
    {
      payloadLen, ok := (second % 128) as int, true;
      if payloadLen == 126 {
        var ext;
        ext, ok := ReadFull(2);
        if ok {
          Slices(s, 2, 2);
          payloadLen := Uint(ext);
        }
      } else if payloadLen == 127 {
        var ext;
        ext, ok := ReadFull(8);
        if ok {
          Slices(s, 2, 8);
          payloadLen := AsInt64(Uint(ext));
        }
      }
    }

    // The rest of a frame after its length: the mask key, if any, and the payload.
    method ReadBody(opcode: byte, masked: bool, payloadLen: int, ghost s: seq<byte>, ghost at: nat) returns (r: ReadResult)
      requires 1 <= at <= |s| && incoming == s[at..] && opcode == s[0] % 16
      modifies this`incoming
      ensures r == DecodeBody(s, at, masked, payloadLen).0
      ensures incoming == s[DecodeBody(s, at, masked, payloadLen).1..]
    {
      var ok;
      var maskKey: seq<byte> := [0, 0, 0, 0];
      ghost var h := at;
      if masked {
        maskKey, ok := ReadFull(4);
        if !ok {
          return ShortRead;
        }
        Slices(s, at, 4);
        h := at + 4;
      }
      if payloadLen < 0 {
        return Fault;
      }
      var bytes;
      bytes, ok := ReadFull(payloadLen);
      if !ok {
        return ShortRead;
      }
      Slices(s, h, payloadLen);
      if masked {
        bytes := Unmask(bytes, maskKey);
      }
      r := Read(Frame(opcode, bytes));
    }

    method ReadFrame() returns (r: ReadResult)
      modifies this`incoming
      ensures r == Decode(old(incoming)).0
      ensures incoming == old(incoming)[Decode(old(incoming)).1..]
    {
      ghost var s := incoming;
      var header, ok := ReadFull(2);
      if !ok {
        return ShortRead;
      }
      var opcode := header[0] % 16;
      var masked := header[1] / 128 == 1;
      var payloadLen;
      payloadLen, ok := ReadLength(header[1], s);
      if !ok {
        return ShortRead;
      }
      if payloadLen > MAX_FRAME_BYTES {
        return TooLarge;
      }
      r := ReadBody(opcode, masked, payloadLen, s, 2 + ExtendedLength(s[1]));
    }

    method WriteFrame(opcode: byte, payload: seq<byte>)
      requires |payload| < Power256(8)
      modifies this`outgoing
      ensures outgoing == old(outgoing) + Encode(Frame(opcode, payload))
    {
      var n := |payload|;
      var buf := [FirstByte(opcode)];
      if n < 126 {
        buf := buf + [n as byte];
      } else if n < 65536 {
        buf := buf + [126];
        buf := buf + PutUint(n, 2);
      } else {
        buf := buf + [127];
        buf := buf + PutUint(n, 8);
      }
      buf := buf + payload;
      outgoing := outgoing + buf;
    }
  }

  // ---------- Round trips ----------

  lemma ShortLength(n: nat, k: nat)
    requires (k == 2 && n < 65536) || (k == 8 && n < Power256(8))
    ensures Uint(PutUint(n, k)) == n
  {
    assert Power256(2) == 65536;
    UintOfPutUint(n, k);
  }

  // What the reader makes of a header: the length, whether a mask follows, and where the field ends.
  predicate HeaderSays(s: seq<byte>, first: byte, n: nat, mask: nat, fieldLength: nat) {
    && |s| >= 1 + fieldLength && fieldLength >= 1
    && s[0] == first
    && 2 + ExtendedLength(s[1]) == 1 + fieldLength
    && PayloadLength(s) == n
    && (s[1] >= 128 <==> mask == 128)
  }

  lemma ShortFieldRead(first: byte, n: nat, mask: nat, rest: seq<byte>)
    requires (mask == 0 || mask == 128) && n < 126
    ensures HeaderSays([first] + LengthField(n, mask) + rest, first, n, mask, 1)
  {
  }

  // An extended length: its first byte, k bytes of length, and the rest.
  lemma ExtendedLayout(first: byte, second: byte, length: seq<byte>, rest: seq<byte>)
    ensures var s := [first] + ([second] + length) + rest;
            |s| >= 2 + |length| && s[0] == first && s[1] == second && s[2..2 + |length|] == length
  {
  }

  lemma ExtendedFieldRead(first: byte, n: nat, mask: nat, rest: seq<byte>)
    requires (mask == 0 || mask == 128) && 126 <= n < 65536
    ensures HeaderSays([first] + LengthField(n, mask) + rest, first, n, mask, 3)
  {
    ShortLength(n, 2);
    ExtendedLayout(first, (mask + 126) as byte, PutUint(n, 2), rest);
  }

  lemma LongFieldRead(first: byte, n: nat, mask: nat, rest: seq<byte>)
    requires (mask == 0 || mask == 128) && n == 65536
    ensures HeaderSays([first] + LengthField(n, mask) + rest, first, n, mask, 9)
  {
    assert n < Power256(8) by { assert Power256(3) == 16777216; PowerGrows(3, 8); }
    ShortLength(n, 8);
    ExtendedLayout(first, (mask + 127) as byte, PutUint(n, 8), rest);
  }

  lemma LengthFieldRead(first: byte, n: nat, mask: nat, rest: seq<byte>)
    requires (mask == 0 || mask == 128) && n <= MAX_FRAME_BYTES
    ensures HeaderSays([first] + LengthField(n, mask) + rest, first, n, mask, |LengthField(n, mask)|)
  {
    if n < 126 {
      ShortFieldRead(first, n, mask, rest);
    } else if n < 65536 {
      ExtendedFieldRead(first, n, mask, rest);
    } else {
      LongFieldRead(first, n, mask, rest);
    }
  }

  lemma {:induction false} PowerGrows(k: nat, m: nat)
    requires k <= m
    ensures Power256(k) <= Power256(m)
    decreases m - k
  {
    if k < m { PowerGrows(k + 1, m); }
  }

  /** Reading what writeFrame wrote returns the frame and takes exactly its bytes, for every payload
      up to the limit; only the low four bits of the opcode travel. */
  lemma DecodeEncode(f: Frame, rest: seq<byte>)
    requires |f.payload| <= 65536
    ensures Decode(Encode(f) + rest) == (Read(Frame(f.opcode % 16, f.payload)), |Encode(f)|)
  {
    var s := Encode(f) + rest;
    var field := LengthField(|f.payload|, 0);
    assert s == [FirstByte(f.opcode)] + field + (f.payload + rest);
    LengthFieldRead(FirstByte(f.opcode), |f.payload|, 0, f.payload + rest);
    DecodeByHeader(s, FirstByte(f.opcode), |f.payload|, 0, |field|);
    assert s[1 + |field|..1 + |field| + |f.payload|] == f.payload;
  }

  /** A payload over the limit is refused, so the limit is exactly where the round trip ends. */
  lemma DecodeEncodeTooLarge(f: Frame, rest: seq<byte>)
    requires 65536 < |f.payload| < 0x8000_0000_0000_0000
    ensures Decode(Encode(f) + rest).0 == TooLarge
  {
    var n := |f.payload|;
    var s := Encode(f) + rest;
    assert Power256(4) == 0x1_0000_0000;
    assert Power256(8) == Power256(4) * Power256(4);
    ShortLength(n, 8);
    assert s[2..10] == PutUint(n, 8);
  }

  /** A client's frame, masked with any key, decodes to its original payload. */
  lemma DecodeEncodeMasked(f: Frame, key: seq<byte>, rest: seq<byte>)
    requires |f.payload| <= MAX_FRAME_BYTES && |key| == 4
    ensures Decode(EncodeMasked(f, key) + rest) == (Read(Frame(f.opcode % 16, f.payload)), |EncodeMasked(f, key)|)
  {
    var field, n := LengthField(|f.payload|, 128), |f.payload|;
    var header, body := [FirstByte(f.opcode)] + field, Masked(f.payload, key);
    var s := EncodeMasked(f, key) + rest;
    assert s == header + (key + body + rest);
    LengthFieldRead(FirstByte(f.opcode), n, 128, key + body + rest);
    MaskedParts(header, key, body, rest);
    DecodeByHeader(s, FirstByte(f.opcode), n, 128, |field|);
    MaskedTwice(f.payload, key);
  }

  lemma DecodeByHeader(s: seq<byte>, first: byte, n: nat, mask: nat, fieldLength: nat)
    requires HeaderSays(s, first, n, mask, fieldLength) && n <= MAX_FRAME_BYTES && (mask == 0 || mask == 128)
    ensures Decode(s) == DecodeBody(s, 1 + fieldLength, mask == 128, n)
  {
  }

  lemma MaskedParts(header: seq<byte>, key: seq<byte>, body: seq<byte>, rest: seq<byte>)
    ensures var s := header + (key + body + rest);
            var h := |header| + |key|;
            |s| >= h + |body| && s[h - |key|..h] == key && s[h..h + |body|] == body
  {
  }

  /** The minimal form: no byte string that decodes to the same payload is shorter than what
      writeFrame writes. */
  lemma EncodeIsShortest(s: seq<byte>, f: Frame)
    requires Decode(s).0 == Read(f)
    ensures |f.payload| <= MAX_FRAME_BYTES && |Encode(f)| <= Decode(s).1 <= |s|
  {
    if s[1] % 128 == 126 {
      UintBound(s[2..4]);
      assert Power256(2) == 65536;
    }
  }

  function EncodeAll(frames: seq<Frame>): seq<byte> {
    if frames == [] then [] else Encode(frames[0]) + EncodeAll(frames[1..])
  }

  /** Repeated reads, up to the first that returns no frame. */
  function DecodeAll(s: seq<byte>): seq<Frame>
    decreases |s|
  {
    match Decode(s)
    case (Read(f), n) => DecodeTakes(s); [f] + DecodeAll(s[n..])
    case _ => []
  }

  lemma DecodeTakes(s: seq<byte>)
    ensures Decode(s).0.Read? ==> 2 <= Decode(s).1 <= |s|
  {
  }

  ghost predicate Sendable(f: Frame) {
    f.opcode < 16 && |f.payload| <= MAX_FRAME_BYTES
  }

  /** The frames of up to n reads, and the bytes left after them. */
  function DecodeN(s: seq<byte>, n: nat): (seq<Frame>, seq<byte>) {
    if n == 0 then ([], s) else
    match Decode(s)
    case (Read(f), taken) =>
      DecodeTakes(s);
      var (frames, rest) := DecodeN(s[taken..], n - 1);
      ([f] + frames, rest)
    case _ => ([], s)
  }

  lemma FirstFrame(f: Frame, rest: seq<byte>)
    requires Sendable(f)
    ensures Decode(Encode(f) + rest) == (Read(f), |Encode(f)|) && (Encode(f) + rest)[|Encode(f)|..] == rest
  {
    DecodeEncode(f, rest);
  }

  lemma OneRead(s: seq<byte>, n: nat, f: Frame, taken: nat)
    requires n > 0 && Decode(s) == (Read(f), taken)
    ensures taken <= |s|
    ensures DecodeN(s, n) == ([f] + DecodeN(s[taken..], n - 1).0, DecodeN(s[taken..], n - 1).1)
  {
    DecodeTakes(s);
  }

  /** Any list of frames, written one after the other, is read back as it was: that many reads return
      exactly the frames and leave exactly the bytes that follow them, whatever these are. */
  lemma {:induction false} DecodeNEncodeAll(frames: seq<Frame>, rest: seq<byte>)
    requires forall i :: 0 <= i < |frames| ==> Sendable(frames[i])
    ensures DecodeN(EncodeAll(frames) + rest, |frames|) == (frames, rest)
  {
    var s := EncodeAll(frames) + rest;
    if frames == [] {
      assert s == rest;
    } else {
      var first, others := Encode(frames[0]), EncodeAll(frames[1..]);
      assert s == first + (others + rest);
      FirstFrame(frames[0], others + rest);
      OneRead(s, |frames|, frames[0], |first|);
      DecodeNEncodeAll(frames[1..], rest);
      assert frames == [frames[0]] + frames[1..];
    }
  }

  lemma ReadUntilNone(s: seq<byte>, f: Frame, taken: nat)
    requires Decode(s) == (Read(f), taken)
    ensures taken <= |s| && DecodeAll(s) == [f] + DecodeAll(s[taken..])
  {
    DecodeTakes(s);
  }

  /** Reading until no frame comes any more gives back the list as well. */
  lemma {:induction false} DecodeAllEncodeAll(frames: seq<Frame>)
    requires forall i :: 0 <= i < |frames| ==> Sendable(frames[i])
    ensures DecodeAll(EncodeAll(frames)) == frames
  {
    if frames != [] {
      var first, others := Encode(frames[0]), EncodeAll(frames[1..]);
      FirstFrame(frames[0], others);
      ReadUntilNone(first + others, frames[0], |first|);
      DecodeAllEncodeAll(frames[1..]);
      assert frames == [frames[0]] + frames[1..];
    }
  }

  /** The allocation faults exactly when the header is complete and announces a length of 2^63 or
      more, which section 5.2 forbids. */
  lemma FaultOnForbiddenLength(s: seq<byte>)
    ensures Decode(s).0 == Fault <==>
              && |s| >= 10 && s[1] % 128 == 127 && |s| >= HeaderLength(s)
              && Uint(s[2..10]) >= 0x8000_0000_0000_0000
  {
    if |s| >= 10 {
      UintBound(s[2..10]);
      assert Power256(4) == 0x1_0000_0000;
      assert Power256(8) == Power256(4) * Power256(4);
    }
  }
}
