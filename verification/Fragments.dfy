/** What a WebSocket receiver makes of the bytes of services/api/internal/live/chat_hub.go: the meaning
    of the bits of a frame, and messages put together by the fragmentation rule of section 5.4 of
    RFC 6455. */
module Fragments {
  import opened Options
  import opened Frames

  // ---------- Bits ----------

  function Bit(n: nat, i: nat): nat {
    if i == 0 then n % 2 else Bit(n / 2, i - 1)
  }

  /** Masking is exclusive or: each bit is set exactly where the two differ. */
  lemma {:induction false} XorBitsDiffer(a: nat, b: nat, k: nat, i: nat)
    requires i < k
    ensures Bit(XorBits(a, b, k), i) == 1 <==> Bit(a, i) != Bit(b, i)
    decreases k
  {
    if i > 0 {
      XorBitsDiffer(a / 2, b / 2, k - 1, i - 1);
      assert XorBits(a, b, k) / 2 == XorBits(a / 2, b / 2, k - 1);
    }
  }

  /** Octet i of a masked payload is flipped exactly in the bits of octet i modulo 4 of the key. */
  lemma MaskedBits(payload: seq<byte>, key: seq<byte>, i: nat, bit: nat)
    requires |key| == 4 && i < |payload| && bit < 8
    ensures |Masked(payload, key)| == |payload|
    ensures Bit(Masked(payload, key)[i] as nat, bit) == 1 <==> Bit(payload[i] as nat, bit) != Bit(key[i % 4] as nat, bit)
  {
    XorBitsDiffer(payload[i] as nat, key[i % 4] as nat, 8, bit);
  }

  // n shifted right by k octets.
  function Shifted(n: nat, k: nat): nat {
    if k == 0 then n else Shifted(n / 256, k - 1)
  }

  /** Lengths travel in network byte order: the first octet is the most significant. */
  lemma {:induction false} NetworkOrder(n: nat, k: nat, i: nat)
    requires i < k
    ensures PutUint(n, k)[i] as nat == Shifted(n, k - 1 - i) % 256
    decreases k
  {
    if i < k - 1 { NetworkOrder(n / 256, k - 1, i); }
  }

  // ---------- The first octet ----------

  predicate Fin(s: seq<byte>)
    requires s != []
  {
    s[0] / 128 == 1
  }

  // RSV1, RSV2 and RSV3, which no extension gives a meaning here.
  predicate Reserved(s: seq<byte>)
    requires s != []
  {
    s[0] % 128 / 16 != 0
  }

  /** Every frame is written as the last of its message, with its opcode and without reserved bits. */
  lemma FirstOctet(f: Frame)
    ensures Encode(f) != [] && Fin(Encode(f)) && Encode(f)[0] % 128 == f.opcode % 128
    ensures f.opcode < 16 ==> !Reserved(Encode(f))
  {
  }

  // ---------- Messages ----------

  datatype Message = Message(opcode: byte, payload: seq<byte>)

  /** What a receiver has made of its input: the complete messages, the fragmented message that is
      still open, and whether it had to fail the connection. */
  datatype Reception = Reception(messages: seq<Message>, open: Option<Message>, failed: bool)

  function Delivered(r: Reception, m: Message): Reception {
    r.(messages := r.messages + [m])
  }

  /** One frame, by section 5.4: a frame with opcode 0 continues the open message, any other data frame
      starts one, FIN completes it; control frames may come in between but are never fragmented. */
  function Received(r: Reception, f: Frame, fin: bool): Reception {
    if f.opcode >= 8 then
      if fin then Delivered(r, Message(f.opcode, f.payload)) else r.(failed := true)
    else if f.opcode == 0 then
      match r.open
      case None => r.(failed := true)
      case Some(m) =>
        var longer := Message(m.opcode, m.payload + f.payload);
        if fin then Delivered(r.(open := None), longer) else r.(open := Some(longer))
    else if r.open.Some? then r.(failed := true)
    else if fin then Delivered(r, Message(f.opcode, f.payload))
    else r.(open := Some(Message(f.opcode, f.payload)))
  }

  /** All frames that the bytes hold; a reserved bit fails the connection (section 5.2). */
  function Receive(r: Reception, s: seq<byte>): Reception
    decreases |s|
  {
    if r.failed then r
    else match Decode(s)
      case (Read(f), n) =>
        DecodeTakes(s);
        if Reserved(s) then r.(failed := true) else Receive(Received(r, f, Fin(s)), s[n..])
      case _ => r
  }

  function AsMessages(frames: seq<Frame>): seq<Message> {
    if frames == [] then [] else [Message(frames[0].opcode, frames[0].payload)] + AsMessages(frames[1..])
  }

  lemma ReceiveRead(r: Reception, s: seq<byte>, f: Frame, n: nat)
    requires !r.failed && Decode(s) == (Read(f), n) && !Reserved(s)
    ensures n <= |s| && Receive(r, s) == Receive(Received(r, f, Fin(s)), s[n..])
  {
    DecodeTakes(s);
  }

  lemma ReceiveFirst(r: Reception, f: Frame, rest: seq<byte>)
    requires !r.failed && Sendable(f)
    ensures Receive(r, Encode(f) + rest) == Receive(Received(r, f, true), rest)
  {
    FirstFrame(f, rest);
    FirstOctet(f);
    ReceiveRead(r, Encode(f) + rest, f, |Encode(f)|);
  }

  // The frames one after the other, each of them the last of its message.
  function Assembled(r: Reception, frames: seq<Frame>): Reception
    decreases |frames|
  {
    if r.failed || frames == [] then r else Assembled(Received(r, frames[0], true), frames[1..])
  }

  /** What is written is received frame by frame, and the receiver then goes on with what follows. */
  lemma {:induction false} WrittenIsReceived(r: Reception, frames: seq<Frame>, rest: seq<byte>)
    requires forall i :: 0 <= i < |frames| ==> Sendable(frames[i])
    ensures Receive(r, EncodeAll(frames) + rest) == Receive(Assembled(r, frames), rest)
    decreases |frames|
  {
    if r.failed {
    } else if frames == [] {
      assert EncodeAll(frames) + rest == rest;
    } else {
      var others := EncodeAll(frames[1..]);
      assert EncodeAll(frames) + rest == Encode(frames[0]) + (others + rest);
      ReceiveFirst(r, frames[0], others + rest);
      WrittenIsReceived(Received(r, frames[0], true), frames[1..], rest);
    }
  }

  lemma {:induction false} AssembledWhole(r: Reception, frames: seq<Frame>)
    requires !r.failed && r.open.None?
    ensures var a := Assembled(r, frames);
            && a.open.None?
            && (a.failed <==> exists i :: 0 <= i < |frames| && frames[i].opcode == 0)
            && (!a.failed ==> a.messages == r.messages + AsMessages(frames))
    decreases |frames|
  {
    if frames == [] {
    } else if frames[0].opcode == 0 {
      var a := Received(r, frames[0], true);
      assert Assembled(a, frames[1..]) == a;
    } else {
      var a := Received(r, frames[0], true);
      AssembledWhole(a, frames[1..]);
      assert forall i :: 1 <= i < |frames| ==> frames[i] == frames[1..][i - 1];
      assert r.messages + [Message(frames[0].opcode, frames[0].payload)] + AsMessages(frames[1..]) == r.messages + AsMessages(frames);
    }
  }

  /** From the bytes that are written, a receiver gets exactly one message for each frame, in order, and
      nothing is left open.  It has to fail the connection exactly if some frame has opcode 0, for which
      there is no message to continue. */
  lemma OneMessagePerFrame(frames: seq<Frame>)
    requires forall i :: 0 <= i < |frames| ==> Sendable(frames[i])
    ensures var r := Receive(Reception([], None, false), EncodeAll(frames));
            && r.open.None?
            && (r.failed <==> exists i :: 0 <= i < |frames| && frames[i].opcode == 0)
            && (!r.failed ==> r.messages == AsMessages(frames))
  {
    var start := Reception([], None, false);
    WrittenIsReceived(start, frames, []);
    assert EncodeAll(frames) + [] == EncodeAll(frames);
    AssembledWhole(start, frames);
    NothingLeft(Assembled(start, frames));
    assert [] + AsMessages(frames) == AsMessages(frames);
  }

  lemma NothingLeft(r: Reception)
    ensures Receive(r, []) == r
  {
    assert Decode([]).0 == ShortRead;
  }

  /** The server's own reader does not follow that rule: FIN and the reserved bits make no difference to
      it, so the fragments of a client's message come out of it as frames of their own. */
  lemma ReaderIgnoresFin(s: seq<byte>, first: byte)
    requires s != [] && first % 16 == s[0] % 16
    ensures Decode(s[0 := first]) == Decode(s)
  {
    var t := s[0 := first];
    if |s| >= 2 {
      assert t[1..] == s[1..];
      assert forall i, k :: 1 <= i <= k <= |s| ==> t[i..k] == s[i..k];
    }
  }
}
