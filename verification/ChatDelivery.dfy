/** One chat client: its bounded send channel, the write pump that drains it, and the goroutines
    that fill and close it (services/api/internal/live/chat_hub.go).

    Broadcasts reach the client while it is in the room, replies come from its own read pump, and
    the deferred cleanup of AddClient removes it from the room before it closes the channel. */
module ChatDelivery {

  type Message = string

  const SEND_BUFFER := 64

  /** `wire` is what has been written to the connection.  The last four fields record the past;
      no step looks at them. */
  datatype Client = Client(
    buffer: seq<Message>, closed: bool, wire: seq<Message>, pumpDone: bool,
    reading: bool, inRoom: bool,
    fault: bool,              // a send on the closed channel
    handed: seq<Message>,     // everything ever passed to enqueue
    accepted: nat,            // how many of those the channel took before it was closed
    lost: seq<Message>,       // taken off the channel by a failing write
    overflowed: bool)

  datatype Event =
    | Broadcast(msg: Message)
    | Reply(msg: Message)
    | StopReading
    | Remove
    | CloseSend
    | Deliver
    | DeliverFails
    | PumpExit

  const Fresh := Client([], false, [], false, true, true, false, [], 0, [], false)

  /** enqueue: a send that does not block, or else an eviction; sending on a closed channel faults. */
  function Enqueued(c: Client, msg: Message): Client {
    var c := c.(handed := c.handed + [msg]);
    if c.closed then c.(fault := true)
    else if |c.buffer| < SEND_BUFFER then c.(buffer := c.buffer + [msg], accepted := c.accepted + 1)
    else c.(closed := true, overflowed := true)
  }

  predicate Enabled(c: Client, e: Event) {
    !c.fault &&
    match e
    case Broadcast(_) => c.inRoom
    case Reply(_) => c.reading
    case StopReading => c.reading
    case Remove => !c.reading && c.inRoom
    case CloseSend => !c.reading && !c.inRoom
    case Deliver => !c.pumpDone && c.buffer != []
    case DeliverFails => !c.pumpDone && c.buffer != []
    case PumpExit => !c.pumpDone && c.buffer == [] && c.closed
  }

  function Step(c: Client, e: Event): Client
    requires Enabled(c, e)
  {
    match e
    case Broadcast(msg) => Enqueued(c, msg)
    case Reply(msg) => Enqueued(c, msg)
    case StopReading => c.(reading := false)
    case Remove => c.(inRoom := false)
    case CloseSend => c.(closed := true)  // closeOnce: without effect the second time
    case Deliver => c.(buffer := c.buffer[1..], wire := c.wire + [c.buffer[0]])
    case DeliverFails => c.(buffer := c.buffer[1..], lost := [c.buffer[0]], pumpDone := true)
    case PumpExit => c.(pumpDone := true)
  }

  ghost predicate Runs(c: Client, run: seq<Event>, c': Client)
    decreases |run|
  {
    if run == [] then c == c'
    else Enabled(c, run[0]) && Runs(Step(c, run[0]), run[1..], c')
  }

  ghost predicate Inv(c: Client) {
    && |c.buffer| <= SEND_BUFFER
    && c.accepted <= |c.handed|
    && c.wire + c.lost + c.buffer == c.handed[..c.accepted]
    && (c.lost == [] || (|c.lost| == 1 && c.pumpDone))
    && (!c.closed ==> c.accepted == |c.handed| && !c.fault && !c.overflowed)
    && (c.closed && !c.overflowed ==> !c.reading && !c.inRoom && !c.fault && c.accepted == |c.handed|)
    && (c.pumpDone && c.lost == [] ==> c.closed && c.buffer == [])
  }

  lemma InvStep(c: Client, e: Event)
    requires Inv(c) && Enabled(c, e)
    ensures Inv(Step(c, e))
  {
    var c' := Step(c, e);
    match e
    case Deliver =>
      assert c'.wire + c'.lost + c'.buffer == c.wire + c.lost + c.buffer;
    case DeliverFails =>
      assert c'.wire + c'.lost + c'.buffer == c.wire + c.lost + c.buffer;
    case Broadcast(msg) => EnqueuedKeeps(c, msg);
    case Reply(msg) => EnqueuedKeeps(c, msg);
    case _ =>
  }

  lemma EnqueuedKeeps(c: Client, msg: Message)
    requires Inv(c) && (c.reading || c.inRoom) && !c.fault
    ensures Inv(Enqueued(c, msg))
  {
    assert (c.handed + [msg])[..c.accepted] == c.handed[..c.accepted];
    if !c.closed {
      assert (c.handed + [msg])[..c.accepted + 1] == c.handed + [msg];
      assert c.wire + c.lost + (c.buffer + [msg]) == c.wire + c.lost + c.buffer + [msg];
    }
  }

  lemma {:induction false} InvRuns(c: Client, run: seq<Event>, c': Client)
    requires Inv(c) && Runs(c, run, c')
    ensures Inv(c')
    decreases |run|
  {
    if run != [] {
      InvStep(c, run[0]);
      InvRuns(Step(c, run[0]), run[1..], c');
    }
  }

  /** What reaches the connection is a prefix of the messages handed to the client, in order and
      without gaps.  Until the channel is closed it takes every message; the buffer never holds more
      than 64.  A pump that ends without a write error has written all that the channel took. */
  lemma Delivery(run: seq<Event>, c: Client)
    requires Runs(Fresh, run, c)
    ensures c.accepted <= |c.handed| && c.wire <= c.handed[..c.accepted] && |c.buffer| <= 64
    ensures !c.closed ==> c.accepted == |c.handed| && (c.pumpDone || c.wire + c.buffer == c.handed)
    ensures c.pumpDone && c.lost == [] ==> c.wire == c.handed[..c.accepted]
    ensures c.pumpDone ==> |c.handed[..c.accepted]| - |c.wire| <= SEND_BUFFER + 1
  {
    InvRuns(Fresh, run, c);
    assert c.wire + c.lost + c.buffer == c.wire + (c.lost + c.buffer);
  }

  /** The channel goes from open to closed at most once. */
  ghost function Closings(c: Client, run: seq<Event>): nat
    decreases |run|
  {
    if run == [] || !Enabled(c, run[0]) then 0
    else (if !c.closed && Step(c, run[0]).closed then 1 else 0) + Closings(Step(c, run[0]), run[1..])
  }

  lemma {:induction false} ClosedAtMostOnce(c: Client, run: seq<Event>, c': Client)
    requires Runs(c, run, c')
    ensures Closings(c, run) == (if c'.closed && !c.closed then 1 else 0)
    ensures c.closed ==> c'.closed && c'.accepted == c.accepted
    decreases |run|
  {
    if run != [] { ClosedAtMostOnce(Step(c, run[0]), run[1..], c'); }
  }

  ghost predicate IsMessage(e: Event) { e.Broadcast? || e.Reply? }

  /** Some message is handed to the client after its channel was closed. */
  ghost predicate SendsAfterClose(c: Client, run: seq<Event>)
    decreases |run|
  {
    run != [] && Enabled(c, run[0]) &&
    ((c.closed && IsMessage(run[0])) || SendsAfterClose(Step(c, run[0]), run[1..]))
  }

  /** Exactly the runs that hand a message to the client after its channel was closed end in the fault. */
  lemma {:induction false} FaultIffSendAfterClose(c: Client, run: seq<Event>, c': Client)
    requires Runs(c, run, c') && !c.fault
    ensures c'.fault <==> SendsAfterClose(c, run)
    decreases |run|
  {
    if run != [] {
      var next := Step(c, run[0]);
      if next.fault {
        assert run[1..] == [];
      } else {
        FaultIffSendAfterClose(next, run[1..], c');
      }
    }
  }

  /** A disconnect is safe, because the client leaves the room before its channel is closed: only
      an eviction, which leaves it in the room, can be followed by the fault. */
  lemma FaultNeedsOverflow(run: seq<Event>, c: Client)
    requires Runs(Fresh, run, c)
    ensures c.fault ==> c.overflowed
    ensures c.closed && !c.overflowed ==> forall e :: Enabled(c, e) ==> !IsMessage(e)
  {
    InvRuns(Fresh, run, c);
  }

  // The pump writes out n messages and ends.
  function Drain(n: nat): seq<Event> {
    if n == 0 then [PumpExit] else [Deliver] + Drain(n - 1)
  }

  lemma {:induction false} PumpDrains(c: Client) returns (c': Client)
    requires c.closed && !c.pumpDone && !c.fault
    ensures Runs(c, Drain(|c.buffer|), c') && c'.closed && c'.pumpDone && c'.wire == c.wire + c.buffer
    decreases |c.buffer|
  {
    if c.buffer == [] {
      c' := Step(c, PumpExit);
      assert [PumpExit][1..] == [];
    } else {
      var next := Step(c, Deliver);
      assert Drain(|c.buffer|)[0] == Deliver && Drain(|c.buffer|)[1..] == Drain(|next.buffer|);
      c' := PumpDrains(next);
      assert next.wire + next.buffer == c.wire + c.buffer;
    }
  }

  /** A client that disconnects, before its pump has failed, can always go through its cleanup and have
      its pump write out everything that its channel took, which is every message it was ever handed
      unless it has been evicted; the pump then ends. */
  lemma DisconnectDrains(run: seq<Event>, c: Client) returns (c': Client)
    requires Runs(Fresh, run, c) && c.reading && c.inRoom && !c.fault && !c.pumpDone
    ensures Runs(c, [StopReading, Remove, CloseSend] + Drain(|c.buffer|), c')
    ensures c'.closed && c'.pumpDone && c.accepted <= |c.handed| && c'.wire == c.handed[..c.accepted]
    ensures !c.overflowed ==> c'.wire == c.handed
  {
    InvRuns(Fresh, run, c);
    OverflowedIsClosed(Fresh, run, c);
    assert c.wire + c.lost + c.buffer == c.wire + c.buffer;
    assert c.handed[..|c.handed|] == c.handed;
    c' := PumpDrains(c.(reading := false, inRoom := false, closed := true));
    CleanupRuns(c, Drain(|c.buffer|), c');
  }

  lemma CleanupRuns(c: Client, rest: seq<Event>, c': Client)
    requires c.reading && c.inRoom && !c.fault
    requires Runs(c.(reading := false, inRoom := false, closed := true), rest, c')
    ensures Runs(c, [StopReading, Remove, CloseSend] + rest, c')
  {
    var once := Step(c, StopReading);
    var twice := Step(once, Remove);
    RunsCons(twice, CloseSend, rest, c');
    RunsCons(once, Remove, [CloseSend] + rest, c');
    RunsCons(c, StopReading, [Remove] + ([CloseSend] + rest), c');
    assert [StopReading] + ([Remove] + ([CloseSend] + rest)) == [StopReading, Remove, CloseSend] + rest;
  }

  lemma RunsCons(c: Client, e: Event, rest: seq<Event>, c': Client)
    requires Enabled(c, e) && Runs(Step(c, e), rest, c')
    ensures Runs(c, [e] + rest, c')
  {
    assert ([e] + rest)[1..] == rest;
  }

  /** Exactly the evicted clients fault: in any reachable state the next message, broadcast or reply,
      faults if and only if an eviction has happened. */
  lemma FaultIffEvicted(run: seq<Event>, c: Client, e: Event)
    requires Runs(Fresh, run, c) && Enabled(c, e) && IsMessage(e)
    ensures Step(c, e).fault <==> c.overflowed
  {
    InvRuns(Fresh, run, c);
    OverflowedIsClosed(Fresh, run, c);
  }

  /** And a step evicts exactly when it hands a message to an open channel that holds 64. */
  lemma EvictedIff(run: seq<Event>, c: Client, e: Event)
    requires Runs(Fresh, run, c) && Enabled(c, e)
    ensures !c.overflowed && Step(c, e).overflowed <==> IsMessage(e) && !c.closed && |c.buffer| == 64
    ensures c.overflowed ==> Step(c, e).overflowed
  {
    InvRuns(Fresh, run, c);
  }

  lemma {:induction false} OverflowedIsClosed(c: Client, run: seq<Event>, c': Client)
    requires Runs(c, run, c') && (c.overflowed ==> c.closed)
    ensures c'.overflowed ==> c'.closed
    decreases |run|
  {
    if run != [] { OverflowedIsClosed(Step(c, run[0]), run[1..], c'); }
  }

  // The same message n times in a row, while nothing is delivered.
  function Flood(n: nat, e: Event): seq<Event> {
    if n == 0 then [] else [e] + Flood(n - 1, e)
  }

  /** It does happen, by broadcasts and by replies to the client's own messages alike: 64 of them fill
      the buffer of a client whose connection takes nothing, the 65th evicts it, and the 66th faults. */
  lemma FloodFaults(e: Event) returns (c: Client)
    requires IsMessage(e)
    ensures Runs(Fresh, Flood(66, e), c) && c.fault
  {
    c := FloodRuns(Fresh, SEND_BUFFER + 2, e);
  }

  lemma {:induction false} FloodRuns(c: Client, n: nat, e: Event) returns (c': Client)
    requires IsMessage(e) && c.inRoom && c.reading && !c.fault && |c.buffer| <= SEND_BUFFER
    requires n == (if c.closed then 1 else SEND_BUFFER - |c.buffer| + 2)
    ensures Runs(c, Flood(n, e), c') && c'.fault
    decreases n
  {
    var next := Step(c, e);
    assert Flood(n, e)[1..] == Flood(n - 1, e);
    if c.closed {
      c' := next;
    } else {
      c' := FloodRuns(next, n - 1, e);
    }
  }

  /** The channel and the pump, as the code updates them. */
  class ChatClient {
    var send: seq<Message>
    var closed: bool
    var wire: seq<Message>
    var done: bool
    var fault: bool

    ghost predicate Is(c: Client)
      reads this
    {
      send == c.buffer && closed == c.closed && wire == c.wire && done == c.pumpDone && fault == c.fault
    }

    constructor ()
      ensures Is(Fresh)
    {
      send, closed, wire, done, fault := [], false, [], false, false;
    }

    method CloseSend()
      modifies this`closed
      ensures closed
    {
      if !closed {
        closed := true;
      }
    }

    method Enqueue(msg: Message, ghost c: Client)
      requires Is(c)
      modifies this`send, this`closed, this`fault
      ensures Is(Enqueued(c, msg))
    {
      if closed {
        fault := true;
      } else if |send| < SEND_BUFFER {
        send := send + [msg];
      } else {
        CloseSend();
      }
    }

    /** One turn of the write pump; `written` is whether WriteText succeeds.  It waits, and so does
        nothing, when the open channel is empty. */
    method PumpTurn(written: bool, ghost c: Client) returns (ghost e: Event, waiting: bool)
      requires Is(c) && !done && !fault
      modifies this`send, this`wire, this`done
      ensures waiting <==> c.buffer == [] && !c.closed
      ensures waiting ==> Is(c)
      ensures !waiting ==> Enabled(c, e) && Is(Step(c, e)) && (e == Deliver || e == DeliverFails || e == PumpExit)
      ensures !waiting ==> (e == Deliver <==> c.buffer != [] && written)
    {
      e, waiting := PumpExit, false;
      if |send| > 0 {
        var msg := send[0];
        send := send[1..];
        if written {
          wire, e := wire + [msg], Deliver;
        } else {
          done, e := true, DeliverFails;
        }
      } else if closed {
        done := true;
      } else {
        waiting := true;
      }
    }
  }
}
