/** The room registry of the chat hub and the clients that come and go through it (AddClient,
    getOrCreateRoom, dropRoom and Viewers in services/api/internal/live/chat_hub.go).

    Room objects live on while a client holds them, registered or not, so a room is known by the
    position at which it was created; its Redis subscription is created and numbered with it.
    Joining takes two steps and leaving takes two, as in the code. */
module ChatHub {

  datatype Room = Room(streamId: string, clients: set<nat>)

  datatype Registry = Registry(
    rooms: map<string, nat>,     // streams to registered rooms
    unsubs: map<string, nat>,    // streams to the subscriptions that dropRoom would cancel
    all: seq<Room>,              // every room ever created
    cancelled: seq<bool>)        // whether the subscription of each has been cancelled

  function Created(g: Registry, streamId: string): Registry {
    if streamId in g.rooms then g
    else Registry(g.rooms[streamId := |g.all|], g.unsubs[streamId := |g.cancelled|],
                  g.all + [Room(streamId, {})], g.cancelled + [false])
  }

  function Added(g: Registry, room: nat, c: nat): Registry {
    if room < |g.all| then g.(all := g.all[room := g.all[room].(clients := g.all[room].clients + {c})]) else g
  }

  function Removed(g: Registry, room: nat, c: nat): Registry {
    if room < |g.all| then g.(all := g.all[room := g.all[room].(clients := g.all[room].clients - {c})]) else g
  }

  // Whether dropRoom would unregister the room of the stream.
  predicate Droppable(g: Registry, streamId: string) {
    streamId in g.rooms && g.rooms[streamId] < |g.all| && g.all[g.rooms[streamId]].clients == {}
  }

  function Dropped(g: Registry, streamId: string): Registry {
    if !Droppable(g, streamId) then g
    else if streamId in g.unsubs && g.unsubs[streamId] < |g.cancelled|
    then Registry(g.rooms - {streamId}, g.unsubs - {streamId}, g.all, g.cancelled[g.unsubs[streamId] := true])
    else g.(rooms := g.rooms - {streamId})
  }

  // ---------- The clients ----------

  datatype Pc =
    | Joining(streamId: string, room: nat)    // holds the room, not yet in it
    | Connected(streamId: string, room: nat)
    | Leaving(streamId: string, room: nat)    // out of the room, dropRoom still to come

  /** `orphaned` records the clients whose room was dropped while they were joining it. */
  datatype Hub = Hub(registry: Registry, clients: map<nat, Pc>, gone: set<nat>, orphaned: set<nat>)

  datatype Action =
    | Enter(c: nat, streamId: string)  // getOrCreateRoom
    | Add(c: nat)
    | Remove(c: nat)
    | Leave(c: nat)                    // dropRoom

  const Empty := Hub(Registry(map[], map[], [], []), map[], {}, {})

  predicate Enabled(h: Hub, a: Action) {
    match a
    case Enter(c, _) => c !in h.clients && c !in h.gone
    case Add(c) => c in h.clients && h.clients[c].Joining?
    case Remove(c) => c in h.clients && h.clients[c].Connected?
    case Leave(c) => c in h.clients && h.clients[c].Leaving?
  }

  function Step(h: Hub, a: Action): Hub
    requires Enabled(h, a)
  {
    match a
    case Enter(c, streamId) =>
      var g := Created(h.registry, streamId);
      h.(registry := g, clients := h.clients[c := Joining(streamId, g.rooms[streamId])])
    case Add(c) =>
      var pc := h.clients[c];
      h.(registry := Added(h.registry, pc.room, c), clients := h.clients[c := Connected(pc.streamId, pc.room)])
    case Remove(c) =>
      var pc := h.clients[c];
      h.(registry := Removed(h.registry, pc.room, c), clients := h.clients[c := Leaving(pc.streamId, pc.room)])
    case Leave(c) =>
      var s := h.clients[c].streamId;
      Hub(Dropped(h.registry, s), h.clients - {c}, h.gone + {c},
          if Droppable(h.registry, s)
          then h.orphaned + set x | x in h.clients && h.clients[x] == Joining(s, h.registry.rooms[s])
          else h.orphaned)
  }

  ghost predicate Runs(h: Hub, run: seq<Action>, h': Hub)
    decreases |run|
  {
    if run == [] then h == h'
    else Enabled(h, run[0]) && Runs(Step(h, run[0]), run[1..], h')
  }

  // ---------- The invariant ----------

  predicate Registered(g: Registry, streamId: string, room: nat) {
    streamId in g.rooms && g.rooms[streamId] == room
  }

  ghost predicate RegistryOk(g: Registry) {
    && |g.all| == |g.cancelled|
    && g.rooms == g.unsubs
    && (forall s :: s in g.rooms ==> g.rooms[s] < |g.all| && g.all[g.rooms[s]].streamId == s)
    && (forall r :: 0 <= r < |g.all| ==> (!g.cancelled[r] <==> Registered(g, g.all[r].streamId, r)))
  }

  ghost predicate ClientOk(h: Hub, c: nat)
    requires c in h.clients
  {
    var pc := h.clients[c];
    && c !in h.gone && pc.room < |h.registry.all| && h.registry.all[pc.room].streamId == pc.streamId
    && (!pc.Leaving? ==> (Registered(h.registry, pc.streamId, pc.room) <==> c !in h.orphaned))
  }

  // Somebody is about to run dropRoom for the stream, or to add itself to the room.
  ghost predicate Attended(h: Hub, s: string, room: nat) {
    exists c :: c in h.clients && Attends(h.clients[c], s, room)
  }

  ghost predicate RoomAttended(h: Hub, s: string)
    requires s in h.registry.rooms && RegistryOk(h.registry)
  {
    var room := h.registry.rooms[s];
    h.registry.all[room].clients == {} ==> Attended(h, s, room)
  }

  ghost predicate MembersOk(h: Hub, room: nat)
    requires room < |h.registry.all|
  {
    forall c :: c in h.registry.all[room].clients <==>
      c in h.clients && h.clients[c] == Connected(h.registry.all[room].streamId, room)
  }

  ghost predicate Inv(h: Hub) {
    && RegistryOk(h.registry)
    && (forall c :: c in h.clients ==> ClientOk(h, c))
    && (forall r :: 0 <= r < |h.registry.all| ==> MembersOk(h, r))
    && (forall s :: s in h.registry.rooms ==> RoomAttended(h, s))
    && (forall c :: c in h.orphaned ==> c in h.clients || c in h.gone)
  }

  lemma CreatedOk(g: Registry, s: string)
    requires RegistryOk(g)
    ensures RegistryOk(Created(g, s)) && s in Created(g, s).rooms
  {
  }

  lemma DroppedOk(g: Registry, s: string)
    requires RegistryOk(g)
    ensures RegistryOk(Dropped(g, s))
    ensures Dropped(g, s).rooms == if Droppable(g, s) then g.rooms - {s} else g.rooms
  {
  }

  lemma MembershipOk(g: Registry, room: nat, c: nat)
    requires RegistryOk(g)
    ensures RegistryOk(Added(g, room, c)) && RegistryOk(Removed(g, room, c))
  {
  }

  lemma RegistryStep(h: Hub, a: Action)
    requires Inv(h) && Enabled(h, a)
    ensures RegistryOk(Step(h, a).registry)
  {
    match a
    case Enter(_, s) => CreatedOk(h.registry, s);
    case Leave(c) => DroppedOk(h.registry, h.clients[c].streamId);
    case Add(c) => MembershipOk(h.registry, h.clients[c].room, c);
    case Remove(c) => MembershipOk(h.registry, h.clients[c].room, c);
  }

  lemma ClientStep(h: Hub, a: Action, c: nat)
    requires Inv(h) && Enabled(h, a) && c in Step(h, a).clients
    ensures ClientOk(Step(h, a), c)
  {
    if c in h.clients { assert ClientOk(h, c); }
    if a.Leave? {
      var s := h.clients[a.c].streamId;
      if Droppable(h.registry, s) { assert MembersOk(h, h.registry.rooms[s]); }
    }
  }

  lemma MembersStep(h: Hub, a: Action, room: nat)
    requires Inv(h) && Enabled(h, a) && room < |Step(h, a).registry.all|
    ensures MembersOk(Step(h, a), room)
  {
    if room < |h.registry.all| { assert MembersOk(h, room); }
    if !a.Enter? {
      assert ClientOk(h, a.c);
    } else {
      forall c | c in h.clients ensures h.clients[c].room < |h.registry.all| { assert ClientOk(h, c); }
    }
  }

  predicate Attends(pc: Pc, s: string, room: nat) {
    (pc.Leaving? && pc.streamId == s) || pc == Joining(s, room)
  }

  // Whoever attends a room goes on doing so while others act.
  lemma AttendantStays(h: Hub, a: Action, s: string, room: nat)
    requires Inv(h) && Enabled(h, a) && Attended(h, s, room)
    requires a.c in h.clients ==> !Attends(h.clients[a.c], s, room)
    ensures Attended(Step(h, a), s, room)
  {
    var c :| c in h.clients && Attends(h.clients[c], s, room);
    assert c in Step(h, a).clients && Step(h, a).clients[c] == h.clients[c];
  }

  // A room that was registered before and stays empty is still attended, unless the actor was the one.
  lemma StillAttended(h: Hub, a: Action, s: string)
    requires Inv(h) && Enabled(h, a) && RegistryOk(Step(h, a).registry)
    requires s in h.registry.rooms && s in Step(h, a).registry.rooms
    requires !a.Remove? || h.clients[a.c].room != h.registry.rooms[s]
    ensures RoomAttended(Step(h, a), s)
  {
    assert RoomAttended(h, s);
    var room := h.registry.rooms[s];
    if !a.Enter? { assert ClientOk(h, a.c); }
    if Step(h, a).registry.all[room].clients == {} { AttendantStays(h, a, s, room); }
  }

  lemma AttendedStep(h: Hub, a: Action, s: string)
    requires Inv(h) && Enabled(h, a) && s in Step(h, a).registry.rooms && RegistryOk(Step(h, a).registry)
    ensures RoomAttended(Step(h, a), s)
  {
    var h' := Step(h, a);
    if s !in h.registry.rooms {
      assert Attends(h'.clients[a.c], s, h'.registry.rooms[s]);
    } else if a.Remove? && h.clients[a.c].room == h.registry.rooms[s] {
      assert ClientOk(h, a.c);
      assert Attends(h'.clients[a.c], s, h.registry.rooms[s]);
    } else {
      StillAttended(h, a, s);
    }
  }

  lemma InvStep(h: Hub, a: Action)
    requires Inv(h) && Enabled(h, a)
    ensures Inv(Step(h, a))
  {
    var h' := Step(h, a);
    RegistryStep(h, a);
    forall c | c in h'.clients ensures ClientOk(h', c) { ClientStep(h, a, c); }
    forall r: nat | r < |h'.registry.all| ensures MembersOk(h', r) { MembersStep(h, a, r); }
    forall s | s in h'.registry.rooms ensures RoomAttended(h', s) { AttendedStep(h, a, s); }
  }

  lemma {:induction false} InvRuns(h: Hub, run: seq<Action>, h': Hub)
    requires Inv(h) && Runs(h, run, h')
    ensures Inv(h')
    decreases |run|
  {
    if run != [] {
      InvStep(h, run[0]);
      InvRuns(Step(h, run[0]), run[1..], h');
    }
  }

  // ---------- What holds in every run ----------

  /** rooms and unsubs have the same streams; every registered room has one subscription that has not
      been cancelled, and every such subscription feeds a registered room.  An empty registered room
      always has somebody about to drop it or to join it. */
  lemma RoomsAndSubscriptions(run: seq<Action>, h: Hub)
    requires Runs(Empty, run, h)
    ensures RegistryOk(h.registry)
    ensures h.registry.rooms.Keys == h.registry.unsubs.Keys
    ensures forall r :: 0 <= r < |h.registry.all| ==>
              (!h.registry.cancelled[r] <==> exists s :: Registered(h.registry, s, r))
    ensures forall s :: s in h.registry.rooms ==> RoomAttended(h, s)
  {
    InvRuns(Empty, run, h);
    var g := h.registry;
    forall r | 0 <= r < |g.all| ensures !g.cancelled[r] <==> exists s :: Registered(g, s, r) {
      if !g.cancelled[r] { assert Registered(g, g.all[r].streamId, r); }
    }
  }

  /** A connected client is in the room it joined, and that room is the one registered under its
      stream, with a live subscription, if and only if the room was not dropped between the two
      steps of its join. */
  lemma ConnectedIsRegistered(run: seq<Action>, h: Hub, c: nat)
    requires Runs(Empty, run, h) && c in h.clients && h.clients[c].Connected?
    ensures var pc := h.clients[c];
            && pc.room < |h.registry.all| == |h.registry.cancelled| && c in h.registry.all[pc.room].clients
            && (Registered(h.registry, pc.streamId, pc.room) <==> c !in h.orphaned)
            && (!h.registry.cancelled[pc.room] <==> c !in h.orphaned)
  {
    InvRuns(Empty, run, h);
    assert ClientOk(h, c);
    assert MembersOk(h, h.clients[c].room);
  }

  /** The interleaving that orphans a client: it obtains the room, the only other client leaves and
      drops it, and then it adds itself. */
  lemma TwoStepJoinCanOrphan() returns (run: seq<Action>, h: Hub)
    ensures Runs(Empty, run, h)
    ensures h.clients == map[1 := Connected("s", 0)] && h.registry.rooms == map[] && h.registry.cancelled == [true]
  {
    var h1 := Step(Empty, Enter(0, "s"));
    var h2 := Step(h1, Add(0));
    var h3 := Step(h2, Enter(1, "s"));
    var h4 := Step(h3, Remove(0));
    assert h4.registry.all[0].clients == {};
    var h5 := Step(h4, Leave(0));
    h := Step(h5, Add(1));
    run := RunsCons(h5, Add(1), [], h);
    run := RunsCons(h4, Leave(0), run, h);
    run := RunsCons(h3, Remove(0), run, h);
    run := RunsCons(h2, Enter(1, "s"), run, h);
    run := RunsCons(h1, Add(0), run, h);
    run := RunsCons(Empty, Enter(0, "s"), run, h);
  }

  lemma RunsCons(h: Hub, a: Action, rest: seq<Action>, h': Hub) returns (run: seq<Action>)
    requires Enabled(h, a) && Runs(Step(h, a), rest, h')
    ensures run == [a] + rest && Runs(h, run, h')
  {
    run := [a] + rest;
    assert run[1..] == rest;
  }

  // Every join is one step of the hub.
  ghost predicate AtomicJoins(run: seq<Action>)
    decreases |run|
  {
    run == [] ||
    if run[0].Enter? then |run| > 1 && run[1] == Add(run[0].c) && AtomicJoins(run[2..])
    else !run[0].Add? && AtomicJoins(run[1..])
  }

  lemma {:induction false} AtomicJoinsOrphanNobody(h: Hub, run: seq<Action>, h': Hub)
    requires Runs(h, run, h') && AtomicJoins(run)
    requires h.orphaned == {} && forall c :: c in h.clients ==> !h.clients[c].Joining?
    ensures h'.orphaned == {} && forall c :: c in h'.clients ==> !h'.clients[c].Joining?
    decreases |run|
  {
    if run == [] {
    } else if run[0].Enter? {
      var h1 := Step(h, run[0]);
      assert run[1..][0] == run[1] && run[1..][1..] == run[2..];
      AtomicJoinsOrphanNobody(Step(h1, run[1]), run[2..], h');
    } else {
      AtomicJoinsOrphanNobody(Step(h, run[0]), run[1..], h');
    }
  }

  // ---------- Viewers ----------

  /** The clients in the rooms registered under some streams. */
  ghost function Watching(g: Registry, streams: set<string>): set<nat> {
    set s, c | s in streams && s in g.rooms && g.rooms[s] < |g.all| && c in g.all[g.rooms[s]].clients :: c
  }

  lemma WatchingOneMore(g: Registry, streams: set<string>, s: string)
    requires RegistryOk(g) && RoomsDisjoint(g) && streams <= g.rooms.Keys && s in g.rooms && s !in streams
    ensures |Watching(g, streams + {s})| == |Watching(g, streams)| + |g.all[g.rooms[s]].clients|
  {
    var room := g.all[g.rooms[s]].clients;
    assert Watching(g, streams + {s}) == Watching(g, streams) + room;
    forall c | c in Watching(g, streams) ensures c !in room {
      var q :| q in streams && c in g.all[g.rooms[q]].clients;
      assert g.rooms[q] != g.rooms[s];
    }
  }

  ghost predicate RoomsDisjoint(g: Registry) {
    forall q, r :: 0 <= q < r < |g.all| ==> g.all[q].clients !! g.all[r].clients
  }

  ghost function ConnectedClients(h: Hub): set<nat> {
    set c | c in h.clients && h.clients[c].Connected?
  }

  lemma WatchingIsConnected(h: Hub)
    requires Inv(h)
    ensures RoomsDisjoint(h.registry)
    ensures Watching(h.registry, h.registry.rooms.Keys) == ConnectedClients(h) - h.orphaned
  {
    var g := h.registry;
    forall q, r, c | 0 <= q < r < |g.all| && c in g.all[q].clients ensures c !in g.all[r].clients {
      assert MembersOk(h, q) && MembersOk(h, r);
    }
    forall c | c in Watching(g, g.rooms.Keys) ensures c in ConnectedClients(h) - h.orphaned {
      var s :| s in g.rooms && c in g.all[g.rooms[s]].clients;
      assert MembersOk(h, g.rooms[s]);
      assert ClientOk(h, c);
    }
    forall c | c in ConnectedClients(h) - h.orphaned ensures c in Watching(g, g.rooms.Keys) {
      assert ClientOk(h, c);
      assert MembersOk(h, h.clients[c].room);
    }
  }

  function Count(run: seq<Action>, adds: bool): nat {
    if run == [] then 0
    else (if (adds && run[0].Add?) || (!adds && run[0].Remove?) then 1 else 0) + Count(run[1..], adds)
  }

  lemma ConnectedStep(h: Hub, a: Action)
    requires Enabled(h, a)
    ensures |ConnectedClients(Step(h, a))|
         == |ConnectedClients(h)| + (if a.Add? then 1 else 0) - (if a.Remove? then 1 else 0)
  {
    assert ConnectedClients(Step(h, a)) ==
      if a.Add? then ConnectedClients(h) + {a.c}
      else if a.Remove? then ConnectedClients(h) - {a.c}
      else ConnectedClients(h);
  }

  lemma {:induction false} ConnectedCount(h: Hub, run: seq<Action>, h': Hub)
    requires Runs(h, run, h')
    ensures |ConnectedClients(h')| == |ConnectedClients(h)| + Count(run, true) - Count(run, false)
    decreases |run|
  {
    if run != [] {
      ConnectedStep(h, run[0]);
      ConnectedCount(Step(h, run[0]), run[1..], h');
    }
  }

  /** With atomic joins, the registry is exact: every connected client is in the room registered
      under its stream, and the viewers are the joins less the leaves. */
  lemma AtomicJoinsExact(run: seq<Action>, h: Hub)
    requires Runs(Empty, run, h) && AtomicJoins(run)
    ensures forall c :: c in h.clients && h.clients[c].Connected? ==>
              Registered(h.registry, h.clients[c].streamId, h.clients[c].room)
    ensures |Watching(h.registry, h.registry.rooms.Keys)| == Count(run, true) - Count(run, false)
    ensures forall s :: s in h.registry.rooms && h.registry.rooms[s] < |h.registry.all| && h.registry.all[h.registry.rooms[s]].clients == {} ==>
              exists c :: c in h.clients && h.clients[c].Leaving? && h.clients[c].streamId == s
  {
    InvRuns(Empty, run, h);
    AtomicJoinsOrphanNobody(Empty, run, h);
    WatchingIsConnected(h);
    ConnectedCount(Empty, run, h);
    assert ConnectedClients(h) - h.orphaned == ConnectedClients(h);
    forall c | c in h.clients && h.clients[c].Connected? ensures Registered(h.registry, h.clients[c].streamId, h.clients[c].room) {
      assert ClientOk(h, c);
    }
    forall s | s in h.registry.rooms && h.registry.all[h.registry.rooms[s]].clients == {}
      ensures exists c :: c in h.clients && h.clients[c].Leaving? && h.clients[c].streamId == s
    {
      assert RoomAttended(h, s);
    }
  }

  // ---------- The hub as the code updates it ----------

  class ChatHub {
    var rooms: map<string, nat>
    var unsubs: map<string, nat>
    var all: seq<Room>
    var cancelled: seq<bool>

    function Value(): Registry
      reads this
    {
      Registry(rooms, unsubs, all, cancelled)
    }

    constructor ()
      ensures Value() == Empty.registry
    {
      rooms, unsubs, all, cancelled := map[], map[], [], [];
    }

    method GetOrCreateRoom(streamId: string) returns (room: nat)
      requires RegistryOk(Value())
      modifies this
      ensures Value() == Created(old(Value()), streamId) && RegistryOk(Value())
      ensures Registered(Value(), streamId, room)
      ensures streamId !in old(rooms) ==> room == |old(all)| && all[room].clients == {}
    {
      if streamId in rooms {
        return rooms[streamId];
      }
      room := |all|;
      all := all + [Room(streamId, {})];
      rooms := rooms[streamId := room];
      unsubs := unsubs[streamId := |cancelled|];
      cancelled := cancelled + [false];
    }

    method DropRoom(streamId: string)
      requires RegistryOk(Value())
      modifies this
      ensures Value() == Dropped(old(Value()), streamId) && RegistryOk(Value())
      ensures streamId in rooms ==> all[rooms[streamId]].clients != {}
    {
      if streamId !in rooms {
        return;
      }
      var room := rooms[streamId];
      if |all[room].clients| > 0 {
        return;
      }
      rooms := rooms - {streamId};
      if streamId in unsubs {
        cancelled := cancelled[unsubs[streamId] := true];
        unsubs := unsubs - {streamId};
      }
    }

    /** Each client is counted once, although the rooms are counted one by one. */
    method Viewers() returns (total: int)
      requires RegistryOk(Value()) && RoomsDisjoint(Value())
      ensures total == |Watching(Value(), rooms.Keys)|
    {
      total := 0;
      var left := rooms.Keys;
      ghost var g := Value();
      assert Watching(g, {}) == {};
      assert rooms.Keys - left == {};
      while left != {}
        invariant left <= rooms.Keys
        invariant total == |Watching(g, rooms.Keys - left)|
        decreases left
      {
        var s :| s in left;
        total := total + |all[rooms[s]].clients|;
        WatchingOneMore(g, rooms.Keys - left, s);
        assert rooms.Keys - (left - {s}) == rooms.Keys - left + {s};
        left := left - {s};
      }
      assert rooms.Keys - left == rooms.Keys;
    }
  }
}
