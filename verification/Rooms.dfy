// shared/messaging/rcm.go: the rooms of one gateway node, indexed by socket and by room, with one
// Redis subscription for every room that has a member here.
module Rooms {
  datatype RoomIndex = RoomIndex(
    socketRooms: map<string, set<string>>,
    roomSockets: map<string, set<string>>,
    roomSubs: set<string>)

  const NO_ROOMS := RoomIndex(map[], map[], {})

  function RoomsOf(r: RoomIndex, socket: string): set<string> {
    if socket in r.socketRooms then r.socketRooms[socket] else {}
  }

  function Members(r: RoomIndex, room: string): set<string> {
    if room in r.roomSockets then r.roomSockets[room] else {}
  }

  // The indexes are inverse to each other, no room is empty, and a room is subscribed exactly
  // while it has a member.
  ghost predicate Consistent(r: RoomIndex) {
    && (forall s, room :: room in RoomsOf(r, s) <==> s in Members(r, room))
    && (forall room :: room in r.roomSockets ==> r.roomSockets[room] != {})
    && r.roomSubs == r.roomSockets.Keys
  }

  function Joined(r: RoomIndex, socket: string, room: string): RoomIndex {
    RoomIndex(r.socketRooms[socket := RoomsOf(r, socket) + {room}],
              r.roomSockets[room := Members(r, room) + {socket}],
              r.roomSubs + {room})
  }

  function Left(r: RoomIndex, socket: string, room: string): RoomIndex {
    var rest := Members(r, room) - {socket};
    RoomIndex(if socket in r.socketRooms then r.socketRooms[socket := r.socketRooms[socket] - {room}]
              else r.socketRooms,
              if room !in r.roomSockets then r.roomSockets
              else if rest == {} then r.roomSockets - {room} else r.roomSockets[room := rest],
              if room in r.roomSockets && rest == {} then r.roomSubs - {room} else r.roomSubs)
  }

  // The rooms a socket is torn out of, one after the other.
  function TornFrom(r: RoomIndex, socket: string, rooms: set<string>): RoomIndex {
    var emptied := set room | room in rooms && room in r.roomSockets && r.roomSockets[room] - {socket} == {};
    RoomIndex(r.socketRooms,
              map room | room in r.roomSockets && room !in emptied ::
                if room in rooms then r.roomSockets[room] - {socket} else r.roomSockets[room],
              r.roomSubs - emptied)
  }

  // Everything a disconnecting socket leaves behind.
  function Torn(r: RoomIndex, socket: string): RoomIndex {
    var t := TornFrom(r, socket, RoomsOf(r, socket));
    t.(socketRooms := r.socketRooms - {socket})
  }

  function LeftByAll(r: RoomIndex, sockets: set<string>, room: string): RoomIndex {
    RoomIndex(map s | s in r.socketRooms :: if s in sockets then r.socketRooms[s] - {room} else r.socketRooms[s],
              if room !in r.roomSockets then r.roomSockets
              else if sockets == {} then r.roomSockets
              else if r.roomSockets[room] - sockets == {} then r.roomSockets - {room}
              else r.roomSockets[room := r.roomSockets[room] - sockets],
              if room in r.roomSockets && sockets != {} && r.roomSockets[room] - sockets == {}
              then r.roomSubs - {room} else r.roomSubs)
  }

  // What the loops over rooms and over sockets do in one turn.
  function TornOne(r: RoomIndex, socket: string, room: string): RoomIndex {
    Left(r, socket, room).(socketRooms := r.socketRooms)
  }

  lemma TornStep(r: RoomIndex, socket: string, done: set<string>, room: string)
    requires room !in done
    ensures TornOne(TornFrom(r, socket, done), socket, room) == TornFrom(r, socket, done + {room})
  {
    var left, right := TornOne(TornFrom(r, socket, done), socket, room), TornFrom(r, socket, done + {room});
    assert left.roomSockets == right.roomSockets;
    assert left.roomSubs == right.roomSubs;
  }

  lemma TornNone(r: RoomIndex, socket: string)
    ensures TornFrom(r, socket, {}) == r
  {
    assert TornFrom(r, socket, {}).roomSockets == r.roomSockets;
  }

  lemma LeftStep(r: RoomIndex, done: set<string>, socket: string, room: string)
    ensures Left(LeftByAll(r, done, room), socket, room) == LeftByAll(r, done + {socket}, room)
  {
    var left, right := Left(LeftByAll(r, done, room), socket, room), LeftByAll(r, done + {socket}, room);
    if room in r.roomSockets {
      assert r.roomSockets[room] - done - {socket} == r.roomSockets[room] - (done + {socket});
      assert r.roomSockets[room] - done == {} ==> r.roomSockets[room] - (done + {socket}) == {};
      if done == {} {
        assert r.roomSockets[room] - {socket} == r.roomSockets[room] - (done + {socket});
      }
    }
    forall s | s in r.socketRooms ensures left.socketRooms[s] == right.socketRooms[s] {
      if s == socket && s in done {
        assert r.socketRooms[s] - {room} - {room} == r.socketRooms[s] - {room};
      }
    }
    assert left.socketRooms == right.socketRooms;
    assert left.roomSockets == right.roomSockets;
    assert left.roomSubs == right.roomSubs;
  }

  lemma LeftByNone(r: RoomIndex, room: string)
    ensures LeftByAll(r, {}, room) == r
  {
    assert LeftByAll(r, {}, room).socketRooms == r.socketRooms;
  }

  // ---- Each operation on the membership relation ----

  predicate In(r: RoomIndex, socket: string, room: string) {
    room in RoomsOf(r, socket)
  }

  lemma JoinedViews(r: RoomIndex, socket: string, room: string)
    ensures forall s :: RoomsOf(Joined(r, socket, room), s) == RoomsOf(r, s) + if s == socket then {room} else {}
    ensures forall m :: Members(Joined(r, socket, room), m) == Members(r, m) + if m == room then {socket} else {}
  {
  }

  lemma LeftViews(r: RoomIndex, socket: string, room: string)
    ensures forall s :: RoomsOf(Left(r, socket, room), s) == RoomsOf(r, s) - if s == socket then {room} else {}
    ensures forall m :: Members(Left(r, socket, room), m) == Members(r, m) - if m == room then {socket} else {}
  {
  }

  lemma TornViews(r: RoomIndex, socket: string)
    ensures forall s :: RoomsOf(Torn(r, socket), s) == if s == socket then {} else RoomsOf(r, s)
    ensures forall m :: Members(Torn(r, socket), m) == Members(r, m) - if m in RoomsOf(r, socket) then {socket} else {}
  {
  }

  lemma LeftByAllViews(r: RoomIndex, sockets: set<string>, room: string)
    ensures forall s :: RoomsOf(LeftByAll(r, sockets, room), s) == RoomsOf(r, s) - if s in sockets then {room} else {}
    ensures forall m :: Members(LeftByAll(r, sockets, room), m) == Members(r, m) - if m == room then sockets else {}
  {
  }

  lemma JoinedConsistent(r: RoomIndex, socket: string, room: string)
    requires Consistent(r)
    ensures Consistent(Joined(r, socket, room))
    ensures forall s, m :: In(Joined(r, socket, room), s, m) <==> In(r, s, m) || (s == socket && m == room)
  {
    JoinedViews(r, socket, room);
  }

  lemma LeftConsistent(r: RoomIndex, socket: string, room: string)
    requires Consistent(r)
    ensures Consistent(Left(r, socket, room))
    ensures forall s, m :: In(Left(r, socket, room), s, m) <==> In(r, s, m) && !(s == socket && m == room)
  {
    LeftViews(r, socket, room);
    assert room in r.roomSubs <==> room in r.roomSockets;
  }

  lemma TornConsistent(r: RoomIndex, socket: string)
    requires Consistent(r)
    ensures Consistent(Torn(r, socket))
    ensures forall s, m :: In(Torn(r, socket), s, m) <==> In(r, s, m) && s != socket
  {
    TornViews(r, socket);
    var r' := Torn(r, socket);
    forall m ensures m in r'.roomSubs <==> m in r'.roomSockets {
      assert m in r.roomSubs <==> m in r.roomSockets;
    }
  }

  lemma LeftByAllConsistent(r: RoomIndex, sockets: set<string>, room: string)
    requires Consistent(r)
    ensures Consistent(LeftByAll(r, sockets, room))
    ensures forall s, m :: In(LeftByAll(r, sockets, room), s, m) <==> In(r, s, m) && !(s in sockets && m == room)
  {
    LeftByAllViews(r, sockets, room);
    var r' := LeftByAll(r, sockets, room);
    forall m ensures m in r'.roomSubs <==> m in r'.roomSockets {
      assert m in r.roomSubs <==> m in r.roomSockets;
    }
  }

  // ---- Runs ----

  // The sockets of LeaveUser are those the registry lists for the user at that moment; a socket
  // dropped by a failed write is no longer among them and keeps its rooms until its Disconnect.
  datatype Step =
    | Join(socket: string, room: string)
    | Leave(socket: string, room: string)
    | Disconnect(socket: string)
    | LeaveUser(sockets: set<string>, room: string)

  function Apply(r: RoomIndex, step: Step): RoomIndex {
    match step
    case Join(socket, room) => Joined(r, socket, room)
    case Leave(socket, room) => Left(r, socket, room)
    case Disconnect(socket) => Torn(r, socket)
    case LeaveUser(sockets, room) => LeftByAll(r, sockets, room)
  }

  function Exec(steps: seq<Step>): RoomIndex {
    if steps == [] then NO_ROOMS else Apply(Exec(steps[..|steps| - 1]), steps[|steps| - 1])
  }

  predicate Evicts(step: Step, socket: string, room: string) {
    match step
    case Join(_, _) => false
    case Leave(s, m) => s == socket && m == room
    case Disconnect(s) => s == socket
    case LeaveUser(sockets, m) => socket in sockets && m == room
  }

  // A socket is in a room when it joined and nothing evicted it since.
  predicate JoinedLast(steps: seq<Step>, socket: string, room: string) {
    steps != [] &&
    var last := steps[|steps| - 1];
    last == Join(socket, room) || (!Evicts(last, socket, room) && JoinedLast(steps[..|steps| - 1], socket, room))
  }

  lemma {:induction false} RunConsistent(steps: seq<Step>)
    ensures Consistent(Exec(steps))
    ensures forall s, m :: In(Exec(steps), s, m) <==> JoinedLast(steps, s, m)
  {
    if steps != [] {
      var front, last := steps[..|steps| - 1], steps[|steps| - 1];
      RunConsistent(front);
      match last
      case Join(socket, room) => JoinedConsistent(Exec(front), socket, room);
      case Leave(socket, room) => LeftConsistent(Exec(front), socket, room);
      case Disconnect(socket) => TornConsistent(Exec(front), socket);
      case LeaveUser(sockets, room) => LeftByAllConsistent(Exec(front), sockets, room);
    }
  }

  // Over every run the indexes stay inverse, and membership and subscription are what the history
  // of joins and evictions says.
  lemma RoomsFollowHistory(steps: seq<Step>)
    ensures Consistent(Exec(steps))
    ensures forall s, m :: s in Members(Exec(steps), m) <==> JoinedLast(steps, s, m)
    ensures forall m :: m in Exec(steps).roomSubs <==> exists s :: s in Members(Exec(steps), m)
  {
    RunConsistent(steps);
    var r := Exec(steps);
    forall s, m ensures s in Members(r, m) <==> JoinedLast(steps, s, m) {
      assert In(r, s, m) <==> JoinedLast(steps, s, m);
    }
    forall m ensures m in r.roomSubs <==> exists s :: s in Members(r, m) {
      if m in r.roomSubs {
        var s :| s in r.roomSockets[m];
        assert s in Members(r, m);
      }
    }
  }
}
