// shared/messaging/rcm.go: one gateway node. It holds the local registry, one Redis subscription
// for every user and every room with a socket here, and the room indexes.
module Gateway {
  import opened Options
  import opened Registry
  import opened Rooms

  datatype Node = Node(reg: Indexes, userSubs: set<string>, rooms: RoomIndex)

  const NEW_NODE := Node(NO_SOCKETS, {}, NO_ROOMS)

  function NodeAdded(n: Node, user: string, socket: string): Node {
    n.(reg := Added(n.reg, socket, user), userSubs := n.userSubs + {user})
  }

  // The subscription goes with the last socket of a known user.
  function NodeRemoved(n: Node, socket: string): Node {
    var user := Owner(n.reg, socket);
    var reg := Removed(n.reg, socket);
    Node(reg, if user != "" && !HasUser(reg, user) then n.userSubs - {user} else n.userSubs, Torn(n.rooms, socket))
  }

  // What became of a message to a user.
  datatype Route = Local | Relayed(subscribers: nat) | Persisted | NotSent

  // What Redis answers: the number of nodes subscribed to the channel or an error for the publish,
  // and whether the append to the stream works.
  datatype Redis = Redis(receivedBy: Option<nat>, appendFails: bool)

  // The one route of a message for a user with the local sockets `to`: local when every write works;
  // else wherever the publish goes; and kept when nobody received it.
  function RouteOf(to: set<string>, broken: set<string>, redis: Redis): Route {
    if to != {} && to !! broken then Local
    else
      match redis.receivedBy
      case None => NotSent
      case Some(n) => if n > 0 then Relayed(n) else if redis.appendFails then NotSent else Persisted
  }

  class RedisConnectionManager {
    const localCM: ConnectionManager
    var userSubs: set<string>
    var roomSubs: set<string>
    var socketRooms: map<string, set<string>>
    var roomSockets: map<string, set<string>>
    // What this node handed to Redis: messages published on user channels and on room channels,
    // and entries appended to user streams.
    var published: seq<(string, WSMessage)>
    var broadcast: seq<(string, WSMessage)>
    var persisted: seq<(string, WSMessage)>

    constructor ()
      ensures fresh(localCM) && View() == NEW_NODE && published == broadcast == persisted == []
    {
      localCM := new ConnectionManager();
      userSubs, roomSubs, socketRooms, roomSockets := {}, {}, map[], map[];
      published, broadcast, persisted := [], [], [];
    }

    function RoomView(): RoomIndex
      reads this
    {
      RoomIndex(socketRooms, roomSockets, roomSubs)
    }

    function View(): Node
      reads this, localCM
    {
      Node(localCM.View(), userSubs, RoomView())
    }

    method Add(userID: string, socketID: string)
      modifies this`userSubs, localCM
      ensures View() == NodeAdded(old(View()), userID, socketID)
    {
      localCM.Add(socketID, userID);
      if userID !in userSubs {
        userSubs := userSubs + {userID};
      }
    }

    method Remove(socketID: string)
      modifies this`userSubs, this`roomSubs, this`socketRooms, this`roomSockets, localCM
      ensures View() == NodeRemoved(old(View()), socketID)
    {
      var userID := localCM.Remove(socketID);
      LeaveAllRooms(socketID);
      if userID != "" && !HasUser(localCM.View(), userID) {
        if userID in userSubs {
          userSubs := userSubs - {userID};
        }
      }
    }

    method LeaveAllRooms(socketID: string)
      modifies this`roomSubs, this`socketRooms, this`roomSockets
      ensures RoomView() == Torn(old(RoomView()), socketID)
    {
      var rooms := RoomsOf(RoomView(), socketID);
      var rest := rooms;
      ghost var start, done := RoomView(), {};
      TornNone(start, socketID);
      while rest != {}
        invariant done + rest == rooms && done !! rest
        invariant RoomView() == TornFrom(start, socketID, done)
        decreases rest
      {
        var roomID :| roomID in rest;
        TornStep(start, socketID, done, roomID);
        EvictFrom(socketID, roomID);
        done, rest := done + {roomID}, rest - {roomID};
      }
      assert done == rooms;
      socketRooms := socketRooms - {socketID};
    }

    // Takes a socket out of the index by room, and unsubscribes an emptied room.
    method EvictFrom(socketID: string, roomID: string)
      modifies this`roomSubs, this`roomSockets
      ensures RoomView() == TornOne(old(RoomView()), socketID, roomID)
    {
      if roomID in roomSockets {
        roomSockets := roomSockets[roomID := roomSockets[roomID] - {socketID}];
        if |roomSockets[roomID]| == 0 {
          roomSockets := roomSockets - {roomID};
          if roomID in roomSubs {
            roomSubs := roomSubs - {roomID};
          }
        }
      }
    }

    method JoinRoom(socketID: string, roomID: string)
      modifies this`roomSubs, this`socketRooms, this`roomSockets
      ensures RoomView() == Joined(old(RoomView()), socketID, roomID)
    {
      if socketID !in socketRooms {
        socketRooms := socketRooms[socketID := {}];
      }
      socketRooms := socketRooms[socketID := socketRooms[socketID] + {roomID}];
      assert socketRooms == Joined(old(RoomView()), socketID, roomID).socketRooms;
      if roomID !in roomSockets {
        roomSockets := roomSockets[roomID := {}];
      }
      roomSockets := roomSockets[roomID := roomSockets[roomID] + {socketID}];
      assert roomSockets == Joined(old(RoomView()), socketID, roomID).roomSockets;
      if roomID !in roomSubs {
        roomSubs := roomSubs + {roomID};
      }
    }

    method LeaveRoom(socketID: string, roomID: string)
      modifies this`roomSubs, this`socketRooms, this`roomSockets
      ensures RoomView() == Left(old(RoomView()), socketID, roomID)
    {
      EvictFrom(socketID, roomID);
      if socketID in socketRooms {
        socketRooms := socketRooms[socketID := socketRooms[socketID] - {roomID}];
      }
    }

    method LeaveUserFromRoom(userID: string, roomID: string)
      modifies this`roomSubs, this`socketRooms, this`roomSockets
      ensures RoomView() == if userID == "" || roomID == "" then old(RoomView())
                            else LeftByAll(old(RoomView()), Sockets(localCM.View(), userID), roomID)
    {
      if userID == "" || roomID == "" {
        return;
      }
      var socketIDs := Sockets(localCM.View(), userID);
      var rest := socketIDs;
      ghost var start, done := RoomView(), {};
      LeftByNone(start, roomID);
      while rest != {}
        invariant done + rest == socketIDs && done !! rest
        invariant RoomView() == LeftByAll(start, done, roomID)
        decreases rest
      {
        var socketID :| socketID in rest;
        LeftStep(start, done, socketID, roomID);
        LeaveRoom(socketID, roomID);
        done, rest := done + {socketID}, rest - {socketID};
      }
      assert done == socketIDs;
    }

    // Publishing to a room never writes to a local socket.
    method BroadcastToRoom(roomID: string, msg: WSMessage, publishFails: bool) returns (ok: bool)
      modifies this`broadcast
      ensures ok == !publishFails
      ensures broadcast == old(broadcast) + if ok then [(roomID, msg)] else []
    {
      if publishFails {
        return false;
      }
      broadcast := broadcast + [(roomID, msg)];
      ok := true;
    }

    // One turn of the loop that delivers a room message.
    method DeliverOne(socketID: string, msg: WSMessage, broken: set<string>,
                      ghost start: Indexes, ghost before: seq<Frame>, ghost sent: set<string>,
                      ghost failed: set<string>)
      requires localCM.SoFar(start, before, sent, failed, msg) && socketID !in sent + failed
      modifies localCM
      ensures var one := {socketID} * start.bySocket.Keys;
              localCM.SoFar(start, before, sent + (one - broken), failed + one * broken, msg)
    {
      RemovedInverse(localCM.View(), socketID);
      ghost var between := localCM.wire;
      var err := localCM.SendToSocket(socketID, msg, broken);
      RoomTurn(start, before, between, localCM.wire, sent, failed, socketID, broken, localCM.View().bySocket, msg);
    }

    // What a node does with a room message that arrives on its subscription.
    method DeliverToRoomLocally(roomID: string, msg: WSMessage, broken: set<string>)
      requires Inverse(localCM.View())
      modifies localCM
      ensures var to := Members(RoomView(), roomID) * old(localCM.bySocket.Keys);
              localCM.SoFar(old(localCM.View()), old(localCM.wire), to - broken, to * broken, msg)
    {
      var sockets := Members(RoomView(), roomID);
      var rest := sockets;
      ghost var start, before, done := localCM.View(), localCM.wire, {};
      assert start.bySocket - {} == start.bySocket;
      assert done * start.bySocket.Keys - broken == {} && done * start.bySocket.Keys * broken == {};
      while rest != {}
        invariant done + rest == sockets && done !! rest
        invariant localCM.SoFar(start, before, done * start.bySocket.Keys - broken,
                                done * start.bySocket.Keys * broken, msg)
        decreases rest
      {
        var socketID :| socketID in rest;
        DeliverOne(socketID, msg, broken, start, before, done * start.bySocket.Keys - broken,
                   done * start.bySocket.Keys * broken);
        TurnTaken(done, socketID, start.bySocket.Keys, broken);
        done, rest := done + {socketID}, rest - {socketID};
      }
      assert done == sockets;
    }

    // Written to the local sockets; published when there is none or some write failed; appended to
    // the user's stream when nobody received the publish.
    method SendMessage(userID: string, msg: WSMessage, broken: set<string>, redis: Redis) returns (route: Route)
      requires Inverse(localCM.View())
      modifies this`published, this`persisted, localCM
      ensures var to := Sockets(old(localCM.View()), userID);
              && localCM.SoFar(old(localCM.View()), old(localCM.wire), to - broken, to * broken, msg)
              && route == RouteOf(to, broken, redis)
      ensures published == old(published) + if route.Local? || redis.receivedBy.None? then [] else [(userID, msg)]
      ensures persisted == old(persisted) + if route.Persisted? then [(userID, msg)] else []
    {
      var err := localCM.SendMessage(userID, msg, broken);
      if err.None? {
        return Local;
      }
      if redis.receivedBy.None? {
        return NotSent;
      }
      published := published + [(userID, msg)];
      if redis.receivedBy.value == 0 {
        if redis.appendFails {
          return NotSent;
        }
        persisted := persisted + [(userID, msg)];
        return Persisted;
      }
      return Relayed(redis.receivedBy.value);
    }
  }

  // What one write does to the frames and to the index by socket.
  lemma RoomTurn(start: Indexes, before: seq<Frame>, between: seq<Frame>, after: seq<Frame>, sent: set<string>,
                 failed: set<string>, socket: string, broken: set<string>, bySocket: map<string, string>,
                 msg: WSMessage)
    requires Reached(before, between, sent, msg) && socket !in sent + failed
    requires var live := socket in start.bySocket;
             && after == (if live && socket !in broken then between + [Frame(socket, msg)] else between)
             && bySocket == start.bySocket - failed - (if live && socket in broken then {socket} else {})
    ensures var one := {socket} * start.bySocket.Keys;
            && Reached(before, after, sent + (one - broken), msg)
            && bySocket == start.bySocket - (failed + one * broken)
  {
    var one := {socket} * start.bySocket.Keys;
    if socket in start.bySocket && socket !in broken {
      forall s
        ensures Received(after, s) == if s == socket then Received(between, s) + [msg] else Received(between, s)
      {
        ReceivedNext(between, Frame(socket, msg), s);
      }
      ReachedAlso(before, between, after, sent, {socket}, msg);
      assert one - broken == {socket} && one * broken == {};
    } else {
      assert one - broken == {};
      assert one * broken == if socket in start.bySocket then {socket} else {};
    }
  }

  // Removing a socket takes it out of every room and nobody else out of any, and leaves the user
  // subscribed exactly while he was and has another socket here, or the owner is unknown.
  lemma RemoveLeavesRooms(n: Node, socket: string)
    requires Inverse(n.reg) && Rooms.Consistent(n.rooms)
    ensures var n' := NodeRemoved(n, socket);
            && Rooms.Consistent(n'.rooms)
            && (forall s, m :: In(n'.rooms, s, m) <==> In(n.rooms, s, m) && s != socket)
            && (forall u :: Sockets(n'.reg, u) == Sockets(n.reg, u) - {socket})
            && (forall u :: u in n'.userSubs <==>
                  u in n.userSubs && (u == "" || Sockets(n.reg, u) != {socket}))
  {
    TornConsistent(n.rooms, socket);
    RemovedInverse(n.reg, socket);
    forall u
      ensures u in NodeRemoved(n, socket).userSubs <==> u in n.userSubs && (u == "" || Sockets(n.reg, u) != {socket})
    {
      if u != "" {
        OwnerIff(n.reg, socket, u);
      }
    }
  }

  lemma TurnTaken(done: set<string>, socket: string, live: set<string>, broken: set<string>)
    ensures (done + {socket}) * live - broken == done * live - broken + ({socket} * live - broken)
    ensures (done + {socket}) * live * broken == done * live * broken + {socket} * live * broken
  {
  }
}
