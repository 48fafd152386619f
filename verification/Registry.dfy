// shared/messaging/connection_manager.go: the sockets of one gateway node, indexed by socket and
// by user.
module Registry {
  import opened Options

  datatype WSMessage = WSMessage(kind: string, topic: string, data: string)

  datatype SendError = ConnectionNotFound | WriteFailed

  // The two indexes: the owner of every socket, and the sockets of every user.
  datatype Indexes = Indexes(bySocket: map<string, string>, byUser: map<string, set<string>>)

  const NO_SOCKETS := Indexes(map[], map[])

  function Sockets(v: Indexes, user: string): set<string> {
    if user in v.byUser then v.byUser[user] else {}
  }

  predicate HasUser(v: Indexes, user: string) {
    |Sockets(v, user)| > 0
  }

  // The owner of a socket, "" for an unknown one.
  function Owner(v: Indexes, socket: string): string {
    if socket in v.bySocket then v.bySocket[socket] else ""
  }

  // Each index is the inverse of the other and no user has an empty set of sockets.
  ghost predicate Inverse(v: Indexes) {
    && (forall s :: s in v.bySocket ==> s in Sockets(v, v.bySocket[s]))
    && (forall u, s :: s in Sockets(v, u) ==> s in v.bySocket && v.bySocket[s] == u)
    && (forall u :: u in v.byUser ==> v.byUser[u] != {})
  }

  function Added(v: Indexes, socket: string, user: string): Indexes {
    Indexes(v.bySocket[socket := user], v.byUser[user := Sockets(v, user) + {socket}])
  }

  function Removed(v: Indexes, socket: string): Indexes {
    if socket !in v.bySocket then v
    else
      var user := v.bySocket[socket];
      var rest := Sockets(v, user) - {socket};
      Indexes(v.bySocket - {socket},
              if user !in v.byUser then v.byUser else if rest == {} then v.byUser - {user} else v.byUser[user := rest])
  }

  // All of `gone` removed at once.
  function Pruned(v: Indexes, gone: set<string>): Indexes {
    Indexes(v.bySocket - gone, map u | u in v.byUser && v.byUser[u] - gone != {} :: v.byUser[u] - gone)
  }

  // Registering keeps the indexes inverse exactly when the socket id is new or already belongs to
  // that user; reusing another user's id leaves a stale entry in the index by user.
  lemma AddedInverseIff(v: Indexes, socket: string, user: string)
    requires Inverse(v)
    ensures Inverse(Added(v, socket, user)) <==> (socket !in v.bySocket || v.bySocket[socket] == user)
    ensures forall u :: Sockets(Added(v, socket, user), u) == Sockets(v, u) + if u == user then {socket} else {}
  {
    var v' := Added(v, socket, user);
    if socket in v.bySocket && v.bySocket[socket] != user {
      var owner := v.bySocket[socket];
      assert socket in Sockets(v, owner);
      assert socket in Sockets(v', owner) && v'.bySocket[socket] != owner;
    } else {
      forall u, s | s in Sockets(v', u) ensures s in v'.bySocket && v'.bySocket[s] == u {
        assert s in Sockets(v, u) || (u == user && s == socket);
      }
      forall s | s in v'.bySocket ensures s in Sockets(v', v'.bySocket[s]) {
        assert s == socket || s in Sockets(v, v.bySocket[s]);
      }
    }
  }

  lemma PrunedInverse(v: Indexes, gone: set<string>)
    requires Inverse(v)
    ensures forall u :: Sockets(Pruned(v, gone), u) == Sockets(v, u) - gone
    ensures Inverse(Pruned(v, gone))
  {
    var v' := Pruned(v, gone);
    forall u ensures Sockets(v', u) == Sockets(v, u) - gone {
    }
    forall s | s in v'.bySocket ensures s in Sockets(v', v'.bySocket[s]) {
      assert s in Sockets(v, v.bySocket[s]);
    }
    forall u, s | s in Sockets(v', u) ensures s in v'.bySocket && v'.bySocket[s] == u {
      assert s in Sockets(v, u);
    }
  }

  // Indexes that are inverse are determined by the index by socket.
  lemma SameIndexes(v: Indexes, w: Indexes)
    requires Inverse(v) && Inverse(w) && v.bySocket == w.bySocket
    ensures v == w
  {
    forall u ensures Sockets(v, u) == Sockets(w, u) {
      forall s ensures s in Sockets(v, u) <==> s in Sockets(w, u) {
        if s in Sockets(v, u) {
          assert s in Sockets(w, w.bySocket[s]);
        }
        if s in Sockets(w, u) {
          assert s in Sockets(v, v.bySocket[s]);
        }
      }
    }
    forall u ensures u in v.byUser <==> u in w.byUser {
      if u in v.byUser {
        var s :| s in v.byUser[u];
        assert s in Sockets(w, u);
      }
      if u in w.byUser {
        var s :| s in w.byUser[u];
        assert s in Sockets(v, u);
      }
    }
    forall u | u in v.byUser ensures v.byUser[u] == w.byUser[u] {
      assert Sockets(v, u) == Sockets(w, u);
    }
    assert v.byUser == w.byUser;
  }

  lemma RemovedInverse(v: Indexes, socket: string)
    requires Inverse(v)
    ensures forall u :: Sockets(Removed(v, socket), u) == Sockets(v, u) - {socket}
    ensures Inverse(Removed(v, socket))
  {
    var v' := Removed(v, socket);
    forall u ensures Sockets(v', u) == Sockets(v, u) - {socket} {
      if socket in Sockets(v, u) {
        assert v.bySocket[socket] == u;
      }
    }
    forall s | s in v'.bySocket ensures s in Sockets(v', v'.bySocket[s]) {
      assert s in Sockets(v, v.bySocket[s]);
    }
    forall u, s | s in Sockets(v', u) ensures s in v'.bySocket && v'.bySocket[s] == u {
      assert s in Sockets(v, u);
    }
  }

  // The owner of a socket is the user it is listed under.
  lemma OwnerIff(v: Indexes, socket: string, user: string)
    requires Inverse(v) && user != ""
    ensures Owner(v, socket) == user <==> socket in Sockets(v, user)
  {
    if socket in v.bySocket {
      assert socket in Sockets(v, v.bySocket[socket]);
    }
  }

  lemma RemovedTwice(m: map<string, string>, gone: set<string>, socket: string)
    ensures m - gone - {socket} == m - (gone + {socket})
  {
  }

  // ---- What the sockets receive ----

  datatype Frame = Frame(socket: string, msg: WSMessage)

  // The messages a socket received, in order.
  function Received(wire: seq<Frame>, socket: string): seq<WSMessage> {
    if wire == [] then []
    else
      var last := wire[|wire| - 1];
      Received(wire[..|wire| - 1], socket) + if last.socket == socket then [last.msg] else []
  }

  // Every socket in `to` received one more message, and the others received nothing.
  ghost predicate Reached(before: seq<Frame>, after: seq<Frame>, to: set<string>, msg: WSMessage) {
    forall s :: Received(after, s) == if s in to then Received(before, s) + [msg] else Received(before, s)
  }

  lemma ReachedAlso(before: seq<Frame>, between: seq<Frame>, after: seq<Frame>, to: set<string>, one: set<string>,
                    msg: WSMessage)
    requires Reached(before, between, to, msg) && Reached(between, after, one, msg) && to !! one
    ensures Reached(before, after, to + one, msg)
  {
  }

  lemma ReceivedNext(wire: seq<Frame>, f: Frame, socket: string)
    ensures Received(wire + [f], socket) == Received(wire, socket) + if f.socket == socket then [f.msg] else []
  {
    assert (wire + [f])[..|wire|] == wire;
  }

  // ---- The class ----

  class ConnectionManager {
    var bySocket: map<string, string>
    var byUser: map<string, set<string>>
    // Every frame written so far, on any socket.
    var wire: seq<Frame>

    constructor ()
      ensures View() == NO_SOCKETS && wire == []
    {
      bySocket, byUser, wire := map[], map[], [];
    }

    function View(): Indexes
      reads this
    {
      Indexes(bySocket, byUser)
    }

    method Add(socketID: string, userID: string)
      modifies this
      ensures View() == Added(old(View()), socketID, userID)
      ensures wire == old(wire)
    {
      bySocket := bySocket[socketID := userID];
      if userID !in byUser {
        byUser := byUser[userID := {}];
      }
      byUser := byUser[userID := byUser[userID] + {socketID}];
    }

    method Remove(socketID: string) returns (userID: string)
      modifies this
      ensures View() == Removed(old(View()), socketID)
      ensures userID == Owner(old(View()), socketID)
      ensures wire == old(wire)
    {
      if socketID !in bySocket {
        return "";
      }
      userID := bySocket[socketID];
      bySocket := bySocket - {socketID};
      if userID in byUser {
        byUser := byUser[userID := byUser[userID] - {socketID}];
        if |byUser[userID]| == 0 {
          byUser := byUser - {userID};
        }
      }
    }

    // Writes to one socket; a write to a socket in `broken` fails, and the socket is dropped.
    method SendToSocket(socketID: string, msg: WSMessage, broken: set<string>) returns (err: Option<SendError>)
      modifies this
      ensures socketID !in old(bySocket) ==>
                err == Some(ConnectionNotFound) && View() == old(View()) && wire == old(wire)
      ensures socketID in old(bySocket) && socketID in broken ==>
                err == Some(WriteFailed) && View() == Removed(old(View()), socketID) && wire == old(wire)
      ensures socketID in old(bySocket) && socketID !in broken ==>
                err == None && View() == old(View()) && wire == old(wire) + [Frame(socketID, msg)]
    {
      if socketID !in bySocket {
        return Some(ConnectionNotFound);
      }
      if socketID in broken {
        var _ := Remove(socketID);
        return Some(WriteFailed);
      }
      wire := wire + [Frame(socketID, msg)];
      err := None;
    }

    // Since `start` and `before`, the sockets `sent` received the message, the sockets `failed`
    // were dropped, and nothing else happened.
    ghost predicate SoFar(start: Indexes, before: seq<Frame>, sent: set<string>, failed: set<string>, msg: WSMessage)
      reads this
    {
      Inverse(View()) && bySocket == start.bySocket - failed && Reached(before, wire, sent, msg)
    }

    // One turn of the loop, and the error so far.
    method SendOne(sid: string, msg: WSMessage, broken: set<string>, lastErr: Option<SendError>,
                   ghost start: Indexes, ghost before: seq<Frame>, ghost sent: set<string>, ghost failed: set<string>)
      returns (err: Option<SendError>)
      requires SoFar(start, before, sent, failed, msg) && sid in start.bySocket && sid !in sent + failed
      modifies this
      ensures SoFar(start, before, sent + ({sid} - broken), failed + {sid} * broken, msg)
      ensures err == if sid in broken then Some(WriteFailed) else lastErr
    {
      RemovedInverse(View(), sid);
      ghost var between := wire;
      err := SendToSocket(sid, msg, broken);
      if err.None? {
        err := lastErr;
        forall s ensures Received(wire, s) == if s == sid then Received(between, s) + [msg] else Received(between, s) {
          ReceivedNext(between, Frame(sid, msg), s);
        }
        ReachedAlso(before, between, wire, sent, {sid}, msg);
        assert {sid} - broken == {sid} && failed + {sid} * broken == failed;
      } else {
        RemovedTwice(start.bySocket, failed, sid);
        assert {sid} * broken == {sid} && sent + ({sid} - broken) == sent;
      }
    }

    // The loop in SendMessage, over the sockets listed when it began.
    method SendAll(socketIDs: set<string>, msg: WSMessage, broken: set<string>) returns (lastErr: Option<SendError>)
      requires Inverse(View()) && socketIDs <= bySocket.Keys
      modifies this
      ensures SoFar(old(View()), old(wire), socketIDs - broken, socketIDs * broken, msg)
      ensures lastErr == if socketIDs !! broken then None else Some(WriteFailed)
    {
      ghost var start, before := View(), wire;
      lastErr := None;
      var rest := socketIDs;
      ghost var seen: set<string> := {};
      assert start.bySocket - seen * broken == start.bySocket;
      while rest != {}
        invariant seen == socketIDs - rest && rest <= socketIDs
        invariant SoFar(start, before, seen - broken, seen * broken, msg)
        invariant lastErr == if seen !! broken then None else Some(WriteFailed)
        decreases rest
      {
        var sid :| sid in rest;
        lastErr := SendOne(sid, msg, broken, lastErr, start, before, seen - broken, seen * broken);
        assert seen - broken + ({sid} - broken) == (seen + {sid}) - broken;
        assert seen * broken + {sid} * broken == (seen + {sid}) * broken;
        seen, rest := seen + {sid}, rest - {sid};
      }
      assert seen == socketIDs;
    }

    // One copy to every socket of the user whose write works; the others are dropped on the way.
    method SendMessage(userID: string, msg: WSMessage, broken: set<string>) returns (err: Option<SendError>)
      requires Inverse(View())
      modifies this
      ensures SoFar(old(View()), old(wire), Sockets(old(View()), userID) - broken,
                    Sockets(old(View()), userID) * broken, msg)
      ensures err.None? <==> Sockets(old(View()), userID) != {} && Sockets(old(View()), userID) !! broken
      ensures err == Some(ConnectionNotFound) <==> Sockets(old(View()), userID) == {}
    {
      var socketIDs := Sockets(View(), userID);
      if |socketIDs| == 0 {
        assert socketIDs * broken == {} && socketIDs - broken == {};
        return Some(ConnectionNotFound);
      }
      err := SendAll(socketIDs, msg, broken);
    }
  }
}
