// shared/messaging/rcm.go: messages between gateway nodes over Redis Pub/Sub. A publish reaches
// every node that is subscribed at that moment; the copies are in flight until each node delivers
// its own to its local sockets, in any order.
module Cluster {
  import opened Options
  import opened Registry
  import opened Rooms
  import opened Gateway
  import NodeLocks

  datatype Packet = ToUser(node: nat, user: string, msg: WSMessage) | ToRoom(node: nat, room: string, msg: WSMessage)

  datatype Via = Direct | InRoom(room: string)

  // One copy of a message written to a socket.
  datatype Receipt = Receipt(node: nat, socket: string, msg: WSMessage, via: Via)

  datatype State = State(
    nodes: map<nat, Node>,
    inFlight: multiset<Packet>,
    wire: multiset<Receipt>,
    streams: map<string, seq<WSMessage>>)

  function Stream(c: State, user: string): seq<WSMessage> {
    if user in c.streams then c.streams[user] else []
  }

  function SocketsAt(c: State, node: nat, user: string): set<string> {
    if node in c.nodes then Sockets(c.nodes[node].reg, user) else {}
  }

  function RoomAt(c: State, node: nat, room: string): set<string> {
    if node in c.nodes then Members(c.nodes[node].rooms, room) * c.nodes[node].reg.bySocket.Keys else {}
  }

  function Subscribers(c: State, user: string): set<nat> {
    set k | k in c.nodes && user in c.nodes[k].userSubs
  }

  function RoomSubscribers(c: State, room: string): set<nat> {
    set k | k in c.nodes && room in c.nodes[k].rooms.roomSubs
  }

  function Copies(node: nat, sockets: set<string>, msg: WSMessage, via: Via): multiset<Receipt> {
    multiset(set s | s in sockets :: Receipt(node, s, msg, via))
  }

  // SendMessage on `node`; writes to the local sockets in `broken` fail and drop the socket.
  function SendFrom(c: State, node: nat, user: string, msg: WSMessage, broken: set<string>): State {
    if node !in c.nodes then c else
      var to := SocketsAt(c, node, user);
      var reg := if to !! broken then c.nodes[node].reg else Pruned(c.nodes[node].reg, to * broken);
      var tried := c.(nodes := c.nodes[node := c.nodes[node].(reg := reg)],
                      wire := c.wire + Copies(node, to - broken, msg, Direct));
      if to != {} && to !! broken then tried
      else if Subscribers(c, user) == {} then tried.(streams := c.streams[user := Stream(c, user) + [msg]])
      else tried.(inFlight := c.inFlight + multiset(set k | k in Subscribers(c, user) :: ToUser(k, user, msg)))
  }

  // ---- Steps without write failures, while nobody connects, disconnects, joins or leaves ----

  datatype Step =
    | Send(node: nat, user: string, msg: WSMessage)
    | Broadcast(room: string, msg: WSMessage)
    | Deliver(packet: Packet)

  function Apply(c: State, step: Step): State {
    match step
    case Send(node, user, msg) => SendFrom(c, node, user, msg, {})
    case Broadcast(room, msg) =>
      c.(inFlight := c.inFlight + multiset(set k | k in RoomSubscribers(c, room) :: ToRoom(k, room, msg)))
    case Deliver(p) =>
      if p !in c.inFlight then c
      else
        var copies := match p
          case ToUser(node, user, msg) => Copies(node, SocketsAt(c, node, user), msg, Direct)
          case ToRoom(node, room, msg) => Copies(node, RoomAt(c, node, room), msg, InRoom(room));
        c.(inFlight := c.inFlight - multiset{p}, wire := c.wire + copies)
  }

  function Exec(c: State, steps: seq<Step>): State
    decreases |steps|
  {
    if steps == [] then c else Exec(Apply(c, steps[0]), steps[1..])
  }

  // Every node subscribes to exactly its connected users, as SubscribedIff leaves it when nothing is
  // orphaned.
  ghost predicate Settled(c: State, user: string) {
    forall k :: k in c.nodes ==>
      && Inverse(c.nodes[k].reg)
      && (user in c.nodes[k].userSubs <==> Sockets(c.nodes[k].reg, user) != {})
  }

  ghost predicate RoomsSettled(c: State) {
    forall k :: k in c.nodes ==> Rooms.Consistent(c.nodes[k].rooms)
  }

  // ---- Delivered plus promised ----

  // The copies of a receipt still to come from the packets in flight.
  function Promised(c: State, r: Receipt): nat {
    match r.via
    case InRoom(room) => if r.socket in RoomAt(c, r.node, room) then c.inFlight[ToRoom(r.node, room, r.msg)] else 0
    case Direct =>
      if r.node in c.nodes && r.socket in c.nodes[r.node].reg.bySocket
      then c.inFlight[ToUser(r.node, c.nodes[r.node].reg.bySocket[r.socket], r.msg)] else 0
  }

  function Due(c: State, r: Receipt): nat {
    c.wire[r] + Promised(c, r)
  }

  // Whom a send is meant for: the local sockets of the user if there are any, else his sockets on
  // every node; and a broadcast, for every connected member on every node.
  predicate Targets(c: State, step: Step, r: Receipt) {
    match step
    case Send(node, user, msg) =>
      && r.via == Direct && r.msg == msg && node in c.nodes
      && r.socket in SocketsAt(c, r.node, user)
      && (r.node == node || SocketsAt(c, node, user) == {})
    case Broadcast(room, msg) => r.via == InRoom(room) && r.msg == msg && r.socket in RoomAt(c, r.node, room)
    case Deliver(_) => false
  }

  lemma CopiesCount(node: nat, sockets: set<string>, msg: WSMessage, via: Via, r: Receipt)
    ensures Copies(node, sockets, msg, via)[r]
         == if r.node == node && r.socket in sockets && r.msg == msg && r.via == via then 1 else 0
  {
  }

  lemma LocalSendDue(c: State, node: nat, user: string, msg: WSMessage, r: Receipt)
    requires Settled(c, user) && SocketsAt(c, node, user) != {}
    ensures var c' := Apply(c, Send(node, user, msg));
            && c'.nodes == c.nodes && c'.inFlight == c.inFlight && c'.streams == c.streams
            && c'.wire[r] == c.wire[r] + if Targets(c, Send(node, user, msg), r) then 1 else 0
  {
    var to := SocketsAt(c, node, user);
    assert c.nodes[node := c.nodes[node].(reg := c.nodes[node].reg)] == c.nodes;
    assert to !! {} && to - {} == to;
    CopiesCount(node, to, msg, Direct, r);
  }

  // Without a local socket the message is published, or appended to the stream when nobody
  // subscribes.
  lemma RemoteSend(c: State, node: nat, user: string, msg: WSMessage)
    requires node in c.nodes && SocketsAt(c, node, user) == {}
    ensures var c' := Apply(c, Send(node, user, msg));
            && c'.nodes == c.nodes && c'.wire == c.wire
            && (forall u ::
                  Stream(c', u) == Stream(c, u) + if u == user && Subscribers(c, user) == {} then [msg] else [])
            && c'.inFlight == c.inFlight + multiset(set k | k in Subscribers(c, user) :: ToUser(k, user, msg))
  {
    assert c.nodes[node := c.nodes[node].(reg := c.nodes[node].reg)] == c.nodes;
    var none: set<string> := {};
    assert none !! {} && none - {} == {};
    assert Copies(node, none, msg, Direct) == multiset{};
    if Subscribers(c, user) == {} {
      assert (set k | k in Subscribers(c, user) :: ToUser(k, user, msg)) == {};
    }
  }

  lemma RemoteSendDue(c: State, node: nat, user: string, msg: WSMessage, r: Receipt)
    requires Settled(c, user) && node in c.nodes && SocketsAt(c, node, user) == {}
    ensures var c' := Apply(c, Send(node, user, msg));
            Due(c', r) == Due(c, r) + if Targets(c, Send(node, user, msg), r) then 1 else 0
  {
    RemoteSend(c, node, user, msg);
  }

  lemma BroadcastDue(c: State, room: string, msg: WSMessage, r: Receipt)
    requires RoomsSettled(c)
    ensures var c' := Apply(c, Broadcast(room, msg));
            Due(c', r) == Due(c, r) + if Targets(c, Broadcast(room, msg), r) then 1 else 0
  {
    if Targets(c, Broadcast(room, msg), r) {
      assert r.node in RoomSubscribers(c, room);
    }
  }

  lemma UserPacketDue(c: State, node: nat, user: string, msg: WSMessage, r: Receipt)
    requires forall k :: k in c.nodes ==> Inverse(c.nodes[k].reg)
    requires ToUser(node, user, msg) in c.inFlight
    ensures Due(Apply(c, Deliver(ToUser(node, user, msg))), r) == Due(c, r)
  {
    CopiesCount(node, SocketsAt(c, node, user), msg, Direct, r);
    if r.via == Direct && r.node == node && node in c.nodes && r.socket in c.nodes[node].reg.bySocket {
      assert r.socket in Sockets(c.nodes[node].reg, c.nodes[node].reg.bySocket[r.socket]);
    }
  }

  lemma RoomPacketDue(c: State, node: nat, room: string, msg: WSMessage, r: Receipt)
    requires ToRoom(node, room, msg) in c.inFlight
    ensures Due(Apply(c, Deliver(ToRoom(node, room, msg))), r) == Due(c, r)
  {
    CopiesCount(node, RoomAt(c, node, room), msg, InRoom(room), r);
  }

  // Delivering a packet turns what it promised into what was delivered.
  lemma DeliverDue(c: State, p: Packet, r: Receipt)
    requires forall k :: k in c.nodes ==> Inverse(c.nodes[k].reg)
    ensures Due(Apply(c, Deliver(p)), r) == Due(c, r)
    ensures Apply(c, Deliver(p)).nodes == c.nodes && Apply(c, Deliver(p)).streams == c.streams
  {
    if p in c.inFlight {
      match p
      case ToUser(node, user, msg) => UserPacketDue(c, node, user, msg, r);
      case ToRoom(node, room, msg) => RoomPacketDue(c, node, room, msg, r);
    }
  }

  // ---- Any number of sends, broadcasts and deliveries, in any order ----

  // The users being sent to are settled; the rooms are.
  ghost predicate Steady(c: State, steps: seq<Step>) {
    && RoomsSettled(c)
    && (forall k :: k in c.nodes ==> Inverse(c.nodes[k].reg))
    && (forall st :: st in steps && st.Send? ==> Settled(c, st.user))
  }

  ghost function TargetCount(c: State, steps: seq<Step>, r: Receipt): nat {
    if steps == [] then 0
    else (if Targets(c, steps[0], r) then 1 else 0) + TargetCount(c, steps[1..], r)
  }

  // The messages for a user who has no socket on any node, in the order they were sent.
  ghost function Missed(c: State, steps: seq<Step>, user: string): seq<WSMessage> {
    if steps == [] then [] else MissedBy(c, steps[0], user) + Missed(c, steps[1..], user)
  }

  ghost function MissedBy(c: State, step: Step, user: string): seq<WSMessage> {
    if step.Send? && step.user == user && step.node in c.nodes && (forall k :: SocketsAt(c, k, user) == {})
    then [step.msg] else []
  }

  lemma StepDue(c: State, step: Step, r: Receipt)
    requires Steady(c, [step])
    ensures var c' := Apply(c, step);
            c'.nodes == c.nodes && Due(c', r) == Due(c, r) + if Targets(c, step, r) then 1 else 0
  {
    assert step in [step];
    match step
    case Send(node, user, msg) =>
      if node in c.nodes {
        if SocketsAt(c, node, user) != {} {
          LocalSendDue(c, node, user, msg, r);
        } else {
          RemoteSend(c, node, user, msg);
          RemoteSendDue(c, node, user, msg, r);
        }
      }
    case Broadcast(room, msg) => BroadcastDue(c, room, msg, r);
    case Deliver(p) => DeliverDue(c, p, r);
  }

  lemma StepMissed(c: State, step: Step, user: string)
    requires Steady(c, [step])
    ensures Stream(Apply(c, step), user) == Stream(c, user) + MissedBy(c, step, user)
  {
    assert step in [step];
    if step.Send? && step.node in c.nodes {
      if SocketsAt(c, step.node, step.user) != {} {
        LocalSendDue(c, step.node, step.user, step.msg, Receipt(0, "", step.msg, Direct));
      } else {
        RemoteSend(c, step.node, step.user, step.msg);
        NobodyIffNoSockets(c, step.user);
      }
    }
  }

  lemma NobodyIffNoSockets(c: State, user: string)
    requires Settled(c, user)
    ensures Subscribers(c, user) == {} <==> forall k :: SocketsAt(c, k, user) == {}
  {
    if k :| SocketsAt(c, k, user) != {} {
      assert k in Subscribers(c, user);
    }
    if k :| k in Subscribers(c, user) {
      assert SocketsAt(c, k, user) != {};
    }
  }

  lemma {:induction false} RunDue(c: State, steps: seq<Step>, r: Receipt)
    requires Steady(c, steps)
    ensures Due(Exec(c, steps), r) == Due(c, r) + TargetCount(c, steps, r)
    ensures Exec(c, steps).nodes == c.nodes
    decreases |steps|
  {
    if steps != [] {
      assert steps[0] in steps;
      StepDue(c, steps[0], r);
      var c' := Apply(c, steps[0]);
      SameTargets(c, c', steps[1..], r);
      RunDue(c', steps[1..], r);
    }
  }

  // Whom a step is meant for depends on the nodes alone.
  lemma {:induction false} SameTargets(c: State, c': State, steps: seq<Step>, r: Receipt)
    requires c.nodes == c'.nodes
    ensures TargetCount(c, steps, r) == TargetCount(c', steps, r)
    ensures Steady(c, steps) <==> Steady(c', steps)
  {
    if steps != [] {
      SameTargets(c, c', steps[1..], r);
    }
  }

  lemma {:induction false} SameMissed(c: State, c': State, steps: seq<Step>, user: string)
    requires c.nodes == c'.nodes
    ensures Missed(c, steps, user) == Missed(c', steps, user)
  {
    if steps != [] {
      SameMissed(c, c', steps[1..], user);
      assert forall k :: SocketsAt(c, k, user) == SocketsAt(c', k, user);
    }
  }

  // Once drained, a socket holds exactly one more copy of a message for every send and broadcast
  // that was meant for it, whatever the order of deliveries.
  lemma DrainedRunDelivers(c: State, steps: seq<Step>, r: Receipt)
    requires Steady(c, steps)
    requires c.inFlight == multiset{} && Exec(c, steps).inFlight == multiset{}
    ensures Exec(c, steps).wire[r] == c.wire[r] + TargetCount(c, steps, r)
  {
    RunDue(c, steps, r);
  }

  // A message goes to the user's stream exactly when he is connected nowhere.
  lemma {:induction false} StreamsHoldMissed(c: State, steps: seq<Step>, user: string)
    requires Steady(c, steps)
    ensures Stream(Exec(c, steps), user) == Stream(c, user) + Missed(c, steps, user)
    decreases |steps|
  {
    if steps != [] {
      var c' := Apply(c, steps[0]);
      SteadyStep(c, steps);
      StepMissed(c, steps[0], user);
      StreamsHoldMissed(c', steps[1..], user);
      SameMissed(c, c', steps[1..], user);
      Regroup(Stream(c, user), MissedBy(c, steps[0], user), Missed(c, steps[1..], user));
      assert Missed(c, steps, user) == MissedBy(c, steps[0], user) + Missed(c, steps[1..], user);
      assert Exec(c, steps) == Exec(c', steps[1..]);
    }
  }

  lemma Regroup(x: seq<WSMessage>, y: seq<WSMessage>, z: seq<WSMessage>)
    ensures x + y + z == x + (y + z)
  {
  }

  lemma SteadyStep(c: State, steps: seq<Step>)
    requires Steady(c, steps) && steps != []
    ensures Steady(c, [steps[0]]) && Steady(Apply(c, steps[0]), steps[1..])
    ensures Apply(c, steps[0]).nodes == c.nodes
  {
    assert steps[0] in steps;
    var r := Receipt(0, "", WSMessage("", "", ""), Direct);
    StepDue(c, steps[0], r);
    SameTargets(c, Apply(c, steps[0]), steps[1..], r);
  }

  // ---- One message, from reachable nodes ----

  // A node that reached its state by some interleaving of connects, disconnects, joins and leaves.
  datatype History = History(locks: seq<NodeLocks.Step>, rooms: seq<Rooms.Step>)

  function NodeAfter(h: History): Node {
    var st := NodeLocks.Exec(NodeLocks.START, h.locks);
    Node(st.reg, st.userSubs, Rooms.Exec(h.rooms))
  }

  // Nothing is in progress, and the user's subscription is not orphaned; writes may have failed.
  ghost predicate Calm(h: History, user: string) {
    && NodeLocks.Quiescent(NodeLocks.Exec(NodeLocks.START, h.locks))
    && !NodeLocks.Orphaned(h.locks, user)
  }

  ghost predicate Reachable(c: State, histories: map<nat, History>) {
    && c.nodes.Keys == histories.Keys
    && forall k :: k in histories ==> c.nodes[k] == NodeAfter(histories[k])
  }

  lemma ReachableIsSettled(c: State, histories: map<nat, History>, user: string)
    requires Reachable(c, histories) && user != "" && forall k :: k in histories ==> Calm(histories[k], user)
    ensures Settled(c, user) && RoomsSettled(c)
  {
    forall k | k in c.nodes
      ensures Inverse(c.nodes[k].reg) && Rooms.Consistent(c.nodes[k].rooms)
           && (user in c.nodes[k].userSubs <==> Sockets(c.nodes[k].reg, user) != {})
    {
      NodeLocks.FinishedAddsAreSubscribed(histories[k].locks);
      NodeLocks.SubscribedIff(histories[k].locks, user);
      Rooms.RoomsFollowHistory(histories[k].rooms);
    }
  }

  // An orphaned subscription is exactly what keeps quiescent nodes from being settled.
  lemma SettledIffNotOrphaned(c: State, histories: map<nat, History>, user: string)
    requires Reachable(c, histories) && user != ""
    requires forall k :: k in histories ==> NodeLocks.Quiescent(NodeLocks.Exec(NodeLocks.START, histories[k].locks))
    ensures Settled(c, user) <==> forall k :: k in histories ==> !NodeLocks.Orphaned(histories[k].locks, user)
  {
    if forall k :: k in histories ==> !NodeLocks.Orphaned(histories[k].locks, user) {
      ReachableIsSettled(c, histories, user);
    } else {
      var k :| k in histories && NodeLocks.Orphaned(histories[k].locks, user);
      NodeLocks.SubscribedIff(histories[k].locks, user);
      assert k in c.nodes;
    }
  }

  predicate OnlyDeliveries(steps: seq<Step>) {
    forall st :: st in steps ==> st.Deliver?
  }

  lemma {:induction false} DeliveriesTargetNone(c: State, steps: seq<Step>, r: Receipt, user: string)
    requires OnlyDeliveries(steps)
    ensures TargetCount(c, steps, r) == 0 && Missed(c, steps, user) == []
  {
    if steps != [] {
      assert steps[0] in steps;
      assert OnlyDeliveries(steps[1..]) by { assert forall st :: st in steps[1..] ==> st in steps; }
      DeliveriesTargetNone(c, steps[1..], r, user);
    }
  }

  // Across any number of nodes, a message sent to a user has exactly one outcome: each of his
  // sockets on the sending node gets one copy; or, when he has none there, each of his sockets
  // elsewhere gets one; or, when he has none at all, one entry is appended to his stream. No
  // socket gets a second copy.
  lemma ExactlyOneOutcome(c: State, histories: map<nat, History>, node: nat, user: string, msg: WSMessage,
                          deliveries: seq<Step>, r: Receipt)
    requires Reachable(c, histories) && user != "" && (forall k :: k in histories ==> Calm(histories[k], user))
    requires node in c.nodes && c.inFlight == multiset{} && OnlyDeliveries(deliveries)
    requires Exec(c, [Send(node, user, msg)] + deliveries).inFlight == multiset{}
    ensures var c' := Exec(c, [Send(node, user, msg)] + deliveries);
            var everywhere := SocketsAt(c, node, user) == {};
            && c'.wire[r] == c.wire[r] + (if r.via == Direct && r.msg == msg && r.socket in SocketsAt(c, r.node, user)
                                             && (r.node == node || everywhere) then 1 else 0)
            && Stream(c', user) == Stream(c, user) + if forall k :: SocketsAt(c, k, user) == {} then [msg] else []
  {
    ReachableIsSettled(c, histories, user);
    var steps := [Send(node, user, msg)] + deliveries;
    assert steps[0] == Send(node, user, msg) && steps[1..] == deliveries;
    assert Steady(c, steps);
    DrainedRunDelivers(c, steps, r);
    StreamsHoldMissed(c, steps, user);
    DeliveriesTargetNone(c, deliveries, r, user);
  }

  // A broadcast reaches every connected socket that joined the room and was not evicted since, on
  // every node, exactly once; the sending node is treated like the others.
  lemma BroadcastReachesEachMemberOnce(c: State, histories: map<nat, History>, room: string, msg: WSMessage,
                                       deliveries: seq<Step>, r: Receipt)
    requires Reachable(c, histories) && c.inFlight == multiset{} && OnlyDeliveries(deliveries)
    requires Exec(c, [Broadcast(room, msg)] + deliveries).inFlight == multiset{}
    ensures Exec(c, [Broadcast(room, msg)] + deliveries).wire[r]
         == c.wire[r] + if r.via == InRoom(room) && r.msg == msg && r.node in histories
                           && Rooms.JoinedLast(histories[r.node].rooms, r.socket, room)
                           && r.socket in c.nodes[r.node].reg.bySocket then 1 else 0
  {
    forall k | k in c.nodes ensures Inverse(c.nodes[k].reg) && Rooms.Consistent(c.nodes[k].rooms) {
      NodeLocks.FinishedAddsAreSubscribed(histories[k].locks);
      Rooms.RoomsFollowHistory(histories[k].rooms);
    }
    var steps := [Broadcast(room, msg)] + deliveries;
    assert steps[0] == Broadcast(room, msg) && steps[1..] == deliveries;
    DrainedRunDelivers(c, steps, r);
    DeliveriesTargetNone(c, deliveries, r, "");
    if r.node in histories {
      Rooms.RoomsFollowHistory(histories[r.node].rooms);
    }
  }

  // ---- What write failures and leaked subscriptions do ----

  // When a write to one of the user's local sockets fails, the message is published as well, and
  // comes back through the node's own subscription: every other local socket gets it twice.
  lemma PartialFailureDuplicates(c: State, node: nat, user: string, msg: WSMessage, broken: set<string>,
                                 deliveries: seq<Step>, socket: string)
    requires Settled(c, user) && RoomsSettled(c) && node in c.nodes && c.inFlight == multiset{}
    requires socket in SocketsAt(c, node, user) && socket !in broken
    requires OnlyDeliveries(deliveries)
    requires Exec(SendFrom(c, node, user, msg, broken), deliveries).inFlight == multiset{}
    ensures var r := Receipt(node, socket, msg, Direct);
            Exec(SendFrom(c, node, user, msg, broken), deliveries).wire[r]
              == c.wire[r] + if SocketsAt(c, node, user) !! broken then 1 else 2
  {
    var r := Receipt(node, socket, msg, Direct);
    var c1 := SendFrom(c, node, user, msg, broken);
    FailedSendDue(c, node, user, msg, broken, socket);
    FailedSendSteady(c, node, user, msg, broken, deliveries);
    RunDue(c1, deliveries, r);
    DeliveriesTargetNone(c1, deliveries, r, user);
  }

  // What a send with some failed write does besides.
  lemma FailedSend(c: State, node: nat, user: string, msg: WSMessage, broken: set<string>)
    requires Settled(c, user) && node in c.nodes && !(SocketsAt(c, node, user) !! broken)
    ensures var c1 := SendFrom(c, node, user, msg, broken);
            c1.inFlight == c.inFlight + multiset(set k | k in Subscribers(c, user) :: ToUser(k, user, msg))
    ensures node in Subscribers(c, user)
  {
    assert SocketsAt(c, node, user) != {};
  }

  lemma KeptSocket(c: State, node: nat, user: string, msg: WSMessage, broken: set<string>, socket: string)
    requires Settled(c, user) && node in c.nodes && socket in SocketsAt(c, node, user) && socket !in broken
    ensures var c1 := SendFrom(c, node, user, msg, broken);
            && node in c1.nodes && socket in c1.nodes[node].reg.bySocket && c1.nodes[node].reg.bySocket[socket] == user
            && c1.wire[Receipt(node, socket, msg, Direct)] == c.wire[Receipt(node, socket, msg, Direct)] + 1
  {
    CopiesCount(node, SocketsAt(c, node, user) - broken, msg, Direct, Receipt(node, socket, msg, Direct));
    assert c.nodes[node].reg.bySocket[socket] == user;
  }

  lemma FailedSendDue(c: State, node: nat, user: string, msg: WSMessage, broken: set<string>, socket: string)
    requires Settled(c, user) && node in c.nodes && c.inFlight == multiset{}
    requires socket in SocketsAt(c, node, user) && socket !in broken
    ensures var r := Receipt(node, socket, msg, Direct);
            Due(SendFrom(c, node, user, msg, broken), r)
              == c.wire[r] + if SocketsAt(c, node, user) !! broken then 1 else 2
  {
    KeptSocket(c, node, user, msg, broken, socket);
    if SocketsAt(c, node, user) !! broken {
      assert SendFrom(c, node, user, msg, broken).inFlight == multiset{};
    } else {
      FailedSend(c, node, user, msg, broken);
      assert ToUser(node, user, msg) in (set k | k in Subscribers(c, user) :: ToUser(k, user, msg));
    }
  }

  lemma FailedSendSteady(c: State, node: nat, user: string, msg: WSMessage, broken: set<string>, deliveries: seq<Step>)
    requires Settled(c, user) && RoomsSettled(c) && node in c.nodes && OnlyDeliveries(deliveries)
    ensures Steady(SendFrom(c, node, user, msg, broken), deliveries)
  {
    var to := SocketsAt(c, node, user);
    var c1 := SendFrom(c, node, user, msg, broken);
    var reg := if to !! broken then c.nodes[node].reg else Pruned(c.nodes[node].reg, to * broken);
    PrunedInverse(c.nodes[node].reg, to * broken);
    assert c1.nodes == c.nodes[node := c.nodes[node].(reg := reg)];
    OneNodeChanged(c, c1, node, reg);
  }

  lemma OneNodeChanged(c: State, c': State, node: nat, reg: Indexes)
    requires RoomsSettled(c) && (forall k :: k in c.nodes ==> Inverse(c.nodes[k].reg))
    requires node in c.nodes && Inverse(reg) && c'.nodes == c.nodes[node := c.nodes[node].(reg := reg)]
    ensures RoomsSettled(c') && (forall k :: k in c'.nodes ==> Inverse(c'.nodes[k].reg))
  {
  }

  // A message for a user who is connected nowhere is kept exactly when no node still subscribes to
  // him; behind a leaked subscription it reaches nobody and is not kept.
  lemma KeptIffNoLeak(c: State, node: nat, user: string, msg: WSMessage, deliveries: seq<Step>, r: Receipt)
    requires node in c.nodes && c.inFlight == multiset{} && RoomsSettled(c)
    requires forall k :: k in c.nodes ==> Inverse(c.nodes[k].reg)
    requires forall k :: SocketsAt(c, k, user) == {}
    requires OnlyDeliveries(deliveries)
    requires Exec(SendFrom(c, node, user, msg, {}), deliveries).inFlight == multiset{}
    ensures var c' := Exec(SendFrom(c, node, user, msg, {}), deliveries);
            && c'.wire[r] == c.wire[r]
            && Stream(c', user) == Stream(c, user) + if Subscribers(c, user) == {} then [msg] else []
  {
    var c1 := SendFrom(c, node, user, msg, {});
    assert c1 == Apply(c, Send(node, user, msg));
    RemoteSend(c, node, user, msg);
    assert Promised(c1, r) == 0 by {
      if r.via == Direct && r.node in c.nodes && r.socket in c.nodes[r.node].reg.bySocket {
        var owner := c.nodes[r.node].reg.bySocket[r.socket];
        assert r.socket in SocketsAt(c, r.node, owner);
      }
    }
    assert Steady(c1, deliveries);
    RunDue(c1, deliveries, r);
    StreamsHoldMissed(c1, deliveries, user);
    DeliveriesTargetNone(c1, deliveries, r, user);
  }

  // ---- The steps are what the nodes do ----

  // One node's frames grew by exactly the receipts that were added for it.
  ghost predicate WritesMatch(c: State, c': State, node: nat, via: Via, msg: WSMessage, before: seq<Frame>,
                              after: seq<Frame>)
  {
    forall s ::
      var r := Receipt(node, s, msg, via);
      && c.wire[r] <= c'.wire[r] <= c.wire[r] + 1
      && Received(after, s) == Received(before, s) + if c'.wire[r] > c.wire[r] then [msg] else []
  }

  lemma CopiesMatch(c: State, c': State, node: nat, via: Via, msg: WSMessage, before: seq<Frame>, after: seq<Frame>,
                    to: set<string>)
    requires c'.wire == c.wire + Copies(node, to, msg, via) && Reached(before, after, to, msg)
    ensures WritesMatch(c, c', node, via, msg, before, after)
  {
    forall s ensures var r := Receipt(node, s, msg, via); c'.wire[r] == c.wire[r] + if s in to then 1 else 0 {
      CopiesCount(node, to, msg, via, Receipt(node, s, msg, via));
    }
  }

  // The registry that SendMessage leaves is the pruned one.
  lemma PrunedRegistry(v: Indexes, w: Indexes, to: set<string>, broken: set<string>)
    requires Inverse(v) && Inverse(w) && w.bySocket == v.bySocket - to * broken
    ensures w == if to !! broken then v else Pruned(v, to * broken)
  {
    PrunedInverse(v, to * broken);
    SameIndexes(w, Pruned(v, to * broken));
    if to !! broken {
      assert to * broken == {} && v.bySocket - {} == v.bySocket;
      SameIndexes(w, v);
    }
  }

  lemma SendFromRoute(c: State, node: nat, user: string, msg: WSMessage, broken: set<string>)
    requires node in c.nodes
    ensures var to := SocketsAt(c, node, user);
            var c' := SendFrom(c, node, user, msg, broken);
            && c'.wire == c.wire + Copies(node, to - broken, msg, Direct)
            && (match RouteOf(to, broken, Redis(Some(|Subscribers(c, user)|), false))
                case Local => c'.inFlight == c.inFlight && c'.streams == c.streams
                case Relayed(n) =>
                  n == |Subscribers(c, user)| && c'.streams == c.streams
                  && c'.inFlight == c.inFlight + multiset(set k | k in Subscribers(c, user) :: ToUser(k, user, msg))
                case Persisted =>
                  c'.inFlight == c.inFlight && c'.streams == c.streams[user := Stream(c, user) + [msg]]
                case NotSent => false)
  {
    assert Subscribers(c, user) == {} <==> |Subscribers(c, user)| == 0;
  }

  lemma SentNode(c: State, node: nat, user: string, msg: WSMessage, broken: set<string>, w: Indexes)
    requires node in c.nodes && Inverse(c.nodes[node].reg) && Inverse(w)
    requires w.bySocket == c.nodes[node].reg.bySocket - SocketsAt(c, node, user) * broken
    ensures SendFrom(c, node, user, msg, broken).nodes == c.nodes[node := c.nodes[node].(reg := w)]
  {
    PrunedRegistry(c.nodes[node].reg, w, SocketsAt(c, node, user), broken);
  }

  lemma SentWire(c: State, node: nat, user: string, msg: WSMessage, broken: set<string>, before: seq<Frame>,
                 after: seq<Frame>)
    requires node in c.nodes && Reached(before, after, SocketsAt(c, node, user) - broken, msg)
    ensures WritesMatch(c, SendFrom(c, node, user, msg, broken), node, Direct, msg, before, after)
  {
    var c' := SendFrom(c, node, user, msg, broken);
    assert c'.wire == c.wire + Copies(node, SocketsAt(c, node, user) - broken, msg, Direct);
    CopiesMatch(c, c', node, Direct, msg, before, after, SocketsAt(c, node, user) - broken);
  }

  // The packets that are new are exactly one for each published message and each node subscribed to
  // its user.
  ghost predicate PacketsMatch(c: State, c': State, published: seq<(string, WSMessage)>) {
    forall p :: c'.inFlight[p] == c.inFlight[p]
                                  + if p.ToUser? && p.node in c.nodes && p.user in c.nodes[p.node].userSubs
                                    then multiset(published)[(p.user, p.msg)] else 0
  }

  // The messages of one user in a log.
  function MessagesFor(log: seq<(string, WSMessage)>, user: string): seq<WSMessage> {
    if log == [] then []
    else (if log[0].0 == user then [log[0].1] else []) + MessagesFor(log[1..], user)
  }

  // The streams grew by exactly the messages appended for their users.
  ghost predicate EntriesMatch(c: State, c': State, persisted: seq<(string, WSMessage)>) {
    forall u :: Stream(c', u) == Stream(c, u) + MessagesFor(persisted, u)
  }

  lemma OnePublished(c: State, c': State, user: string, msg: WSMessage)
    requires c'.inFlight == c.inFlight + multiset(set k | k in Subscribers(c, user) :: ToUser(k, user, msg))
    ensures PacketsMatch(c, c', [(user, msg)])
  {
    forall p
      ensures c'.inFlight[p] == c.inFlight[p] + if p.ToUser? && p.node in c.nodes && p.user in c.nodes[p.node].userSubs
                                                then multiset([(user, msg)])[(p.user, p.msg)] else 0
    {
      var packets := set k | k in Subscribers(c, user) :: ToUser(k, user, msg);
      assert p in packets <==> p.ToUser? && p.user == user && p.msg == msg && p.node in Subscribers(c, user);
      assert c'.inFlight[p] == c.inFlight[p] + if p in packets then 1 else 0;
      if p.ToUser? {
        assert multiset([(user, msg)])[(p.user, p.msg)] == if p.user == user && p.msg == msg then 1 else 0;
      }
    }
  }

  lemma OnePersisted(c: State, c': State, user: string, msg: WSMessage)
    requires c'.streams == c.streams[user := Stream(c, user) + [msg]]
    ensures EntriesMatch(c, c', [(user, msg)])
  {
    assert [(user, msg)][1..] == [];
    forall u ensures Stream(c', u) == Stream(c, u) + MessagesFor([(user, msg)], u) {
      assert MessagesFor([], u) == [];
      assert Stream(c, u) + [] == Stream(c, u);
    }
  }

  lemma SentMatches(c: State, node: nat, user: string, msg: WSMessage, broken: set<string>, redis: Redis,
                    published: seq<(string, WSMessage)>, persisted: seq<(string, WSMessage)>)
    requires node in c.nodes && redis == Redis(Some(|Subscribers(c, user)|), false)
    requires var route := RouteOf(SocketsAt(c, node, user), broken, redis);
             && published == (if route.Local? then [] else [(user, msg)])
             && persisted == (if route.Persisted? then [(user, msg)] else [])
    ensures PacketsMatch(c, SendFrom(c, node, user, msg, broken), published)
    ensures EntriesMatch(c, SendFrom(c, node, user, msg, broken), persisted)
  {
    var c' := SendFrom(c, node, user, msg, broken);
    SendFromRoute(c, node, user, msg, broken);
    match RouteOf(SocketsAt(c, node, user), broken, redis) {
      case Local =>
        NothingHanded(c, c');
      case Relayed(_) =>
        OnePublished(c, c', user, msg);
        NoneKept(c, c');
      case Persisted =>
        assert Subscribers(c, user) == {};
        assert c.inFlight == c.inFlight + multiset(set k | k in Subscribers(c, user) :: ToUser(k, user, msg));
        OnePublished(c, c', user, msg);
        OnePersisted(c, c', user, msg);
    }
  }

  lemma NoneKept(c: State, c': State)
    requires c'.streams == c.streams
    ensures EntriesMatch(c, c', [])
  {
    forall u ensures Stream(c', u) == Stream(c, u) + MessagesFor([], u) {
      assert Stream(c, u) + [] == Stream(c, u);
    }
  }

  lemma NothingHanded(c: State, c': State)
    requires c'.inFlight == c.inFlight && c'.streams == c.streams
    ensures PacketsMatch(c, c', []) && EntriesMatch(c, c', [])
  {
    NoneKept(c, c');
  }

  // SendMessage on a node, when Redis answers with the number of subscribed nodes, is SendFrom: it
  // leaves that node, writes those copies and takes the branch of its route. What the step adds to
  // the packets and the streams is what the node newly published and appended.
  method SendOnNode(gateway: RedisConnectionManager, user: string, msg: WSMessage, broken: set<string>, redis: Redis,
                    ghost c: State, ghost node: nat)
    returns (route: Route)
    requires node in c.nodes && c.nodes[node] == gateway.View() && Inverse(gateway.localCM.View())
    requires redis == Redis(Some(|Subscribers(c, user)|), false)
    modifies gateway`published, gateway`persisted, gateway.localCM
    ensures var c' := SendFrom(c, node, user, msg, broken);
            && c'.nodes == c.nodes[node := gateway.View()]
            && WritesMatch(c, c', node, Direct, msg, old(gateway.localCM.wire), gateway.localCM.wire)
            && old(gateway.published) <= gateway.published
            && PacketsMatch(c, c', gateway.published[|old(gateway.published)|..])
            && old(gateway.persisted) <= gateway.persisted
            && EntriesMatch(c, c', gateway.persisted[|old(gateway.persisted)|..])
    ensures route == RouteOf(SocketsAt(c, node, user), broken, redis)
  {
    ghost var before, published, persisted := gateway.localCM.wire, gateway.published, gateway.persisted;
    route := gateway.SendMessage(user, msg, broken, redis);
    SentNode(c, node, user, msg, broken, gateway.localCM.View());
    SentWire(c, node, user, msg, broken, before, gateway.localCM.wire);
    SentMatches(c, node, user, msg, broken, redis, gateway.published[|published|..], gateway.persisted[|persisted|..]);
  }

  // The packets that are new are exactly one for each message published to a room and each node
  // subscribed to it.
  ghost predicate RoomPacketsMatch(c: State, c': State, published: seq<(string, WSMessage)>) {
    forall p :: c'.inFlight[p] == c.inFlight[p]
                                  + if p.ToRoom? && p.node in c.nodes && p.room in c.nodes[p.node].rooms.roomSubs
                                    then multiset(published)[(p.room, p.msg)] else 0
  }

  // A broadcast puts one packet in flight for each published room message and subscribed node.
  method BroadcastOnNode(gateway: RedisConnectionManager, room: string, msg: WSMessage, publishFails: bool,
                         ghost c: State)
    returns (ok: bool)
    modifies gateway`broadcast
    ensures ok == !publishFails && old(gateway.broadcast) <= gateway.broadcast
    ensures var c' := if ok then Apply(c, Broadcast(room, msg)) else c;
            RoomPacketsMatch(c, c', gateway.broadcast[|old(gateway.broadcast)|..])
  {
    ghost var before := gateway.broadcast;
    ok := gateway.BroadcastToRoom(room, msg, publishFails);
    if ok {
      assert gateway.broadcast[|before|..] == [(room, msg)];
      OneBroadcast(c, room, msg);
    } else {
      assert gateway.broadcast[|before|..] == [];
    }
  }

  lemma OneBroadcast(c: State, room: string, msg: WSMessage)
    ensures RoomPacketsMatch(c, Apply(c, Broadcast(room, msg)), [(room, msg)])
  {
    var c' := Apply(c, Broadcast(room, msg));
    forall p
      ensures c'.inFlight[p] == c.inFlight[p]
                                + if p.ToRoom? && p.node in c.nodes && p.room in c.nodes[p.node].rooms.roomSubs
                                  then multiset([(room, msg)])[(p.room, p.msg)] else 0
    {
      var packets := set k | k in RoomSubscribers(c, room) :: ToRoom(k, room, msg);
      assert p in packets <==> p.ToRoom? && p.room == room && p.msg == msg && p.node in RoomSubscribers(c, room);
      if p.ToRoom? {
        assert multiset([(room, msg)])[(p.room, p.msg)] == if p.room == room && p.msg == msg then 1 else 0;
      }
    }
  }

  // What a node does with a packet that arrives on its subscriptions, when every write works: it is
  // the delivery of that packet.
  method DeliverOnNode(gateway: RedisConnectionManager, p: Packet, ghost c: State)
    requires p in c.inFlight && p.node in c.nodes && c.nodes[p.node] == gateway.View()
    requires Inverse(gateway.localCM.View())
    modifies gateway.localCM
    ensures gateway.View() == old(gateway.View())
    ensures WritesMatch(c, Apply(c, Deliver(p)), p.node, if p.ToUser? then Direct else InRoom(p.room), p.msg,
                        old(gateway.localCM.wire), gateway.localCM.wire)
  {
    ghost var v, before := gateway.localCM.View(), gateway.localCM.wire;
    ghost var to := {};
    match p {
      case ToUser(node, user, msg) =>
        to := SocketsAt(c, node, user);
        var _ := gateway.localCM.SendMessage(user, msg, {});
      case ToRoom(node, room, msg) =>
        to := RoomAt(c, node, room);
        gateway.DeliverToRoomLocally(room, msg, {});
    }
    assert to - {} == to;
    PrunedRegistry(v, gateway.localCM.View(), to, {});
    CopiesMatch(c, Apply(c, Deliver(p)), p.node, if p.ToUser? then Direct else InRoom(p.room), p.msg,
                before, gateway.localCM.wire, to);
  }
}
