// services/ws-gateway/cancel_consumer.go: tearing down the chat and the location relay of a
// cancelled trip, on one gateway node.
module Cancel {
  import opened Failing
  import opened Options
  import opened Registry
  import opened Rooms
  import opened Gateway
  import opened ChatKeys

  datatype Cancelled = Cancelled(tripID: string, riderID: string, driverID: string, driverAccepted: bool)

  // The room of a trip and the room of its chat.
  ghost predicate OfTrip(room: string, tripID: string) {
    room == "trip:" + tripID || room == "trip:" + tripID + ":chat"
  }

  // The driver named in the event, or else the rider's active driver when Redis answers.
  ghost function ResolvedDriver(m: Typed, p: Cancelled, redisFails: bool): string {
    if p.driverID != "" then p.driverID
    else if redisFails then "" else Get(m, ActiveDriver(p.riderID))
  }

  // How the clearing of the keys may go wrong: on reading the pair, or on deleting.
  datatype Clearing = Clearing(readFails: bool, fault: Fault)

  const CLEARS := Clearing(false, Works)

  // Whether the consumer tears the trip down, and the keys it leaves.
  ghost predicate TearsDown(m: Typed, p: Cancelled, readFails: bool) {
    p.tripID != "" && p.riderID != "" && (p.driverAccepted || ResolvedDriver(m, p, readFails) != "")
  }

  ghost function KeysAfter(m: Typed, p: Cancelled, readFails: bool, clear: Clearing): Typed {
    if TearsDown(m, p, readFails) && !clear.readFails && clear.fault != FailsBefore then Cleared(m, p.tripID) else m
  }

  // When the consumer tears down, and whom it takes for the driver: the event's driver goes before the
  // pointer; a trip that was never accepted and has no driver anywhere keeps its keys.
  lemma TeardownDecision(m: Typed, p: Cancelled, readFails: bool, clear: Clearing)
    requires p.tripID != "" && p.riderID != ""
    ensures p.driverID != "" ==> ResolvedDriver(m, p, readFails) == p.driverID && TearsDown(m, p, readFails)
    ensures p.driverID == "" && !readFails && ActiveDriver(p.riderID) in m && m[ActiveDriver(p.riderID)] != "" ==>
              ResolvedDriver(m, p, readFails) == m[ActiveDriver(p.riderID)] && TearsDown(m, p, readFails)
    ensures p.driverID == "" && (readFails || ActiveDriver(p.riderID) !in m) ==>
              ResolvedDriver(m, p, readFails) == "" && (TearsDown(m, p, readFails) <==> p.driverAccepted)
    ensures !TearsDown(m, p, readFails) ==> KeysAfter(m, p, readFails, clear) == m
    ensures TearsDown(m, p, readFails) ==> ChatRider(p.tripID) !in KeysAfter(m, p, readFails, CLEARS)
  {
  }

  // The sockets left both rooms of the trip, and nobody else left any room.
  ghost predicate Evicted(r: RoomIndex, r': RoomIndex, sockets: set<string>, tripID: string) {
    forall s, m :: In(r', s, m) <==> In(r, s, m) && !(s in sockets && OfTrip(m, tripID))
  }

  lemma EvictedBoth(r: RoomIndex, r1: RoomIndex, r2: RoomIndex, x: set<string>, y: set<string>, tripID: string)
    requires Evicted(r, r1, x, tripID) && Evicted(r1, r2, y, tripID)
    ensures Evicted(r, r2, x + y, tripID)
  {
    forall s, m
      ensures In(r2, s, m) <==> In(r, s, m) && !(s in x + y && OfTrip(m, tripID))
    {
      assert In(r1, s, m) <==> In(r, s, m) && !(s in x && OfTrip(m, tripID));
    }
  }

  function Notice(tripID: string): WSMessage {
    WSMessage("trip.event.cancelled", "trip:" + tripID, tripID)
  }

  // The rider's working sockets received the notice, then the driver's if there is one; nobody else
  // received anything.
  ghost predicate Told(v: Indexes, before: seq<Frame>, after: seq<Frame>, p: Cancelled, driverID: string,
                       broken: set<string>)
  {
    var notice := WSMessage("trip.event.cancelled", "trip:" + p.tripID, p.tripID);
    forall s ::
      Received(after, s) == Received(before, s)
                            + (if s in Sockets(v, p.riderID) - broken then [notice] else [])
                            + (if driverID != "" && s in Sockets(v, driverID) - broken then [notice] else [])
  }

  // The rider's route, and then the driver's over the sockets that the first did not drop.
  ghost predicate Routed(v: Indexes, p: Cancelled, driverID: string, broken: set<string>, redis: string -> Redis,
                         toRider: Route, toDriver: Option<Route>)
  {
    && toRider == RouteOf(Sockets(v, p.riderID), broken, redis(p.riderID))
    && toDriver == if driverID == "" then None
                   else Some(RouteOf(Sockets(v, driverID) - Sockets(v, p.riderID) * broken, broken, redis(driverID)))
  }

  // A log and then one more entry for the user, if there is something to log.
  function Logged(log: seq<(string, WSMessage)>, happens: bool, userID: string, tripID: string)
    : seq<(string, WSMessage)>
  {
    if happens then log + [(userID, WSMessage("trip.event.cancelled", "trip:" + tripID, tripID))] else log
  }

  // What was handed to Redis before, and then what the two routes hand to it.
  function WithPublished(base: seq<(string, WSMessage)>, p: Cancelled, driverID: string, redis: string -> Redis,
                         toRider: Route, toDriver: Option<Route>): seq<(string, WSMessage)>
  {
    var one := Logged(base, !toRider.Local? && redis(p.riderID).receivedBy.Some?, p.riderID, p.tripID);
    Logged(one, toDriver.Some? && !toDriver.value.Local? && redis(driverID).receivedBy.Some?, driverID, p.tripID)
  }

  function WithPersisted(base: seq<(string, WSMessage)>, p: Cancelled, driverID: string,
                         toRider: Route, toDriver: Option<Route>): seq<(string, WSMessage)>
  {
    var one := Logged(base, toRider.Persisted?, p.riderID, p.tripID);
    Logged(one, toDriver.Some? && toDriver.value.Persisted?, driverID, p.tripID)
  }

  // Exactly the sockets `gone` were dropped from the registry.
  ghost predicate Dropped(v: Indexes, w: Indexes, gone: set<string>) {
    && Inverse(w) && w.bySocket == v.bySocket - gone
    && forall u :: Sockets(w, u) == Sockets(v, u) - gone
  }

  lemma OthersKeepTheirs(v: Indexes, w: Indexes, gone: set<string>)
    requires Inverse(v) && Inverse(w) && w.bySocket == v.bySocket - gone
    ensures Dropped(v, w, gone)
  {
    forall u, s ensures s in Sockets(w, u) <==> s in Sockets(v, u) - gone {
      if s in Sockets(v, u) - gone {
        assert s in Sockets(w, w.bySocket[s]);
      }
      if s in Sockets(w, u) {
        assert s in Sockets(v, v.bySocket[s]);
      }
    }
  }

  lemma RiderTold(v: Indexes, w: Indexes, before: seq<Frame>, between: seq<Frame>, p: Cancelled, broken: set<string>)
    requires Dropped(v, w, Sockets(v, p.riderID) * broken)
    requires Reached(before, between, Sockets(v, p.riderID) - broken, Notice(p.tripID))
    ensures Dropped(v, w, (Sockets(v, p.riderID) + {}) * broken)
    ensures Told(v, before, between, p, "", broken)
  {
    assert Sockets(v, p.riderID) + {} == Sockets(v, p.riderID);
  }

  // The rider's notice and then the driver's.
  lemma BothTold(v: Indexes, w: Indexes, x: Indexes, before: seq<Frame>, between: seq<Frame>, after: seq<Frame>,
                 p: Cancelled, driverID: string, broken: set<string>)
    requires Dropped(v, w, Sockets(v, p.riderID) * broken) && Dropped(w, x, Sockets(w, driverID) * broken)
    requires Reached(before, between, Sockets(v, p.riderID) - broken, Notice(p.tripID))
    requires Reached(between, after, Sockets(w, driverID) - broken, Notice(p.tripID))
    requires driverID != ""
    ensures Dropped(v, x, (Sockets(v, p.riderID) + Sockets(v, driverID)) * broken)
    ensures Told(v, before, after, p, driverID, broken)
  {
    var first, second := Sockets(v, p.riderID) * broken, Sockets(w, driverID) * broken;
    assert Sockets(w, driverID) == Sockets(v, driverID) - first;
    assert Sockets(w, driverID) - broken == Sockets(v, driverID) - broken;
    assert first + second == (Sockets(v, p.riderID) + Sockets(v, driverID)) * broken;
    forall u ensures Sockets(x, u) == Sockets(v, u) - (first + second) {
      assert Sockets(w, u) == Sockets(v, u) - first;
    }
  }

  class CancelConsumer {
    const store: PairStore
    const gateway: RedisConnectionManager

    constructor (store: PairStore, gateway: RedisConnectionManager)
      ensures this.store == store && this.gateway == gateway
    {
      this.store := store;
      this.gateway := gateway;
    }

    method LeaveTrip(userID: string, tripID: string)
      requires Rooms.Consistent(gateway.RoomView()) && userID != ""
      modifies gateway`roomSubs, gateway`socketRooms, gateway`roomSockets
      ensures Rooms.Consistent(gateway.RoomView())
      ensures Evicted(old(gateway.RoomView()), gateway.RoomView(), Sockets(gateway.localCM.View(), userID), tripID)
    {
      ghost var sockets := Sockets(gateway.localCM.View(), userID);
      var tripRoomID := "trip:" + tripID;
      var chatRoomID := tripRoomID + ":chat";
      LeftByAllConsistent(gateway.RoomView(), sockets, tripRoomID);
      gateway.LeaveUserFromRoom(userID, tripRoomID);
      LeftByAllConsistent(gateway.RoomView(), sockets, chatRoomID);
      gateway.LeaveUserFromRoom(userID, chatRoomID);
    }

    // The sockets that must leave the trip's rooms.
    ghost function Participants(riderID: string, driverID: string): set<string>
      reads gateway, gateway.localCM
    {
      var v := gateway.localCM.View();
      Sockets(v, riderID) + if driverID != "" then Sockets(v, driverID) else {}
    }

    method TearDown(p: Cancelled, driverID: string, clear: Clearing)
      requires p.tripID != "" && p.riderID != "" && Rooms.Consistent(gateway.RoomView())
      modifies store, gateway`roomSubs, gateway`socketRooms, gateway`roomSockets
      ensures View(store.rdb) == if clear.readFails || clear.fault == FailsBefore then View(old(store.rdb))
                                 else Cleared(View(old(store.rdb)), p.tripID)
      ensures Rooms.Consistent(gateway.RoomView())
      ensures Evicted(old(gateway.RoomView()), gateway.RoomView(), Participants(p.riderID, driverID), p.tripID)
    {
      var _ := store.ClearTripChatPair(p.tripID, clear.readFails, clear.fault);
      ghost var before := gateway.RoomView();
      LeaveTrip(p.riderID, p.tripID);
      if driverID != "" {
        ghost var between := gateway.RoomView();
        LeaveTrip(driverID, p.tripID);
        EvictedBoth(before, between, gateway.RoomView(), Sockets(gateway.localCM.View(), p.riderID),
                    Sockets(gateway.localCM.View(), driverID), p.tripID);
      }
    }

    method Notify(userID: string, tripID: string, broken: set<string>, redis: Redis) returns (route: Route)
      requires Inverse(gateway.localCM.View())
      modifies gateway`published, gateway`persisted, gateway.localCM
      ensures var v := old(gateway.localCM.View());
              var to := Sockets(v, userID);
              && Dropped(v, gateway.localCM.View(), to * broken)
              && Reached(old(gateway.localCM.wire), gateway.localCM.wire, to - broken, Notice(tripID))
              && route == RouteOf(to, broken, redis)
      ensures gateway.published
           == Logged(old(gateway.published), !route.Local? && redis.receivedBy.Some?, userID, tripID)
      ensures gateway.persisted == Logged(old(gateway.persisted), route.Persisted?, userID, tripID)
    {
      route := gateway.SendMessage(userID, Notice(tripID), broken, redis);
      OthersKeepTheirs(old(gateway.localCM.View()), gateway.localCM.View(),
                       Sockets(old(gateway.localCM.View()), userID) * broken);
    }

    method NotifyBoth(p: Cancelled, driverID: string, broken: set<string>, redis: string -> Redis)
      returns (toRider: Route, toDriver: Option<Route>)
      requires Inverse(gateway.localCM.View())
      modifies gateway`published, gateway`persisted, gateway.localCM
      ensures Dropped(old(gateway.localCM.View()), gateway.localCM.View(),
                      old(Participants(p.riderID, driverID)) * broken)
      ensures Told(old(gateway.localCM.View()), old(gateway.localCM.wire), gateway.localCM.wire, p, driverID, broken)
      ensures Routed(old(gateway.localCM.View()), p, driverID, broken, redis, toRider, toDriver)
      ensures gateway.published == WithPublished(old(gateway.published), p, driverID, redis, toRider, toDriver)
      ensures gateway.persisted == WithPersisted(old(gateway.persisted), p, driverID, toRider, toDriver)
    {
      ghost var v, before := gateway.localCM.View(), gateway.localCM.wire;
      toRider := Notify(p.riderID, p.tripID, broken, redis(p.riderID));
      toDriver := None;
      ghost var w, between := gateway.localCM.View(), gateway.localCM.wire;
      if driverID == "" {
        RiderTold(v, w, before, between, p, broken);
        return;
      }
      var d := Notify(driverID, p.tripID, broken, redis(driverID));
      toDriver := Some(d);
      BothTold(v, w, gateway.localCM.View(), before, between, gateway.localCM.wire, p, driverID, broken);
    }

    method ResolveDriver(p: Cancelled, readFails: bool) returns (driverID: string)
      requires p.riderID != ""
      ensures driverID == ResolvedDriver(View(store.rdb), p, readFails)
    {
      driverID := p.driverID;
      if driverID == "" {
        var resolved := store.GetActiveDriver(p.riderID, readFails);
        if resolved.Some? {
          driverID := resolved.value;
        }
      }
    }

    // `readFails` and `clear`: Redis errors on looking up the driver and on clearing the keys; all are
    // only logged. None means that the event was skipped.
    method HandleCancelled(p: Cancelled, readFails: bool, clear: Clearing, broken: set<string>, redis: string -> Redis)
      returns (routes: Option<(Route, Option<Route>)>)
      requires Inverse(gateway.localCM.View()) && Rooms.Consistent(gateway.RoomView())
      modifies store, gateway.localCM, gateway`published, gateway`persisted
      modifies gateway`roomSubs, gateway`socketRooms, gateway`roomSockets
      ensures routes.None? <==> p.tripID == "" || p.riderID == ""
      ensures View(store.rdb) == KeysAfter(View(old(store.rdb)), p, readFails, clear)
      ensures Inverse(gateway.localCM.View()) && Rooms.Consistent(gateway.RoomView())
      ensures var driver := ResolvedDriver(View(old(store.rdb)), p, readFails);
              var v, before, after := old(gateway.localCM.View()), old(gateway.RoomView()), gateway.RoomView();
              if TearsDown(View(old(store.rdb)), p, readFails)
              then forall s, m ::
                     In(after, s, m) <==>
                     In(before, s, m)
                     && !((m == "trip:" + p.tripID || m == "trip:" + p.tripID + ":chat")
                          && (s in Sockets(v, p.riderID) || (driver != "" && s in Sockets(v, driver))))
              else after == before
      ensures routes.None? ==>
                && gateway.localCM.View() == old(gateway.localCM.View())
                && gateway.localCM.wire == old(gateway.localCM.wire)
                && gateway.published == old(gateway.published) && gateway.persisted == old(gateway.persisted)
      ensures routes.Some? ==>
                var driver := ResolvedDriver(View(old(store.rdb)), p, readFails);
                var v := old(gateway.localCM.View());
                && Dropped(v, gateway.localCM.View(), old(Participants(p.riderID, driver)) * broken)
                && (forall s ::
                      var notice := WSMessage("trip.event.cancelled", "trip:" + p.tripID, p.tripID);
                      Received(gateway.localCM.wire, s)
                      == Received(old(gateway.localCM.wire), s)
                         + (if s in Sockets(v, p.riderID) - broken then [notice] else [])
                         + (if driver != "" && s in Sockets(v, driver) - broken then [notice] else []))
                && Routed(v, p, driver, broken, redis, routes.value.0, routes.value.1)
                && gateway.published
                   == WithPublished(old(gateway.published), p, driver, redis, routes.value.0, routes.value.1)
                && gateway.persisted
                   == WithPersisted(old(gateway.persisted), p, driver, routes.value.0, routes.value.1)
    {
      if p.tripID == "" || p.riderID == "" {
        return None;
      }
      var driverID := ResolveDriver(p, readFails);
      if p.driverAccepted || driverID != "" {
        TearDown(p, driverID, clear);
      }
      var toRider, toDriver := NotifyBoth(p, driverID, broken, redis);
      routes := Some((toRider, toDriver));
    }
  }

  // Once the consumer has run without an error on the keys of a confirmed trip, the keys are those
  // of the remaining trips, and the driver's location finds no rider until the driver service pairs
  // him again, whatever else happens to the keys meanwhile. The event may name the driver or leave
  // it to the rider's pointer.
  lemma ConfirmedTripIsTornDown(m: Typed, l: Ledger, p: Cancelled, steps: seq<ChatKeys.Step>)
    requires Mirrors(m, l) && p.tripID in l.served
    requires l.bound[p.tripID].rider == p.riderID && p.driverID in {"", l.bound[p.tripID].driver}
    requires forall st :: st in steps ==> !(st.SetByService? && st.driver == l.bound[p.tripID].driver)
    ensures var m' := KeysAfter(m, p, false, CLEARS);
            && ResolvedDriver(m, p, false) == l.bound[p.tripID].driver
            && Mirrors(m', Next(l, Clear(p.tripID)))
            && ActiveRider(l.bound[p.tripID].driver) !in ChatKeys.Exec(m', steps)
  {
    var driver := l.bound[p.tripID].driver;
    assert ServedBy(l, driver, p.riderID);
    assert Get(m, ActiveDriver(p.riderID)) == driver;
    ClearMirrors(m, l, p.tripID);
    RelayEndsWithCancel(m, p.tripID, driver, steps);
  }

  // In any state: once a trip whose chat keys name a driver is cleared, his location finds no rider
  // until the driver service pairs him again.
  lemma RelayEndsWithCancel(m: Typed, tripID: string, driver: string, steps: seq<ChatKeys.Step>)
    requires tripID != "" && driver != "" && Get(m, ChatDriver(tripID)) == driver
    requires forall st :: st in steps ==> !(st.SetByService? && st.driver == driver)
    ensures ActiveRider(driver) !in ChatKeys.Exec(Cleared(m, tripID), steps)
  {
    ClearEndsRelayIff(m, tripID, driver);
    NoRiderUntilSet(Cleared(m, tripID), driver, steps);
  }
}
