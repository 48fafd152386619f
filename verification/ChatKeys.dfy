// shared/messaging/rcm.go and services/driver-service/service.go: the Redis keys that pair a rider
// and a driver, used for chat authorisation and for relaying the driver's location.
module ChatKeys {
  import opened Failing
  import opened Options

  // The four families of keys, before they become strings.
  datatype Key =
    | ChatRider(trip: string)
    | ChatDriver(trip: string)
    | ActiveRider(driver: string)
    | ActiveDriver(rider: string)

  function Encode(k: Key): string {
    match k
    case ChatRider(trip) => "trip:" + trip + ":chat:rider"
    case ChatDriver(trip) => "trip:" + trip + ":chat:driver"
    case ActiveRider(driver) => "driver:" + driver + ":active_rider"
    case ActiveDriver(rider) => "rider:" + rider + ":active_driver"
  }

  lemma Between(prefix: string, x: string, y: string, suffix: string)
    requires prefix + x + suffix == prefix + y + suffix
    ensures x == y
  {
    var k := prefix + x + suffix;
    assert k[|prefix|..|k| - |suffix|] == x;
    assert k[|prefix|..|k| - |suffix|] == y;
  }

  lemma Family(k: Key)
    ensures var s := Encode(k);
            && |s| >= 4
            && s[0] == (if k.ChatRider? || k.ChatDriver? then 't' else if k.ActiveRider? then 'd' else 'r')
            && (k.ChatRider? ==> s[|s| - 3] == 'd')
            && (k.ChatDriver? ==> s[|s| - 3] == 'v')
  {
    var s := Encode(k);
    if k.ChatRider? {
      assert s[|s| - 3] == ":chat:rider"[8];
    } else if k.ChatDriver? {
      assert s[|s| - 3] == ":chat:driver"[9];
    }
  }

  // No two keys become the same string, whatever the ids are: not within a family, and not across.
  lemma EncodeInjective(a: Key, b: Key)
    requires Encode(a) == Encode(b)
    ensures a == b
  {
    Family(a);
    Family(b);
    if a.ChatRider? {
      Between("trip:", a.trip, b.trip, ":chat:rider");
    } else if a.ChatDriver? {
      Between("trip:", a.trip, b.trip, ":chat:driver");
    } else if a.ActiveRider? {
      Between("driver:", a.driver, b.driver, ":active_rider");
    } else {
      Between("rider:", a.rider, b.rider, ":active_driver");
    }
  }

  // ---- The string store as four typed maps ----

  type Typed = imap<Key, string>

  ghost function View(rdb: map<string, string>): Typed {
    imap k: Key | Encode(k) in rdb :: rdb[Encode(k)]
  }

  ghost function Put(m: Typed, k: Key, v: string): Typed {
    m[k := v]
  }

  ghost function Del(m: Typed, k: Key): Typed {
    imap x | x in m && x != k :: m[x]
  }

  lemma PutRefines(rdb: map<string, string>, k: Key, v: string)
    ensures View(rdb[Encode(k) := v]) == Put(View(rdb), k, v)
  {
    forall x: Key ensures x in View(rdb[Encode(k) := v]) <==> x in Put(View(rdb), k, v) {
      if Encode(x) == Encode(k) { EncodeInjective(x, k); }
    }
    forall x: Key | x in Put(View(rdb), k, v) ensures View(rdb[Encode(k) := v])[x] == Put(View(rdb), k, v)[x] {
      if Encode(x) == Encode(k) { EncodeInjective(x, k); }
    }
  }

  lemma DelRefines(rdb: map<string, string>, k: Key)
    ensures View(rdb - {Encode(k)}) == Del(View(rdb), k)
  {
    forall x: Key ensures x in View(rdb - {Encode(k)}) <==> x in Del(View(rdb), k) {
      if Encode(x) == Encode(k) { EncodeInjective(x, k); }
    }
  }

  // ---- Operations on the typed maps ----

  ghost function Get(m: Typed, k: Key): string {
    if k in m then m[k] else ""
  }

  // Chat authorisation, as the gateway stores it when a driver sends an accept.
  ghost function GatewaySet(m: Typed, trip: string, rider: string, driver: string): Typed {
    if trip == "" || rider == "" || driver == "" then m
    else Put(Put(m, ChatRider(trip), rider), ChatDriver(trip), driver)
  }

  // The confirmed pair with its pointers, as the driver service stores it.
  ghost function ServiceSet(m: Typed, trip: string, rider: string, driver: string): Typed {
    var pointed := Put(Put(m, ActiveRider(driver), rider), ActiveDriver(rider), driver);
    if trip == "" then pointed else Put(Put(pointed, ChatRider(trip), rider), ChatDriver(trip), driver)
  }

  ghost function Cleared(m: Typed, trip: string): Typed {
    if trip == "" then m
    else
      var rider, driver := Get(m, ChatRider(trip)), Get(m, ChatDriver(trip));
      var unpaired := Del(Del(m, ChatRider(trip)), ChatDriver(trip));
      var one := if rider != "" then Del(unpaired, ActiveDriver(rider)) else unpaired;
      if driver != "" then Del(one, ActiveRider(driver)) else one
  }

  datatype Peer = Peer(user: string) | Missing | StoreFailed | PairNotFound | Unauthorized

  ghost function Resolve(m: Typed, trip: string, sender: string): Peer {
    var rider, driver := Get(m, ChatRider(trip)), Get(m, ChatDriver(trip));
    if trip == "" || sender == "" then Missing
    else if rider == "" || driver == "" then PairNotFound
    else if sender == rider then Peer(driver)
    else if sender == driver then Peer(rider)
    else Unauthorized
  }

  // ---- The store ----

  class PairStore {
    var rdb: map<string, string>

    constructor ()
      ensures rdb == map[]
    {
      rdb := map[];
    }

    method Set(k: Key, v: string)
      modifies this
      ensures View(rdb) == Put(View(old(rdb)), k, v)
    {
      PutRefines(rdb, k, v);
      rdb := rdb[Encode(k) := v];
    }

    method Delete(k: Key)
      modifies this
      ensures View(rdb) == Del(View(old(rdb)), k)
    {
      DelRefines(rdb, k);
      rdb := rdb - {Encode(k)};
    }

    function Read(k: Key): (v: string)
      reads this
      ensures v == Get(View(rdb), k)
    {
      if Encode(k) in rdb then rdb[Encode(k)] else ""
    }

    // A transaction that fails before taking effect changes nothing; one that fails after it changed
    // everything.
    method SetTripChatPair(tripID: string, riderID: string, driverID: string, fault: Fault) returns (ok: bool)
      modifies this
      ensures ok <==> tripID != "" && riderID != "" && driverID != "" && fault == Works
      ensures View(rdb) == if fault == FailsBefore then View(old(rdb))
                           else GatewaySet(View(old(rdb)), tripID, riderID, driverID)
    {
      if tripID == "" || riderID == "" || driverID == "" {
        return false;
      }
      if fault != FailsBefore {
        Set(ChatRider(tripID), riderID);
        Set(ChatDriver(tripID), driverID);
      }
      ok := fault == Works;
    }

    method ServiceSetTripChatPair(tripID: string, riderID: string, driverID: string, fault: Fault) returns (ok: bool)
      modifies this
      ensures ok <==> fault == Works
      ensures View(rdb) == if fault == FailsBefore then View(old(rdb))
                           else ServiceSet(View(old(rdb)), tripID, riderID, driverID)
    {
      if fault != FailsBefore {
        Set(ActiveRider(driverID), riderID);
        Set(ActiveDriver(riderID), driverID);
        if tripID != "" {
          Set(ChatRider(tripID), riderID);
          Set(ChatDriver(tripID), driverID);
        }
      }
      ok := fault == Works;
    }

    method ResolveTripChatPeer(tripID: string, senderID: string, readFails: bool) returns (peer: Peer)
      ensures peer == if readFails && tripID != "" && senderID != "" then StoreFailed
                      else Resolve(View(rdb), tripID, senderID)
    {
      if tripID == "" || senderID == "" {
        return Missing;
      }
      if readFails {
        return StoreFailed;
      }
      var riderID, driverID := Read(ChatRider(tripID)), Read(ChatDriver(tripID));
      if riderID == "" || driverID == "" {
        return PairNotFound;
      }
      if senderID == riderID {
        peer := Peer(driverID);
      } else if senderID == driverID {
        peer := Peer(riderID);
      } else {
        peer := Unauthorized;
      }
    }

    method ClearTripChatPair(tripID: string, readFails: bool, fault: Fault) returns (ok: bool)
      modifies this
      ensures ok <==> tripID != "" && !readFails && fault == Works
      ensures View(rdb) == if readFails || fault == FailsBefore then View(old(rdb)) else Cleared(View(old(rdb)), tripID)
    {
      if tripID == "" || readFails {
        return false;
      }
      var riderID, driverID := Read(ChatRider(tripID)), Read(ChatDriver(tripID));
      if fault != FailsBefore {
        Delete(ChatRider(tripID));
        Delete(ChatDriver(tripID));
        if riderID != "" {
          Delete(ActiveDriver(riderID));
        }
        if driverID != "" {
          Delete(ActiveRider(driverID));
        }
      }
      ok := fault == Works;
    }

    // None for an error, "" for no mapping.
    method GetActiveDriver(riderID: string, fails: bool) returns (driverID: Option<string>)
      ensures driverID == if riderID == "" || fails then None else Some(Get(View(rdb), ActiveDriver(riderID)))
    {
      driverID := if riderID == "" || fails then None else Some(Read(ActiveDriver(riderID)));
    }

    // The rider a driver's location is relayed to, if any; the relay treats an error like no rider.
    method GetActiveRider(driverID: string, fails: bool) returns (riderID: Option<string>)
      ensures riderID.Some? <==> !fails && ActiveRider(driverID) in View(rdb)
      ensures riderID.Some? ==> riderID.value == View(rdb)[ActiveRider(driverID)]
    {
      var k := Encode(ActiveRider(driverID));
      riderID := if !fails && k in rdb then Some(rdb[k]) else None;
    }
  }

  // ---- Chat authorisation ----

  // Resolving twice leads back to the sender.
  lemma ResolveIsInvolution(m: Typed, trip: string, sender: string)
    requires Resolve(m, trip, sender).Peer?
    ensures Resolve(m, trip, Resolve(m, trip, sender).user) == Peer(sender)
  {
  }

  datatype Step =
    | SetByGateway(trip: string, rider: string, driver: string)
    | SetByService(trip: string, rider: string, driver: string)
    | Clear(trip: string)
    | Expire(key: Key)

  ghost function Apply(m: Typed, step: Step): Typed {
    match step
    case SetByGateway(trip, rider, driver) => GatewaySet(m, trip, rider, driver)
    case SetByService(trip, rider, driver) => ServiceSet(m, trip, rider, driver)
    case Clear(trip) => Cleared(m, trip)
    case Expire(key) => Del(m, key)
  }

  ghost function Exec(m: Typed, steps: seq<Step>): Typed
    decreases |steps|
  {
    if steps == [] then m else Exec(Apply(m, steps[0]), steps[1..])
  }

  predicate Pairs(step: Step, trip: string) {
    (step.SetByGateway? || step.SetByService?) && step.trip == trip
  }

  // Once cleared, a trip's chat stays closed to everybody until the pair is set again, whatever
  // else is set, cleared or expires meanwhile.
  lemma {:induction false} ClearedUntilSet(m: Typed, trip: string, sender: string, steps: seq<Step>)
    requires trip != "" && sender != ""
    requires ChatRider(trip) !in m || ChatDriver(trip) !in m
    requires forall st :: st in steps ==> !Pairs(st, trip)
    ensures Resolve(Exec(m, steps), trip, sender) == PairNotFound
    decreases |steps|
  {
    if steps != [] {
      assert steps[0] in steps;
      ClearedUntilSet(Apply(m, steps[0]), trip, sender, steps[1..]);
    }
  }

  lemma ClearCloses(m: Typed, trip: string, sender: string, steps: seq<Step>)
    requires trip != "" && sender != "" && forall st :: st in steps ==> !Pairs(st, trip)
    ensures Resolve(Exec(m, [Clear(trip)] + steps), trip, sender) == PairNotFound
  {
    assert ([Clear(trip)] + steps)[1..] == steps;
    ClearedUntilSet(Cleared(m, trip), trip, sender, steps);
  }

  // Setting or clearing one trip does not touch the chat of another.
  lemma OtherTripsUntouched(m: Typed, step: Step, trip: string, sender: string)
    requires !step.Expire? && step.trip != trip
    ensures Resolve(Apply(m, step), trip, sender) == Resolve(m, trip, sender)
  {
  }

  // ---- The pointers ----

  datatype Pair = Pair(rider: string, driver: string)

  // `bound` is the pair of every trip set and not yet cleared; `served` those among them that the
  // driver service has confirmed.
  datatype Ledger = Ledger(bound: map<string, Pair>, served: set<string>)

  // Every rider and every driver takes part in at most one trip at a time, and a trip does not
  // change hands.
  predicate Fits(l: Ledger, trip: string, p: Pair) {
    && trip != "" && p.rider != "" && p.driver != ""
    && (trip in l.bound ==> l.bound[trip] == p)
    && forall t :: t in l.bound && t != trip ==> l.bound[t].rider != p.rider && l.bound[t].driver != p.driver
  }

  predicate Orderly(l: Ledger, step: Step) {
    match step
    case SetByGateway(trip, rider, driver) => Fits(l, trip, Pair(rider, driver))
    case SetByService(trip, rider, driver) => Fits(l, trip, Pair(rider, driver))
    case Clear(trip) => true
    case Expire(_) => false
  }

  function Next(l: Ledger, step: Step): Ledger {
    match step
    case SetByGateway(trip, rider, driver) => l.(bound := l.bound[trip := Pair(rider, driver)])
    case SetByService(trip, rider, driver) => Ledger(l.bound[trip := Pair(rider, driver)], l.served + {trip})
    case Clear(trip) => Ledger(l.bound - {trip}, l.served - {trip})
    case Expire(_) => l
  }

  ghost predicate Separate(l: Ledger) {
    && "" !in l.bound
    && l.served <= l.bound.Keys
    && (forall t :: t in l.bound ==> l.bound[t].rider != "" && l.bound[t].driver != "")
    && (forall t, u :: t in l.bound && u in l.bound && t != u ==>
          l.bound[t].rider != l.bound[u].rider && l.bound[t].driver != l.bound[u].driver)
  }

  ghost predicate ChatMirrors(m: Typed, l: Ledger) {
    forall t ::
      && (ChatRider(t) in m <==> t in l.bound)
      && (ChatDriver(t) in m <==> t in l.bound)
      && (t in l.bound ==> m[ChatRider(t)] == l.bound[t].rider && m[ChatDriver(t)] == l.bound[t].driver)
  }

  ghost predicate ServedBy(l: Ledger, driver: string, rider: string) {
    exists t :: t in l.served && t in l.bound && l.bound[t] == Pair(rider, driver)
  }

  ghost predicate PointerMirrors(m: Typed, l: Ledger) {
    && (forall d, r :: ActiveRider(d) in m && m[ActiveRider(d)] == r <==> ServedBy(l, d, r))
    && (forall d, r :: ActiveDriver(r) in m && m[ActiveDriver(r)] == d <==> ServedBy(l, d, r))
  }

  // The store holds exactly the pairs of the bound trips and the pointers of the served ones.
  ghost predicate Mirrors(m: Typed, l: Ledger) {
    Separate(l) && ChatMirrors(m, l) && PointerMirrors(m, l)
  }

  lemma BindMirrors(m: Typed, l: Ledger, trip: string, p: Pair)
    requires Separate(l) && PointerMirrors(m, l) && Fits(l, trip, p)
    ensures var l' := l.(bound := l.bound[trip := p]);
            Separate(l') && forall d, r :: ServedBy(l, d, r) <==> ServedBy(l', d, r)
  {
    var l' := l.(bound := l.bound[trip := p]);
    forall d, r ensures ServedBy(l, d, r) <==> ServedBy(l', d, r) {
      if ServedBy(l, d, r) {
        var t :| t in l.served && t in l.bound && l.bound[t] == Pair(r, d);
        assert l'.bound[t] == Pair(r, d);
      }
      if ServedBy(l', d, r) {
        var t :| t in l'.served && t in l'.bound && l'.bound[t] == Pair(r, d);
        assert t in l.bound && l.bound[t] == Pair(r, d);
      }
    }
  }

  lemma GatewaySetMirrors(m: Typed, l: Ledger, trip: string, p: Pair)
    requires Mirrors(m, l) && Fits(l, trip, p)
    ensures Mirrors(GatewaySet(m, trip, p.rider, p.driver), Next(l, SetByGateway(trip, p.rider, p.driver)))
  {
    BindMirrors(m, l, trip, p);
  }

  // Serving a trip adds its pair and no other.
  lemma ServePair(l: Ledger, trip: string, p: Pair)
    requires Separate(l) && Fits(l, trip, p)
    ensures var l' := Next(l, SetByService(trip, p.rider, p.driver));
            && Separate(l')
            && (forall d, r :: ServedBy(l', d, r) <==> ServedBy(l, d, r) || (d == p.driver && r == p.rider))
            && (forall d, r :: ServedBy(l, d, r) ==> (d == p.driver <==> r == p.rider))
  {
    var l' := Next(l, SetByService(trip, p.rider, p.driver));
    forall d, r ensures ServedBy(l', d, r) <==> ServedBy(l, d, r) || (d == p.driver && r == p.rider) {
      if ServedBy(l, d, r) {
        var t :| t in l.served && t in l.bound && l.bound[t] == Pair(r, d);
        assert l'.bound[t] == Pair(r, d);
      }
      if d == p.driver && r == p.rider {
        assert l'.bound[trip] == Pair(r, d);
      }
    }
  }

  lemma PointersOfService(m: Typed, l: Ledger, trip: string, p: Pair)
    requires Separate(l) && PointerMirrors(m, l) && Fits(l, trip, p)
    ensures PointerMirrors(ServiceSet(m, trip, p.rider, p.driver), Next(l, SetByService(trip, p.rider, p.driver)))
  {
    var m' := ServiceSet(m, trip, p.rider, p.driver);
    ServePair(l, trip, p);
    forall d ensures ActiveRider(d) in m' <==> ActiveRider(d) in m || d == p.driver {
    }
    forall r ensures ActiveDriver(r) in m' <==> ActiveDriver(r) in m || r == p.rider {
    }
  }

  lemma ServiceSetMirrors(m: Typed, l: Ledger, trip: string, p: Pair)
    requires Mirrors(m, l) && Fits(l, trip, p)
    ensures Mirrors(ServiceSet(m, trip, p.rider, p.driver), Next(l, SetByService(trip, p.rider, p.driver)))
  {
    ServePair(l, trip, p);
    PointersOfService(m, l, trip, p);
    assert ChatMirrors(ServiceSet(m, trip, p.rider, p.driver), Next(l, SetByService(trip, p.rider, p.driver)));
  }

  // Clearing a trip takes its pair away and no other.
  lemma ClearPair(l: Ledger, trip: string)
    requires Separate(l) && trip in l.bound
    ensures var l' := Next(l, Clear(trip));
            && Separate(l')
            && forall d, r ::
                 ServedBy(l', d, r) <==> ServedBy(l, d, r) && d != l.bound[trip].driver && r != l.bound[trip].rider
  {
    var l' := Next(l, Clear(trip));
    forall d, r
      ensures ServedBy(l', d, r) <==> ServedBy(l, d, r) && d != l.bound[trip].driver && r != l.bound[trip].rider
    {
      if ServedBy(l, d, r) && d != l.bound[trip].driver {
        var t :| t in l.served && t in l.bound && l.bound[t] == Pair(r, d);
        assert t in l'.served && l'.bound[t] == Pair(r, d);
      }
      if ServedBy(l', d, r) {
        var t :| t in l'.served && t in l'.bound && l'.bound[t] == Pair(r, d);
        assert t in l.served && l.bound[t] == Pair(r, d) && t != trip;
      }
    }
  }

  ghost predicate Without(m: Typed, m': Typed, gone: set<Key>) {
    forall k: Key :: (k in m' <==> k in m && k !in gone) && (k in m' ==> m'[k] == m[k])
  }

  lemma ClearedIsWithout(m: Typed, trip: string, p: Pair)
    requires trip != "" && p.rider != "" && p.driver != ""
    requires Get(m, ChatRider(trip)) == p.rider && Get(m, ChatDriver(trip)) == p.driver
    ensures Without(m, Cleared(m, trip),
                    {ChatRider(trip), ChatDriver(trip), ActiveDriver(p.rider), ActiveRider(p.driver)})
  {
  }

  lemma ChatOfClear(m: Typed, m': Typed, l: Ledger, trip: string)
    requires ChatMirrors(m, l) && trip in l.bound
    requires Without(m, m', {ChatRider(trip), ChatDriver(trip), ActiveDriver(l.bound[trip].rider),
                             ActiveRider(l.bound[trip].driver)})
    ensures ChatMirrors(m', Next(l, Clear(trip)))
  {
  }

  lemma PointersOfClear(m: Typed, m': Typed, l: Ledger, trip: string)
    requires Separate(l) && PointerMirrors(m, l) && trip in l.bound
    requires Without(m, m', {ChatRider(trip), ChatDriver(trip), ActiveDriver(l.bound[trip].rider),
                             ActiveRider(l.bound[trip].driver)})
    ensures PointerMirrors(m', Next(l, Clear(trip)))
  {
    ClearPair(l, trip);
    var l' := Next(l, Clear(trip));
    var p := l.bound[trip];
    forall d, r | ServedBy(l, d, r) ensures d == p.driver <==> r == p.rider {
      var t :| t in l.served && t in l.bound && l.bound[t] == Pair(r, d);
    }
    forall d, r ensures ActiveRider(d) in m' && m'[ActiveRider(d)] == r <==> ServedBy(l', d, r) {
      assert ActiveRider(d) in m && m[ActiveRider(d)] == r <==> ServedBy(l, d, r);
    }
    forall d, r ensures ActiveDriver(r) in m' && m'[ActiveDriver(r)] == d <==> ServedBy(l', d, r) {
      assert ActiveDriver(r) in m && m[ActiveDriver(r)] == d <==> ServedBy(l, d, r);
    }
  }

  lemma ClearMirrors(m: Typed, l: Ledger, trip: string)
    requires Mirrors(m, l)
    ensures Mirrors(Cleared(m, trip), Next(l, Clear(trip)))
  {
    assert ChatRider(trip) in m <==> trip in l.bound;
    if trip in l.bound {
      ClearPair(l, trip);
      ClearedIsWithout(m, trip, l.bound[trip]);
      ChatOfClear(m, Cleared(m, trip), l, trip);
      PointersOfClear(m, Cleared(m, trip), l, trip);
    } else {
      ClearUnbound(m, trip);
      assert Next(l, Clear(trip)) == l;
    }
  }

  lemma ClearUnbound(m: Typed, trip: string)
    requires ChatRider(trip) !in m && ChatDriver(trip) !in m
    ensures Cleared(m, trip) == m
  {
  }

  predicate OrderlyRun(l: Ledger, steps: seq<Step>)
    decreases |steps|
  {
    steps == [] || (Orderly(l, steps[0]) && OrderlyRun(Next(l, steps[0]), steps[1..]))
  }

  function Ledgers(l: Ledger, steps: seq<Step>): Ledger
    decreases |steps|
  {
    if steps == [] then l else Ledgers(Next(l, steps[0]), steps[1..])
  }

  // If every rider and driver has at most one trip at a time and nothing expires, then after every
  // set and clear the pointers are exactly those of the confirmed, uncleared trips.
  lemma {:induction false} PointersAgree(m: Typed, l: Ledger, steps: seq<Step>)
    requires Mirrors(m, l) && OrderlyRun(l, steps)
    ensures Mirrors(Exec(m, steps), Ledgers(l, steps))
    decreases |steps|
  {
    if steps != [] {
      match steps[0] {
        case SetByGateway(trip, rider, driver) => GatewaySetMirrors(m, l, trip, Pair(rider, driver));
        case SetByService(trip, rider, driver) => ServiceSetMirrors(m, l, trip, Pair(rider, driver));
        case Clear(trip) => ClearMirrors(m, l, trip);
      }
      PointersAgree(Apply(m, steps[0]), Next(l, steps[0]), steps[1..]);
    }
  }

  // From an empty store: a driver's location is relayed to a rider exactly while a confirmed and
  // uncleared trip pairs them.
  lemma RelayFollowsTrips(steps: seq<Step>, driver: string, rider: string)
    requires OrderlyRun(Ledger(map[], {}), steps)
    ensures var m := Exec(imap[], steps);
            (ActiveRider(driver) in m && m[ActiveRider(driver)] == rider) <==>
            ServedBy(Ledgers(Ledger(map[], {}), steps), driver, rider)
  {
    var none: Typed := imap[];
    assert Mirrors(none, Ledger(map[], {}));
    PointersAgree(none, Ledger(map[], {}), steps);
  }

  // After the clear of a trip its driver has no rider, until the driver service sets a pair with
  // that driver again.
  lemma {:induction false} NoRiderUntilSet(m: Typed, driver: string, steps: seq<Step>)
    requires ActiveRider(driver) !in m
    requires forall st :: st in steps ==> !(st.SetByService? && st.driver == driver)
    ensures ActiveRider(driver) !in Exec(m, steps)
    decreases |steps|
  {
    if steps != [] {
      assert steps[0] in steps;
      NoRiderUntilSet(Apply(m, steps[0]), driver, steps[1..]);
    }
  }

  // In any state: clearing a trip ends the relay of this driver exactly when the trip's chat keys
  // name him (or no relay was active), and keeps it otherwise.
  lemma ClearEndsRelayIff(m: Typed, trip: string, driver: string)
    requires driver != ""
    ensures ActiveRider(driver) !in Cleared(m, trip) <==>
            ActiveRider(driver) !in m || (trip != "" && Get(m, ChatDriver(trip)) == driver)
  {
  }

  // When another driver's accept overwrites the chat keys of a served trip, clearing the trip
  // leaves the first driver's pointer behind: his location still goes to the rider.
  lemma TakeoverLeavesPointer(m: Typed, trip: string, rider: string, first: string, second: string)
    requires trip != "" && rider != "" && first != "" && second != "" && first != second
    ensures var m' := Cleared(GatewaySet(ServiceSet(m, trip, rider, first), trip, rider, second), trip);
            ActiveRider(first) in m' && m'[ActiveRider(first)] == rider
  {
    ClearEndsRelayIff(GatewaySet(ServiceSet(m, trip, rider, first), trip, rider, second), trip, first);
  }

  // ---- The pointers of any run ----

  lemma {:induction false} ExecLast(m: Typed, steps: seq<Step>)
    requires steps != []
    ensures Exec(m, steps) == Apply(Exec(m, steps[..|steps| - 1]), steps[|steps| - 1])
    decreases |steps|
  {
    if |steps| == 1 {
      assert steps[..0] == [] && steps[1..] == [];
    } else {
      ExecLast(Apply(m, steps[0]), steps[1..]);
      var front := steps[..|steps| - 1];
      assert front[0] == steps[0] && front[1..] == steps[1..][..|steps[1..]| - 1];
    }
  }

  // The rider and the driver that the history of a trip's chat keys leaves, "" for none.
  function NextRider(rider: string, step: Step, trip: string): string {
    match step
    case SetByGateway(t, r, d) => if t == trip && t != "" && r != "" && d != "" then r else rider
    case SetByService(t, r, _) => if t == trip && t != "" then r else rider
    case Clear(t) => if t == trip && t != "" then "" else rider
    case Expire(key) => if key == ChatRider(trip) then "" else rider
  }

  function NextDriver(driver: string, step: Step, trip: string): string {
    match step
    case SetByGateway(t, r, d) => if t == trip && t != "" && r != "" && d != "" then d else driver
    case SetByService(t, _, d) => if t == trip && t != "" then d else driver
    case Clear(t) => if t == trip && t != "" then "" else driver
    case Expire(key) => if key == ChatDriver(trip) then "" else driver
  }

  function RiderNow(steps: seq<Step>, trip: string): string {
    if steps == [] then "" else NextRider(RiderNow(steps[..|steps| - 1], trip), steps[|steps| - 1], trip)
  }

  function DriverNow(steps: seq<Step>, trip: string): string {
    if steps == [] then "" else NextDriver(DriverNow(steps[..|steps| - 1], trip), steps[|steps| - 1], trip)
  }

  lemma RiderStep(m: Typed, step: Step, trip: string)
    ensures Get(Apply(m, step), ChatRider(trip)) == NextRider(Get(m, ChatRider(trip)), step, trip)
  {
  }

  lemma DriverStep(m: Typed, step: Step, trip: string)
    ensures Get(Apply(m, step), ChatDriver(trip)) == NextDriver(Get(m, ChatDriver(trip)), step, trip)
  {
  }

  // Over every run the chat keys of a trip hold the pair of its last set, while neither key was
  // cleared or expired since.
  lemma {:induction false} ChatKeysFollowHistory(steps: seq<Step>, trip: string)
    ensures Get(Exec(imap[], steps), ChatRider(trip)) == RiderNow(steps, trip)
    ensures Get(Exec(imap[], steps), ChatDriver(trip)) == DriverNow(steps, trip)
  {
    if steps != [] {
      var front, last := steps[..|steps| - 1], steps[|steps| - 1];
      ChatKeysFollowHistory(front, trip);
      ExecLast(imap[], steps);
      RiderStep(Exec(imap[], front), last, trip);
      DriverStep(Exec(imap[], front), last, trip);
    }
  }

  // The driver service paired this driver last with this rider, and since then no trip whose pair
  // named the driver was cleared and his pointer did not expire.
  predicate PairedLast(steps: seq<Step>, driver: string, rider: string) {
    steps != [] &&
    var last, front := steps[|steps| - 1], steps[..|steps| - 1];
    match last
    case SetByGateway(_, _, _) => PairedLast(front, driver, rider)
    case SetByService(_, r, d) => if d == driver then r == rider else PairedLast(front, driver, rider)
    case Clear(t) => !(t != "" && driver != "" && DriverNow(front, t) == driver) && PairedLast(front, driver, rider)
    case Expire(key) => key != ActiveRider(driver) && PairedLast(front, driver, rider)
  }

  // Over any run at all, trips changing hands, empty ids and expiry included: a driver's location goes
  // to a rider if and only if that is what the history of sets, clears and expiries says.
  lemma {:induction false} RelayFollowsHistory(steps: seq<Step>, driver: string, rider: string)
    ensures var m := Exec(imap[], steps);
            ActiveRider(driver) in m && m[ActiveRider(driver)] == rider <==> PairedLast(steps, driver, rider)
  {
    if steps != [] {
      var front, last := steps[..|steps| - 1], steps[|steps| - 1];
      RelayFollowsHistory(front, driver, rider);
      ExecLast(imap[], steps);
      if last.Clear? {
        ChatKeysFollowHistory(front, last.trip);
        ClearKeepsPointer(Exec(imap[], front), last.trip, driver);
      }
    }
  }

  lemma ClearKeepsPointer(m: Typed, trip: string, driver: string)
    ensures var m' := Cleared(m, trip);
            var ends := trip != "" && driver != "" && Get(m, ChatDriver(trip)) == driver;
            && (ActiveRider(driver) in m' <==> ActiveRider(driver) in m && !ends)
            && (ActiveRider(driver) in m' ==> m'[ActiveRider(driver)] == m[ActiveRider(driver)])
  {
  }

  // ---- Whom a chat message goes to ----

  // Over every run: the rider's messages go to the driver and the driver's to the rider, everybody
  // else is refused, and nobody is let in while one of the two is missing.
  lemma ResolveFollowsHistory(steps: seq<Step>, trip: string, sender: string)
    ensures trip == "" || sender == "" ==> Resolve(Exec(imap[], steps), trip, sender) == Missing
    ensures trip != "" && sender != "" ==>
            var rider, driver := RiderNow(steps, trip), DriverNow(steps, trip);
            var peer := Resolve(Exec(imap[], steps), trip, sender);
            && (rider == "" || driver == "" ==> peer == PairNotFound)
            && (rider != "" && driver != "" ==>
                  && (sender == rider ==> peer == Peer(driver))
                  && (sender == driver && driver != rider ==> peer == Peer(rider))
                  && (sender != rider && sender != driver ==> peer == Unauthorized)
                  && (rider != driver ==> peer != Peer(sender)))
  {
    ChatKeysFollowHistory(steps, trip);
  }

  predicate Touches(step: Step, trip: string) {
    match step
    case SetByGateway(t, _, _) => t == trip
    case SetByService(t, _, _) => t == trip
    case Clear(t) => t == trip
    case Expire(key) => key == ChatRider(trip) || key == ChatDriver(trip)
  }

  lemma {:induction false} UntouchedStays(m: Typed, steps: seq<Step>, trip: string)
    requires forall st :: st in steps ==> !Touches(st, trip)
    ensures Get(Exec(m, steps), ChatRider(trip)) == Get(m, ChatRider(trip))
    ensures Get(Exec(m, steps), ChatDriver(trip)) == Get(m, ChatDriver(trip))
    decreases |steps|
  {
    if steps != [] {
      assert steps[0] in steps;
      RiderStep(m, steps[0], trip);
      DriverStep(m, steps[0], trip);
      UntouchedStays(Apply(m, steps[0]), steps[1..], trip);
    }
  }

  // From any state: after either service has set a pair, and until that trip is set, cleared or
  // expires again, the two find each other and nobody else finds anybody.
  lemma SetOpensChat(m: Typed, pairing: Step, steps: seq<Step>, sender: string)
    requires (pairing.SetByGateway? || pairing.SetByService?) && sender != ""
    requires pairing.trip != "" && pairing.rider != "" && pairing.driver != "" && pairing.rider != pairing.driver
    requires forall st :: st in steps ==> !Touches(st, pairing.trip)
    ensures Resolve(Exec(Apply(m, pairing), steps), pairing.trip, sender)
         == if sender == pairing.rider then Peer(pairing.driver)
            else if sender == pairing.driver then Peer(pairing.rider)
            else Unauthorized
  {
    UntouchedStays(Apply(m, pairing), steps, pairing.trip);
  }
}
