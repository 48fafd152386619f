// services/trip-service/internal/infrastructure/events/driver_consumer.go: the handler of one
// accept, under any failures of the store and the broker, and its retries.
module Accept {
  import opened Failing
  import opened Options
  import opened Trips
  import Retry

  datatype Payload = Payload(tripID: string, driverID: string, driverName: string)

  datatype Faults = Faults(getFails: bool, update: Fault, regetFails: bool, notice: Fault, payment: Fault)

  const NO_FAULTS := Faults(false, Works, false, Works, Works)

  // What leaves a trace: a write that changed the record, and the two messages.
  datatype Trace =
    | Changed(trip: Trip)
    | DriverAssigned(owner: string, trip: Trip)
    | PaymentCommand(tripID: string, userID: string, driverID: string, amount: real)

  datatype World = World(trips: map<string, Trip>, log: seq<Trace>)

  datatype Attempt = Attempt(world: World, err: Option<string>)

  function Published(w: World, t: Trace, fault: Fault): World {
    if fault == FailsBefore then w else w.(log := w.log + [t])
  }

  // One call of handleTripAccepted.
  function Handle(w: World, p: Payload, f: Faults): Attempt {
    if f.getFails || p.tripID !in w.trips then Attempt(w, Some("get"))
    else if f.update == FailsBefore then Attempt(w, Some("update"))
    else
      var driver := Driver(p.driverID, p.driverName);
      if !Modifies(w.trips, p.tripID, Accepted, Some(driver))
      then Attempt(w, Some(if f.update == Works then "not found" else "update"))
      else
        var trips := Updated(w.trips, p.tripID, Accepted, Some(driver));
        var trip := trips[p.tripID];
        var changed := World(trips, w.log + [Changed(trip)]);
        if f.update == FailsAfter then Attempt(changed, Some("update"))
        else if f.regetFails then Attempt(changed, Some("get"))
        else
          var told := Published(changed, DriverAssigned(trip.userID, trip), f.notice);
          if f.notice != Works then Attempt(told, Some("publish"))
          else
            var command := PaymentCommand(p.tripID, trip.userID, p.driverID, trip.fare.totalPriceInCents);
            var paid := Published(told, command, f.payment);
            Attempt(paid, if f.payment == Works then None else Some("publish"))
  }

  // The world after `n` attempts at the same delivery, attempt `i` under the faults `f(i)`, when nobody
  // else touches the trip between them.
  function After(w: World, p: Payload, f: nat -> Faults, n: nat): World {
    if n == 0 then w else Handle(After(w, p, f, n - 1), p, f(n - 1)).world
  }

  // The error of attempt `i`.
  function ErrorOf(w: World, p: Payload, f: nat -> Faults, i: nat): Option<string> {
    Handle(After(w, p, f, i), p, f(i)).err
  }

  class DriverConsumer {
    const service: TripService
    // The record writes that changed something and the messages sent, in order.
    var log: seq<Trace>

    constructor (service: TripService)
      ensures this.service == service && log == []
    {
      this.service := service;
      log := [];
    }

    function View(): World
      reads this, service
    {
      World(service.trips, log)
    }

    method Publish(t: Trace, fault: Fault) returns (err: Option<string>)
      modifies this
      ensures service.trips == old(service.trips) && log == old(log) + if fault == FailsBefore then [] else [t]
      ensures err.None? <==> fault == Works
      ensures err.Some? ==> err == Some("publish")
    {
      if fault != FailsBefore {
        log := log + [t];
      }
      err := if fault == Works then None else Some("publish");
    }

    method HandleTripAccepted(p: Payload, f: Faults) returns (err: Option<string>)
      modifies this, service
      ensures View() == Handle(old(View()), p, f).world && err == Handle(old(View()), p, f).err
    {
      var trip := service.GetTripByID(p.tripID, f.getFails);
      if trip.None? {
        return Some("get");
      }
      var tripDriver := Driver(p.driverID, p.driverName);
      var before := service.trips;
      UpdateFailsIff(before, p.tripID, Accepted, Some(tripDriver));
      var failed := service.UpdateTrip(p.tripID, Accepted, Some(tripDriver), f.update);
      if service.trips != before {
        log := log + [Changed(service.trips[p.tripID])];
      }
      if failed.Some? {
        return Some(if failed == Some(StoreFailed) then "update" else "not found");
      }
      trip := service.GetTripByID(p.tripID, f.regetFails);
      if trip.None? {
        return Some("get");
      }
      err := Publish(DriverAssigned(trip.value.userID, trip.value), f.notice);
      if err.Some? {
        return;
      }
      err := Publish(PaymentCommand(p.tripID, trip.value.userID, p.driverID, trip.value.fare.totalPriceInCents),
                     f.payment);
    }

    // The consumer around the handler: attempts at one delivery, `f(i)` failing in attempt `i`.
    method ConsumeAccept(p: Payload, f: nat -> Faults) returns (err: Option<string>, attempts: nat)
      modifies this, service
      ensures attempts <= Retry.DEFAULT_CONFIG.maxRetries + 1
      ensures View() == After(old(View()), p, f, attempts)
      ensures err.None? <==>
              exists i: nat :: i <= Retry.DEFAULT_CONFIG.maxRetries && ErrorOf(old(View()), p, f, i).None?
    {
      ghost var start := View();
      attempts := 0;
      err := Some("");
      while attempts <= Retry.DEFAULT_CONFIG.maxRetries
        invariant attempts <= Retry.DEFAULT_CONFIG.maxRetries + 1
        invariant View() == After(start, p, f, attempts)
        invariant err.Some? && forall i: nat :: i < attempts ==> ErrorOf(start, p, f, i).Some?
      {
        err := Attempted(p, f, attempts, start);
        attempts := attempts + 1;
        if err.None? {
          return;
        }
      }
    }

    method Attempted(p: Payload, f: nat -> Faults, i: nat, ghost start: World) returns (err: Option<string>)
      requires View() == After(start, p, f, i)
      modifies this, service
      ensures View() == After(start, p, f, i + 1) && err == ErrorOf(start, p, f, i)
    {
      err := HandleTripAccepted(p, f(i));
    }
  }

  // ---- One delivery, while nobody else touches the trip ----

  // The record the first effective attempt leaves.
  function AcceptedTrip(w: World, p: Payload): Trip
    requires p.tripID in w.trips
  {
    Patched(w.trips[p.tripID], Accepted, Some(Driver(p.driverID, p.driverName)))
  }

  function FullLog(w: World, p: Payload): seq<Trace>
    requires p.tripID in w.trips
  {
    var trip := AcceptedTrip(w, p);
    [Changed(trip), DriverAssigned(trip.userID, trip),
     PaymentCommand(p.tripID, trip.userID, p.driverID, trip.fare.totalPriceInCents)]
  }

  // An attempt gets as far as changing the record.
  predicate Writes(f: Faults) {
    !f.getFails && f.update != FailsBefore
  }

  // The traces one attempt leaves on a record it can change.
  function Reach(f: Faults): nat {
    if !Writes(f) then 0
    else if f.update == FailsAfter || f.regetFails || f.notice == FailsBefore then 1
    else if f.notice == FailsAfter || f.payment == FailsBefore then 2
    else 3
  }

  // The attempt, if any, that changes the record: the first that gets as far as writing.
  ghost predicate FirstWrite(f: nat -> Faults, n: nat, i: nat) {
    i < n && Writes(f(i)) && forall j: nat :: j < i ==> !Writes(f(j))
  }

  lemma {:induction false} AfterAttempts(w: World, p: Payload, f: nat -> Faults, n: nat)
    requires p.tripID in w.trips && AcceptedTrip(w, p) != w.trips[p.tripID]
    ensures (forall i: nat :: i < n ==> !Writes(f(i))) ==> After(w, p, f, n) == w
    ensures forall i: nat :: FirstWrite(f, n, i) ==>
              After(w, p, f, n) == World(w.trips[p.tripID := AcceptedTrip(w, p)], w.log + FullLog(w, p)[..Reach(f(i))])
  {
    if n > 0 {
      AfterAttempts(w, p, f, n - 1);
      forall i: nat | FirstWrite(f, n, i)
        ensures After(w, p, f, n) == World(w.trips[p.tripID := AcceptedTrip(w, p)],
                                           w.log + FullLog(w, p)[..Reach(f(i))])
      {
        if i < n - 1 {
          assert FirstWrite(f, n - 1, i);
          WrittenStays(After(w, p, f, n - 1), p, f(n - 1));
        } else {
          FirstWriteLeaves(w, p, f(i));
        }
      }
    }
  }

  // On a record that already is as the handler would set it, an attempt fails and does nothing.
  lemma WrittenStays(w: World, p: Payload, f: Faults)
    requires p.tripID in w.trips && AcceptedTrip(w, p) == w.trips[p.tripID]
    ensures Handle(w, p, f).world == w && Handle(w, p, f).err.Some?
  {
  }

  lemma FirstWriteLeaves(w: World, p: Payload, f: Faults)
    requires p.tripID in w.trips && AcceptedTrip(w, p) != w.trips[p.tripID] && Writes(f)
    ensures Handle(w, p, f).world == World(w.trips[p.tripID := AcceptedTrip(w, p)], w.log + FullLog(w, p)[..Reach(f)])
    ensures Handle(w, p, f).err.None? <==> f == NO_FAULTS
  {
    var trip := AcceptedTrip(w, p);
    var log := FullLog(w, p);
    assert log[..1] == [Changed(trip)];
    assert log[..2] == [Changed(trip)] + [log[1]];
    assert log[..3] == [Changed(trip)] + [log[1]] + [log[2]];
    assert w.log + [Changed(trip)] + [log[1]] == w.log + log[..2];
    assert w.log + [Changed(trip)] + [log[1]] + [log[2]] == w.log + log[..3];
  }

  // Under any failures, over any number of attempts at one delivery and with no other write to the
  // trip between them: the traces left are a prefix of the write, driver_assigned and the payment
  // command, in that order. So each message goes out at most once, payment only after
  // driver_assigned, both only after a write that changed the record, and both say what was written.
  lemma TracesAreOnePrefix(w: World, p: Payload, f: nat -> Faults, n: nat)
    requires p.tripID in w.trips
    ensures exists k: nat :: k <= 3 && After(w, p, f, n).log == w.log + FullLog(w, p)[..k]
    ensures After(w, p, f, n).trips == w.trips || After(w, p, f, n).trips == w.trips[p.tripID := AcceptedTrip(w, p)]
  {
    if AcceptedTrip(w, p) == w.trips[p.tripID] {
      NoChangeNoTrace(w, p, f, n);
      assert w.log == w.log + FullLog(w, p)[..0];
    } else {
      AfterAttempts(w, p, f, n);
      if forall i: nat :: i < n ==> !Writes(f(i)) {
        assert w.log == w.log + FullLog(w, p)[..0];
      } else {
        var i := FindFirstWrite(f, n);
        assert Reach(f(i)) <= 3;
      }
    }
  }

  lemma {:induction false} NoChangeNoTrace(w: World, p: Payload, f: nat -> Faults, n: nat)
    requires p.tripID in w.trips && AcceptedTrip(w, p) == w.trips[p.tripID]
    ensures After(w, p, f, n) == w
  {
    if n > 0 {
      NoChangeNoTrace(w, p, f, n - 1);
    }
  }

  lemma FindFirstWrite(f: nat -> Faults, n: nat) returns (i: nat)
    requires !(forall i: nat :: i < n ==> !Writes(f(i)))
    ensures FirstWrite(f, n, i)
  {
    i := 0;
    while !Writes(f(i))
      invariant i < n
      invariant forall j: nat :: j < i ==> !Writes(f(j))
      invariant exists j: nat :: j < n && Writes(f(j))
      decreases n - i
    {
      i := i + 1;
    }
  }

  // Without other writes, retrying helps only before the write: a delivery succeeds exactly when the
  // record can change and the first attempt that gets as far as writing has no fault at all.
  lemma SucceedsIffFirstWriteIsClean(w: World, p: Payload, f: nat -> Faults, n: nat)
    ensures (exists i: nat :: i < n && ErrorOf(w, p, f, i).None?) <==>
            p.tripID in w.trips && AcceptedTrip(w, p) != w.trips[p.tripID]
            && exists i: nat :: FirstWrite(f, n, i) && f(i) == NO_FAULTS
  {
    if p.tripID !in w.trips {
      forall i: nat | i < n ensures ErrorOf(w, p, f, i).Some? {
        AbsentStays(w, p, f, i);
      }
    } else if AcceptedTrip(w, p) == w.trips[p.tripID] {
      forall i: nat | i < n ensures ErrorOf(w, p, f, i).Some? {
        NoChangeNoTrace(w, p, f, i);
        WrittenStays(w, p, f(i));
      }
    } else {
      forall i: nat | i < n ensures ErrorOf(w, p, f, i).None? <==> FirstWrite(f, n, i) && f(i) == NO_FAULTS {
        ErrorOfAttempt(w, p, f, n, i);
      }
    }
  }

  lemma {:induction false} AbsentStays(w: World, p: Payload, f: nat -> Faults, n: nat)
    requires p.tripID !in w.trips
    ensures After(w, p, f, n) == w
  {
    if n > 0 {
      AbsentStays(w, p, f, n - 1);
    }
  }

  lemma ErrorOfAttempt(w: World, p: Payload, f: nat -> Faults, n: nat, i: nat)
    requires i < n && p.tripID in w.trips && AcceptedTrip(w, p) != w.trips[p.tripID]
    ensures ErrorOf(w, p, f, i).None? <==> FirstWrite(f, n, i) && f(i) == NO_FAULTS
  {
    AfterAttempts(w, p, f, i);
    if forall j: nat :: j < i ==> !Writes(f(j)) {
      if Writes(f(i)) {
        FirstWriteLeaves(w, p, f(i));
      }
    } else {
      var j := FindFirstWrite(f, i);
      WrittenStays(After(w, p, f, i), p, f(i));
    }
  }

  // ---- One delivery, among any other writes ----

  // The log after `n` attempts when attempt `i` finds the records `records(i)`, whatever others made
  // of them since the attempt before.
  function LogAmong(log: seq<Trace>, records: nat -> map<string, Trip>, p: Payload, f: nat -> Faults, n: nat)
    : seq<Trace>
  {
    if n == 0 then log
    else Handle(World(records(n - 1), LogAmong(log, records, p, f, n - 1)), p, f(n - 1)).world.log
  }

  // The attempt changes the record it finds.
  predicate Effective(trips: map<string, Trip>, p: Payload, f: Faults) {
    Modifies(trips, p.tripID, Accepted, Some(Driver(p.driverID, p.driverName))) && Writes(f)
  }

  // What one attempt leaves, from the record it finds.
  function TracesOf(trips: map<string, Trip>, p: Payload, f: Faults): seq<Trace> {
    if Effective(trips, p, f) then FullLog(World(trips, []), p)[..Reach(f)] else []
  }

  function TracesAmong(records: nat -> map<string, Trip>, p: Payload, f: nat -> Faults, n: nat): seq<Trace> {
    if n == 0 then [] else TracesAmong(records, p, f, n - 1) + TracesOf(records(n - 1), p, f(n - 1))
  }

  // In any world: an attempt succeeds exactly when it would change the record it finds and has no
  // fault, and it leaves those traces.
  lemma HandleIff(w: World, p: Payload, f: Faults)
    ensures Handle(w, p, f).err.None? <==> Effective(w.trips, p, f) && f == NO_FAULTS
    ensures Handle(w, p, f).world.log == w.log + TracesOf(w.trips, p, f)
    ensures Effective(w.trips, p, f) ==> Handle(w, p, f).world.trips == w.trips[p.tripID := AcceptedTrip(w, p)]
    ensures !Effective(w.trips, p, f) ==> Handle(w, p, f).world == w
  {
    if Effective(w.trips, p, f) {
      assert FullLog(w, p) == FullLog(World(w.trips, []), p);
      FirstWriteLeaves(w, p, f);
    } else {
      assert w.log + [] == w.log;
    }
  }

  // Over any number of attempts, under any faults and among any other writes to the trips, the log is
  // the sequence of what the attempts leave: each a prefix of the write, driver_assigned and the
  // payment command for the record it found and changed.
  lemma {:induction false} LogAmongIs(log: seq<Trace>, records: nat -> map<string, Trip>, p: Payload,
                                      f: nat -> Faults, n: nat)
    ensures LogAmong(log, records, p, f, n) == log + TracesAmong(records, p, f, n)
  {
    if n == 0 {
      assert log + [] == log;
    } else {
      LogAmongIs(log, records, p, f, n - 1);
      HandleIff(World(records(n - 1), LogAmong(log, records, p, f, n - 1)), p, f(n - 1));
      Regroup(log, TracesAmong(records, p, f, n - 1), TracesOf(records(n - 1), p, f(n - 1)));
    }
  }

  lemma Regroup(x: seq<Trace>, y: seq<Trace>, z: seq<Trace>)
    ensures x + y + z == x + (y + z)
  {
  }

  // Attempt `i` succeeds exactly when it would change the record it finds and has no fault: after a
  // failed publish it can succeed only because somebody else changed the trip in between.
  lemma SucceedsAmongIff(log: seq<Trace>, records: nat -> map<string, Trip>, p: Payload, f: nat -> Faults, i: nat)
    ensures Handle(World(records(i), LogAmong(log, records, p, f, i)), p, f(i)).err.None? <==>
            Effective(records(i), p, f(i)) && f(i) == NO_FAULTS
  {
    HandleIff(World(records(i), LogAmong(log, records, p, f, i)), p, f(i));
  }

  // What the messages of one delivery say: driver_assigned goes to the owner of a record that an
  // attempt found and carries it as accepted by this driver; the payment command names the trip, its
  // owner, the driver and the quoted amount.
  lemma {:induction false} MessagesSay(records: nat -> map<string, Trip>, p: Payload, f: nat -> Faults, n: nat,
                                       t: Trace)
    requires t in TracesAmong(records, p, f, n)
    ensures exists i: nat :: i < n && p.tripID in records(i) && Says(t, records(i)[p.tripID], p)
  {
    if t in TracesOf(records(n - 1), p, f(n - 1)) {
      assert t in FullLog(World(records(n - 1), []), p);
      assert Says(t, records(n - 1)[p.tripID], p);
    } else {
      MessagesSay(records, p, f, n - 1, t);
    }
  }

  predicate Says(t: Trace, found: Trip, p: Payload) {
    var accepted := found.(status := Accepted, driver := Some(Driver(p.driverID, p.driverName)));
    match t
    case Changed(trip) => trip == accepted
    case DriverAssigned(owner, trip) => owner == found.userID && trip == accepted
    case PaymentCommand(tripID, userID, driverID, amount) =>
      tripID == p.tripID && userID == found.userID && driverID == p.driverID && amount == found.fare.totalPriceInCents
  }

  // How many writes, notices and payment commands a log holds.
  datatype Tally = Tally(writes: nat, notices: nat, payments: nat)

  function Counted(log: seq<Trace>): Tally {
    if log == [] then Tally(0, 0, 0)
    else
      var t := Counted(log[..|log| - 1]);
      match log[|log| - 1]
      case Changed(_) => t.(writes := t.writes + 1)
      case DriverAssigned(_, _) => t.(notices := t.notices + 1)
      case PaymentCommand(_, _, _, _) => t.(payments := t.payments + 1)
  }

  lemma {:induction false} CountedAppend(x: seq<Trace>, y: seq<Trace>)
    ensures var a, b := Counted(x), Counted(y);
            Counted(x + y) == Tally(a.writes + b.writes, a.notices + b.notices, a.payments + b.payments)
  {
    if y == [] {
      assert x + y == x;
    } else {
      CountedAppend(x, y[..|y| - 1]);
      assert (x + y)[..|x + y| - 1] == x + y[..|y| - 1];
    }
  }

  lemma TracesOfCount(trips: map<string, Trip>, p: Payload, f: Faults)
    ensures Counted(TracesOf(trips, p, f))
         == if !Effective(trips, p, f) then Tally(0, 0, 0)
            else Tally(1, if Reach(f) >= 2 then 1 else 0, if Reach(f) == 3 then 1 else 0)
  {
    if Effective(trips, p, f) {
      var log := FullLog(World(trips, []), p);
      assert log[..3][..2] == log[..2] && log[..2][..1] == log[..1] && log[..1][..0] == [];
      assert Counted([]) == Tally(0, 0, 0);
      assert Counted(log[..1]) == Tally(1, 0, 0);
      assert Counted(log[..2]) == Tally(1, 1, 0);
      assert Counted(log[..3]) == Tally(1, 1, 1);
    }
  }

  function EffectiveWrites(records: nat -> map<string, Trip>, p: Payload, f: nat -> Faults, n: nat): nat {
    if n == 0 then 0
    else EffectiveWrites(records, p, f, n - 1) + if Effective(records(n - 1), p, f(n - 1)) then 1 else 0
  }

  // Among any other writes, one delivery sends at most as many payment commands as driver_assigned
  // messages, and at most as many of those as it changed the record, which is at most once an attempt.
  lemma {:induction false} MessagesPerWrite(records: nat -> map<string, Trip>, p: Payload, f: nat -> Faults, n: nat)
    ensures var t := Counted(TracesAmong(records, p, f, n));
            t.payments <= t.notices <= t.writes == EffectiveWrites(records, p, f, n) <= n
  {
    if n > 0 {
      MessagesPerWrite(records, p, f, n - 1);
      CountedAppend(TracesAmong(records, p, f, n - 1), TracesOf(records(n - 1), p, f(n - 1)));
      TracesOfCount(records(n - 1), p, f(n - 1));
    }
  }

  // The records before each attempt when nobody else writes are those the attempts leave.
  ghost predicate Alone(w: World, p: Payload, f: nat -> Faults, records: nat -> map<string, Trip>) {
    forall i: nat :: records(i) == After(w, p, f, i).trips
  }

  lemma {:induction false} AloneIsAmong(w: World, p: Payload, f: nat -> Faults, records: nat -> map<string, Trip>,
                                        n: nat)
    requires Alone(w, p, f, records)
    ensures LogAmong(w.log, records, p, f, n) == After(w, p, f, n).log
  {
    if n > 0 {
      AloneIsAmong(w, p, f, records, n - 1);
      var before := After(w, p, f, n - 1);
      assert World(records(n - 1), LogAmong(w.log, records, p, f, n - 1)) == before;
    }
  }

  // A rider's cancel between two attempts lets the second one accept the cancelled trip, and announce
  // the driver a second time.
  lemma CancelLetsRetryAccept(trip: Trip, p: Payload, requester: string)
    requires trip.status == Pending && trip.userID == requester
    ensures var fails := NO_FAULTS.(payment := FailsBefore);
            var first := Handle(World(map[p.tripID := trip], []), p, fails);
            var cancelled := CancelLeaves(first.world.trips, p.tripID, requester, false, Works);
            var second := Handle(World(cancelled, first.world.log), p, NO_FAULTS);
            && first.err.Some? && cancelled[p.tripID].status == Cancelled
            && second.err.None? && second.world.trips[p.tripID].status == Accepted
            && Counted(second.world.log) == Tally(2, 2, 1)
  {
    var w := World(map[p.tripID := trip], []);
    var fails := NO_FAULTS.(payment := FailsBefore);
    HandleIff(w, p, fails);
    TracesOfCount(w.trips, p, fails);
    var first := Handle(w, p, fails);
    var cancelled := CancelLeaves(first.world.trips, p.tripID, requester, false, Works);
    var w2 := World(cancelled, first.world.log);
    HandleIff(w2, p, NO_FAULTS);
    TracesOfCount(w2.trips, p, NO_FAULTS);
    assert first.world.log == TracesOf(w.trips, p, fails);
    CountedAppend(first.world.log, TracesOf(w2.trips, p, NO_FAULTS));
  }
}
