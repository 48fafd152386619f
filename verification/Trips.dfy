// services/trip-service: the trip record, its partial update, and accept, cancel and complete as
// they interleave. Cancel and complete read the record first and write it in a later step.
module Trips {
  import opened Failing
  import opened Options
  import opened Fares

  datatype Status = Pending | Accepted | Cancelled | Completed

  datatype Driver = Driver(id: string, name: string)

  datatype Trip = Trip(userID: string, fare: RideFare, status: Status, driver: Option<Driver>)

  datatype Error = NotFound | NotAllowed | StoreFailed

  // ---- The store ----

  // The fields a partial update sets: the status, and the driver when one is given.
  function Patched(t: Trip, status: Status, driver: Option<Driver>): Trip {
    t.(status := status, driver := if driver.Some? then driver else t.driver)
  }

  // An update reports "not found" when it modifies nothing.
  predicate Modifies(trips: map<string, Trip>, id: string, status: Status, driver: Option<Driver>) {
    id in trips && Patched(trips[id], status, driver) != trips[id]
  }

  function Updated(trips: map<string, Trip>, id: string, status: Status, driver: Option<Driver>): map<string, Trip> {
    if id in trips then trips[id := Patched(trips[id], status, driver)] else trips
  }

  // A store error is also reported for an existing trip that already has the values to be set.
  lemma UpdateFailsIff(trips: map<string, Trip>, id: string, status: Status, driver: Option<Driver>)
    ensures !Modifies(trips, id, status, driver) <==>
            id !in trips || (trips[id].status == status && (driver.None? || driver == trips[id].driver))
    ensures !Modifies(trips, id, status, driver) <==> Updated(trips, id, status, driver) == trips
  {
    if id in trips {
      assert Updated(trips, id, status, driver)[id] == Patched(trips[id], status, driver);
      if Patched(trips[id], status, driver) == trips[id] {
        assert trips[id := trips[id]] == trips;
      }
    }
  }

  // Whether CancelTrip lets this user go on with a record as it was read.
  predicate MayCancel(t: Trip, requester: string) {
    t.userID == requester
    || (t.status == Accepted && t.driver.Some? && t.driver.value.id != "" && t.driver.value.id == requester)
  }

  // What a cancel reports, and the records it leaves, when its read or its write may fail.
  predicate CancelAllowed(trips: map<string, Trip>, id: string, requester: string, readFails: bool) {
    !readFails && id in trips && MayCancel(trips[id], requester)
  }

  predicate CancelSucceeds(trips: map<string, Trip>, id: string, requester: string, readFails: bool, write: Fault) {
    CancelAllowed(trips, id, requester, readFails) && (trips[id].status == Cancelled || write == Works)
  }

  function CancelLeaves(trips: map<string, Trip>, id: string, requester: string, readFails: bool, write: Fault)
    : map<string, Trip>
  {
    if !CancelAllowed(trips, id, requester, readFails) || write == FailsBefore then trips
    else Updated(trips, id, Cancelled, None)
  }

  predicate CompleteSucceeds(trips: map<string, Trip>, id: string, readFails: bool, write: Fault) {
    !readFails && id in trips && (trips[id].status == Completed || write == Works)
  }

  function CompleteLeaves(trips: map<string, Trip>, id: string, readFails: bool, write: Fault): map<string, Trip> {
    if !readFails && write != FailsBefore then Updated(trips, id, Completed, None) else trips
  }

  lemma UpdatedSame(trips: map<string, Trip>, id: string, status: Status)
    requires id in trips && trips[id].status == status
    ensures Updated(trips, id, status, None) == trips
  {
    assert trips[id := trips[id]] == trips;
  }

  // ---- The service ----

  class TripService {
    var trips: map<string, Trip>

    constructor ()
      ensures trips == map[]
    {
      trips := map[];
    }

    // The store hands out fresh ids.
    method CreateTrip(id: string, fare: RideFare, fault: Fault) returns (trip: Option<Trip>)
      requires id !in trips
      modifies this
      ensures trips == if fault == FailsBefore then old(trips)
                       else old(trips)[id := Trip(fare.userID, fare, Pending, None)]
      ensures trip == if fault == Works then Some(Trip(fare.userID, fare, Pending, None)) else None
    {
      var t := Trip(fare.userID, fare, Pending, None);
      if fault != FailsBefore {
        trips := trips[id := t];
      }
      trip := if fault == Works then Some(t) else None;
    }

    method GetTripByID(id: string, fails: bool) returns (trip: Option<Trip>)
      ensures trip.Some? <==> !fails && id in trips
      ensures trip.Some? ==> trip.value == trips[id]
    {
      trip := if !fails && id in trips then Some(trips[id]) else None;
    }

    method UpdateTrip(id: string, status: Status, driver: Option<Driver>, fault: Fault) returns (err: Option<Error>)
      modifies this
      ensures trips == if fault == FailsBefore then old(trips) else Updated(old(trips), id, status, driver)
      ensures err.None? <==> fault == Works && Modifies(old(trips), id, status, driver)
      ensures err == Some(StoreFailed) <==> fault != Works
    {
      if fault == FailsBefore {
        return Some(StoreFailed);
      }
      var modified := false;
      if id in trips {
        var t := trips[id].(status := status);
        if driver.Some? {
          t := t.(driver := driver);
        }
        modified := t != trips[id];
        trips := trips[id := t];
      }
      if fault == FailsAfter {
        return Some(StoreFailed);
      }
      err := if modified then None else Some(NotFound);
    }

    method CompleteTrip(id: string, readFails: bool, write: Fault) returns (err: Option<Error>)
      modifies this
      ensures trips == CompleteLeaves(old(trips), id, readFails, write)
      ensures err.None? <==> CompleteSucceeds(old(trips), id, readFails, write)
    {
      var trip := GetTripByID(id, readFails);
      if trip.None? {
        return Some(NotFound);
      }
      if trip.value.status == Completed {
        UpdatedSame(trips, id, Completed);
        return None;
      }
      err := UpdateTrip(id, Completed, None, write);
    }

    method CancelTrip(id: string, requester: string, readFails: bool, write: Fault) returns (err: Option<Error>)
      modifies this
      ensures trips == CancelLeaves(old(trips), id, requester, readFails, write)
      ensures err.None? <==> CancelSucceeds(old(trips), id, requester, readFails, write)
    {
      var trip := GetTripByID(id, readFails);
      if trip.None? {
        return Some(NotFound);
      }
      var isRider := trip.value.userID == requester;
      var isAccepted := trip.value.status == Accepted;
      var driverID := if trip.value.driver.Some? then trip.value.driver.value.id else "";
      var isAcceptedDriver := isAccepted && driverID != "";
      var isAssignedDriver := isAcceptedDriver && driverID == requester;
      if !isRider && !isAssignedDriver {
        return Some(NotAllowed);
      }
      if trip.value.status == Cancelled {
        UpdatedSame(trips, id, Cancelled);
        return None;
      }
      err := UpdateTrip(id, Cancelled, None, write);
    }
  }

  // ---- Interleaved operations ----

  // An operation that has read the record and not yet written it.
  datatype Reading = Cancelling(id: string, requester: string, read: Trip) | Completing(id: string, read: Trip)

  datatype Event =
    | Created(id: string, userID: string, fare: RideFare)
    | Assigned(id: string, driver: Driver)
    | CancelSucceeded(id: string, requester: string)
    | CompleteSucceeded(id: string)

  // `past` is every event so far, in order; Assigned is an accept whose write changed the record.
  datatype State = State(trips: map<string, Trip>, open: map<nat, Reading>, past: seq<Event>)

  const START := State(map[], map[], [])

  // Any of these may be repeated at any time: commands and events are delivered at least once. A
  // read, an insert or an accept that the store fails before taking effect is no step at all.
  datatype Step =
    | Create(id: string, fare: RideFare)
    | Accept(id: string, driver: Driver)
    | Decline(id: string)
    | CancelRead(op: nat, id: string, requester: string)
    | CompleteRead(op: nat, id: string)
    | Write(op: nat, fault: Fault)

  predicate Enabled(s: State, step: Step) {
    match step
    case Create(id, _) => id !in s.trips
    case Accept(id, driver) => Modifies(s.trips, id, Accepted, Some(driver))
    case Decline(_) => false
    case CancelRead(op, id, requester) => op !in s.open && id in s.trips && MayCancel(s.trips[id], requester)
    case CompleteRead(op, id) => op !in s.open && id in s.trips
    case Write(op, _) => op in s.open
  }

  // An operation succeeds when its write works and changes the record.
  function Applied(s: State, id: string, status: Status, event: Event, fault: Fault): State {
    if fault == FailsBefore || !Modifies(s.trips, id, status, None) then s
    else s.(trips := Updated(s.trips, id, status, None), past := if fault == Works then s.past + [event] else s.past)
  }

  // A step that is not enabled changes nothing; a decline only publishes.
  function Apply(s: State, step: Step): State {
    if !Enabled(s, step) then s else
      match step
      case Create(id, fare) =>
        s.(trips := s.trips[id := Trip(fare.userID, fare, Pending, None)],
           past := s.past + [Created(id, fare.userID, fare)])
      case Accept(id, driver) =>
        s.(trips := Updated(s.trips, id, Accepted, Some(driver)), past := s.past + [Assigned(id, driver)])
      case Decline(_) => s
      case CancelRead(op, id, requester) =>
        if s.trips[id].status == Cancelled then s.(past := s.past + [CancelSucceeded(id, requester)])
        else s.(open := s.open[op := Cancelling(id, requester, s.trips[id])])
      case CompleteRead(op, id) =>
        if s.trips[id].status == Completed then s.(past := s.past + [CompleteSucceeded(id)])
        else s.(open := s.open[op := Completing(id, s.trips[id])])
      case Write(op, fault) =>
        var closed := s.(open := s.open - {op});
        (match s.open[op]
         case Cancelling(id, requester, _) => Applied(closed, id, Cancelled, CancelSucceeded(id, requester), fault)
         case Completing(id, _) => Applied(closed, id, Completed, CompleteSucceeded(id), fault))
  }

  function Exec(s: State, steps: seq<Step>): State
    decreases |steps|
  {
    if steps == [] then s else Exec(Apply(s, steps[0]), steps[1..])
  }

  // ---- What every run keeps ----

  // The driver who was assigned last according to the events.
  function LastAssigned(past: seq<Event>, id: string): Option<Driver> {
    if past == [] then None
    else
      var last := past[|past| - 1];
      if last.Assigned? && last.id == id then Some(last.driver) else LastAssigned(past[..|past| - 1], id)
  }

  ghost predicate AssignedBefore(past: seq<Event>, n: nat, id: string, driverID: string)
    requires n <= |past|
  {
    exists i :: 0 <= i < n && past[i].Assigned? && past[i].id == id && past[i].driver.id == driverID
  }

  // The record of a trip agrees with the events about it.
  ghost predicate Agrees(s: State, id: string)
    requires id in s.trips
  {
    && Created(id, s.trips[id].userID, s.trips[id].fare) in s.past
    && s.trips[id].driver == LastAssigned(s.past, id)
    && (s.trips[id].status == Accepted ==> s.trips[id].driver.Some?)
  }

  ghost predicate Lawful(s: State) {
    && (forall id :: id in s.trips ==> Agrees(s, id))
    && (forall e :: e in s.past && e.Assigned? ==> e.id in s.trips)
    && (forall e :: e in s.past && e.Created? ==>
          e.id in s.trips && s.trips[e.id].userID == e.userID && s.trips[e.id].fare == e.fare)
    && (forall op :: op in s.open ==> s.open[op].id in s.trips)
    && (forall op :: op in s.open && s.open[op].Cancelling? ==>
          var c := s.open[op];
          s.trips[c.id].userID == c.read.userID
          && (c.requester != c.read.userID ==> AssignedBefore(s.past, |s.past|, c.id, c.requester)))
    && (forall j :: 0 <= j < |s.past| && s.past[j].CancelSucceeded? ==>
          s.past[j].id in s.trips
          && (s.past[j].requester != s.trips[s.past[j].id].userID ==>
                AssignedBefore(s.past, j, s.past[j].id, s.past[j].requester)))
  }

  lemma NextEvent(past: seq<Event>, e: Event, id: string)
    ensures LastAssigned(past + [e], id) == if e.Assigned? && e.id == id then Some(e.driver) else LastAssigned(past, id)
  {
    assert (past + [e])[..|past|] == past;
  }

  lemma {:induction false} LastAssignedIsPast(past: seq<Event>, id: string)
    ensures LastAssigned(past, id).Some? ==>
              exists i :: 0 <= i < |past| && past[i] == Assigned(id, LastAssigned(past, id).value)
    ensures LastAssigned(past, id).None? ==> forall e :: e in past && e.Assigned? ==> e.id != id
  {
    if past != [] {
      LastAssignedIsPast(past[..|past| - 1], id);
      assert past == past[..|past| - 1] + [past[|past| - 1]];
    }
  }

  lemma {:induction false} NeverAssigned(past: seq<Event>, id: string)
    requires forall e :: e in past && e.Assigned? ==> e.id != id
    ensures LastAssigned(past, id).None?
  {
    LastAssignedIsPast(past, id);
  }

  // Adding an event about no assignment, or about another trip, keeps what was assigned before.
  lemma AssignedStays(past: seq<Event>, e: Event, n: nat, id: string, driverID: string)
    requires n <= |past| && AssignedBefore(past, n, id, driverID)
    ensures AssignedBefore(past + [e], n, id, driverID)
    ensures AssignedBefore(past + [e], |past + [e]|, id, driverID)
  {
    var i :| 0 <= i < n && past[i].Assigned? && past[i].id == id && past[i].driver.id == driverID;
    assert (past + [e])[i] == past[i];
  }

  lemma DriverMayCancel(s: State, id: string, requester: string)
    requires Lawful(s) && id in s.trips && MayCancel(s.trips[id], requester) && requester != s.trips[id].userID
    ensures AssignedBefore(s.past, |s.past|, id, requester)
  {
    LastAssignedIsPast(s.past, id);
  }

  // Trips of `s` keep their owner and fare in `trips`.
  ghost predicate SameOwners(s: State, trips: map<string, Trip>) {
    forall id :: id in s.trips ==>
      id in trips && trips[id].userID == s.trips[id].userID && trips[id].fare == s.trips[id].fare
  }

  lemma OpenStays(s: State, trips: map<string, Trip>, e: Event, op: nat)
    requires Lawful(s) && SameOwners(s, trips) && op in s.open && s.open[op].Cancelling?
    ensures var c := s.open[op];
            && trips[c.id].userID == c.read.userID
            && (c.requester != c.read.userID ==> AssignedBefore(s.past + [e], |s.past + [e]|, c.id, c.requester))
  {
    var c := s.open[op];
    if c.requester != c.read.userID {
      AssignedStays(s.past, e, |s.past|, c.id, c.requester);
    }
  }

  lemma CancelStays(s: State, trips: map<string, Trip>, e: Event, j: nat)
    requires Lawful(s) && SameOwners(s, trips) && j <= |s.past| && (s.past + [e])[j].CancelSucceeded?
    requires e.CancelSucceeded? ==>
               e.id in s.trips
               && (e.requester != s.trips[e.id].userID ==> AssignedBefore(s.past, |s.past|, e.id, e.requester))
    ensures var c := (s.past + [e])[j];
            c.id in trips && (c.requester != trips[c.id].userID ==> AssignedBefore(s.past + [e], j, c.id, c.requester))
  {
    var c := (s.past + [e])[j];
    if j < |s.past| {
      assert c == s.past[j];
    }
    if c.requester != trips[c.id].userID {
      AssignedStays(s.past, e, j, c.id, c.requester);
    }
  }

  // One more event, when every record agrees with the events including it.
  lemma EventLawful(s: State, trips: map<string, Trip>, e: Event)
    requires Lawful(s) && SameOwners(s, trips)
    requires e.CancelSucceeded? ==>
               e.id in s.trips
               && (e.requester != s.trips[e.id].userID ==> AssignedBefore(s.past, |s.past|, e.id, e.requester))
    requires e.Created? ==> e.id in trips && trips[e.id].userID == e.userID && trips[e.id].fare == e.fare
    requires e.Assigned? ==> e.id in trips
    requires forall id :: id in trips ==> Agrees(State(trips, s.open, s.past + [e]), id)
    ensures Lawful(State(trips, s.open, s.past + [e]))
  {
    var past := s.past + [e];
    forall op | op in s.open && s.open[op].Cancelling?
      ensures trips[s.open[op].id].userID == s.open[op].read.userID
           && (s.open[op].requester != s.open[op].read.userID ==>
                 AssignedBefore(past, |past|, s.open[op].id, s.open[op].requester))
    {
      OpenStays(s, trips, e, op);
    }
    forall j | 0 <= j < |past| && past[j].CancelSucceeded?
      ensures past[j].id in trips
           && (past[j].requester != trips[past[j].id].userID ==> AssignedBefore(past, j, past[j].id, past[j].requester))
    {
      CancelStays(s, trips, e, j);
    }
  }

  lemma CreateLawful(s: State, id: string, fare: RideFare)
    requires Lawful(s) && id !in s.trips
    ensures Lawful(Apply(s, Create(id, fare)))
  {
    var s' := Apply(s, Create(id, fare));
    forall i | i in s'.trips ensures Agrees(s', i) {
      NextEvent(s.past, Created(id, fare.userID, fare), i);
      if i == id {
        NeverAssigned(s.past, id);
      }
    }
    EventLawful(s, s'.trips, Created(id, fare.userID, fare));
  }

  lemma AcceptLawful(s: State, id: string, driver: Driver)
    requires Lawful(s) && Modifies(s.trips, id, Accepted, Some(driver))
    ensures Lawful(Apply(s, Accept(id, driver)))
  {
    var s' := Apply(s, Accept(id, driver));
    forall i | i in s'.trips ensures Agrees(s', i) {
      NextEvent(s.past, Assigned(id, driver), i);
      assert Agrees(s, i);
    }
    EventLawful(s, s'.trips, Assigned(id, driver));
  }

  // A record that ends without an event.
  lemma SilentLawful(s: State, id: string, status: Status)
    requires Lawful(s) && id in s.trips && (status == Cancelled || status == Completed)
    ensures Lawful(s.(trips := Updated(s.trips, id, status, None)))
  {
    var s' := s.(trips := Updated(s.trips, id, status, None));
    forall i | i in s'.trips ensures Agrees(s', i) {
      assert Agrees(s, i);
    }
    assert SameOwners(s, s'.trips);
  }

  lemma EndedLawful(s: State, id: string, status: Status, e: Event)
    requires Lawful(s) && id in s.trips && (status == Cancelled || status == Completed)
    requires e.CancelSucceeded? || e.CompleteSucceeded?
    requires e.CancelSucceeded? ==>
               e.id == id && (e.requester != s.trips[id].userID ==> AssignedBefore(s.past, |s.past|, id, e.requester))
    ensures Lawful(s.(trips := Updated(s.trips, id, status, None), past := s.past + [e]))
  {
    var s' := s.(trips := Updated(s.trips, id, status, None), past := s.past + [e]);
    forall i | i in s'.trips ensures Agrees(s', i) {
      NextEvent(s.past, e, i);
      assert Agrees(s, i);
    }
    EventLawful(s, s'.trips, e);
  }

  lemma AppliedLawful(s: State, id: string, status: Status, e: Event, fault: Fault)
    requires Lawful(s) && id in s.trips && (status == Cancelled || status == Completed)
    requires e.CancelSucceeded? || e.CompleteSucceeded?
    requires e.CancelSucceeded? ==>
               e.id == id && (e.requester != s.trips[id].userID ==> AssignedBefore(s.past, |s.past|, id, e.requester))
    ensures Lawful(Applied(s, id, status, e, fault))
  {
    if fault == Works {
      EndedLawful(s, id, status, e);
    } else if fault == FailsAfter {
      SilentLawful(s, id, status);
    }
  }

  // A read that finds nothing to do succeeds at once; otherwise it stays open.
  lemma NothingToDoLawful(s: State, e: Event)
    requires Lawful(s) && (e.CancelSucceeded? || e.CompleteSucceeded?)
    requires e.CancelSucceeded? ==>
               e.id in s.trips
               && (e.requester != s.trips[e.id].userID ==> AssignedBefore(s.past, |s.past|, e.id, e.requester))
    ensures Lawful(s.(past := s.past + [e]))
  {
    forall i | i in s.trips ensures Agrees(s.(past := s.past + [e]), i) {
      NextEvent(s.past, e, i);
      assert Agrees(s, i);
    }
    EventLawful(s, s.trips, e);
  }

  lemma OpenedLawful(s: State, op: nat, reading: Reading)
    requires Lawful(s) && op !in s.open && reading.id in s.trips && reading.read == s.trips[reading.id]
    requires reading.Cancelling? && reading.requester != reading.read.userID ==>
               AssignedBefore(s.past, |s.past|, reading.id, reading.requester)
    ensures Lawful(s.(open := s.open[op := reading]))
  {
    assert forall i :: i in s.trips ==> Agrees(s, i) ==> Agrees(s.(open := s.open[op := reading]), i);
  }

  lemma CancelReadLawful(s: State, op: nat, id: string, requester: string)
    requires Lawful(s) && Enabled(s, CancelRead(op, id, requester))
    ensures Lawful(Apply(s, CancelRead(op, id, requester)))
  {
    if requester != s.trips[id].userID {
      DriverMayCancel(s, id, requester);
    }
    if s.trips[id].status == Cancelled {
      NothingToDoLawful(s, CancelSucceeded(id, requester));
    } else {
      OpenedLawful(s, op, Cancelling(id, requester, s.trips[id]));
    }
  }

  lemma CompleteReadLawful(s: State, op: nat, id: string)
    requires Lawful(s) && Enabled(s, CompleteRead(op, id))
    ensures Lawful(Apply(s, CompleteRead(op, id)))
  {
    if s.trips[id].status == Completed {
      NothingToDoLawful(s, CompleteSucceeded(id));
    } else {
      OpenedLawful(s, op, Completing(id, s.trips[id]));
    }
  }

  lemma WriteLawful(s: State, op: nat, fault: Fault)
    requires Lawful(s) && op in s.open && (s.open[op].id in s.trips)
    ensures Lawful(Apply(s, Write(op, fault)))
  {
    var closed := s.(open := s.open - {op});
    assert forall i :: i in s.trips ==> Agrees(s, i) ==> Agrees(closed, i);
    match s.open[op]
    case Cancelling(id, requester, _) => AppliedLawful(closed, id, Cancelled, CancelSucceeded(id, requester), fault);
    case Completing(id, _) => AppliedLawful(closed, id, Completed, CompleteSucceeded(id), fault);
  }

  lemma StepLawful(s: State, step: Step)
    requires Lawful(s)
    ensures Lawful(Apply(s, step))
  {
    if Enabled(s, step) {
      match step
      case Create(id, fare) => CreateLawful(s, id, fare);
      case Accept(id, driver) => AcceptLawful(s, id, driver);
      case Decline(_) =>
      case CancelRead(op, id, requester) => CancelReadLawful(s, op, id, requester);
      case CompleteRead(op, id) => CompleteReadLawful(s, op, id);
      case Write(op, fault) => WriteLawful(s, op, fault);
    }
  }

  lemma {:induction false} RunLawful(s: State, steps: seq<Step>)
    requires Lawful(s)
    ensures Lawful(Exec(s, steps))
    decreases |steps|
  {
    if steps != [] {
      StepLawful(s, steps[0]);
      RunLawful(Apply(s, steps[0]), steps[1..]);
    }
  }

  // Over every run, in any order and with any redelivery: the driver on record is the one whose
  // accept was applied last, and nil before the first; an accepted trip has a driver.
  lemma DriverFollowsAccepts(steps: seq<Step>, id: string)
    requires id in Exec(START, steps).trips
    ensures var s := Exec(START, steps);
            && s.trips[id].driver == LastAssigned(s.past, id)
            && (s.trips[id].driver.None? <==> forall e :: e in s.past && e.Assigned? ==> e.id != id)
            && (s.trips[id].status == Accepted ==> s.trips[id].driver.Some?)
            && Created(id, s.trips[id].userID, s.trips[id].fare) in s.past
  {
    RunLawful(START, steps);
    LastAssignedIsPast(Exec(START, steps).past, id);
  }

  // A cancellation that succeeds for somebody other than the rider comes after an applied accept
  // of that trip by the same person.
  lemma OnlyAcceptersCancel(steps: seq<Step>, j: nat)
    requires j < |Exec(START, steps).past| && Exec(START, steps).past[j].CancelSucceeded?
    ensures var s := Exec(START, steps);
            var e := s.past[j];
            e.id in s.trips && (e.requester == s.trips[e.id].userID || AssignedBefore(s.past, j, e.id, e.requester))
  {
    RunLawful(START, steps);
  }

  // He is the rider, or the trip is accepted and he is the driver whose accept was applied last.
  predicate RiderOrDriver(s: State, id: string, requester: string)
    requires id in s.trips
  {
    || requester == s.trips[id].userID
    || (s.trips[id].status == Accepted && requester != ""
        && LastAssigned(s.past, id).Some? && LastAssigned(s.past, id).value.id == requester)
  }

  // In every reachable state, when the store works, these and no others may cancel.
  lemma WhoCancels(steps: seq<Step>, id: string, requester: string)
    requires id in Exec(START, steps).trips
    ensures var s := Exec(START, steps);
            && (CancelSucceeds(s.trips, id, requester, false, Works) <==> RiderOrDriver(s, id, requester))
            && !CancelSucceeds(s.trips, id, requester, true, Works)
  {
    RunLawful(START, steps);
    assert Agrees(Exec(START, steps), id);
  }

  // A cancel that succeeds leaves the trip cancelled and nothing else changed; one that is refused
  // changes nothing.
  lemma WhatCancelLeaves(trips: map<string, Trip>, id: string, requester: string)
    requires id in trips
    ensures CancelLeaves(trips, id, requester, false, Works)
         == if CancelSucceeds(trips, id, requester, false, Works) then trips[id := trips[id].(status := Cancelled)]
            else trips
  {
  }

  // Over every run, from any state on: the owner and the fare of a trip never change, a driver is
  // never unset, and a trip that left Pending never returns to it.
  lemma {:induction false} TripsOnlyMoveOn(s: State, steps: seq<Step>, id: string)
    requires id in s.trips
    ensures id in Exec(s, steps).trips
    ensures var before, after := s.trips[id], Exec(s, steps).trips[id];
            && after.userID == before.userID && after.fare == before.fare
            && (before.driver.Some? ==> after.driver.Some?)
            && (after.status == Pending ==> after == before)
    decreases |steps|
  {
    if steps != [] {
      TripsOnlyMoveOn(Apply(s, steps[0]), steps[1..], id);
    }
  }

  // No status is terminal: whatever the record says, a new driver's accept makes it Accepted, and
  // the rider can cancel and complete it.
  lemma NoStatusIsTerminal(s: State, id: string, driver: Driver, op: nat)
    requires id in s.trips && s.trips[id].driver != Some(driver) && op !in s.open
    ensures Apply(s, Accept(id, driver)).trips[id].status == Accepted
    ensures Apply(Apply(s, CancelRead(op, id, s.trips[id].userID)), Write(op, Works)).trips[id].status == Cancelled
    ensures Apply(Apply(s, CompleteRead(op, id)), Write(op, Works)).trips[id].status == Completed
  {
  }

  // An operation that has read stays open, as it read, until its own write.
  lemma {:induction false} OpenUntilWritten(s: State, steps: seq<Step>, op: nat)
    requires op in s.open && forall st :: st in steps ==> !(st.Write? && st.op == op)
    ensures op in Exec(s, steps).open && Exec(s, steps).open[op] == s.open[op]
    decreases |steps|
  {
    if steps != [] {
      assert steps[0] in steps;
      OpenUntilWritten(Apply(s, steps[0]), steps[1..], op);
    }
  }

  // A cancel overrides whatever happens between its read and its write, accepts by any drivers and
  // a completion included; the driver last assigned stays on record.
  lemma CancelOverridesAccept(s: State, op: nat, id: string, requester: string, between: seq<Step>)
    requires op !in s.open && id in s.trips && MayCancel(s.trips[id], requester) && s.trips[id].status != Cancelled
    requires forall st :: st in between ==> !(st.Write? && st.op == op)
    ensures var s1 := Exec(Apply(s, CancelRead(op, id, requester)), between);
            var s2 := Apply(s1, Write(op, Works));
            && id in s1.trips && id in s2.trips
            && s2.trips[id].status == Cancelled && s2.trips[id].driver == s1.trips[id].driver
  {
    var s0 := Apply(s, CancelRead(op, id, requester));
    OpenUntilWritten(s0, between, op);
    TripsOnlyMoveOn(s0, between, id);
  }

  // ---- Uninterrupted, the two steps are the methods ----

  lemma CreateIsTheMethod(s: State, id: string, fare: RideFare)
    requires id !in s.trips
    ensures Apply(s, Create(id, fare)).trips == s.trips[id := Trip(fare.userID, fare, Pending, None)]
  {
  }

  lemma AcceptIsTheUpdate(s: State, id: string, driver: Driver)
    ensures var s' := Apply(s, Accept(id, driver));
            && s'.trips == Updated(s.trips, id, Accepted, Some(driver))
            && (Modifies(s.trips, id, Accepted, Some(driver)) ==>
                  s'.trips[id].status == Accepted && s'.trips[id].driver == Some(driver)
                  && s'.past == s.past + [Assigned(id, driver)])
  {
    UpdateFailsIff(s.trips, id, Accepted, Some(driver));
  }

  lemma CancelIsReadThenWrite(s: State, op: nat, id: string, requester: string, write: Fault)
    requires op !in s.open
    ensures var s' := Apply(Apply(s, CancelRead(op, id, requester)), Write(op, write));
            && s'.trips == CancelLeaves(s.trips, id, requester, false, write)
            && s'.open == s.open
            && s'.past == s.past + if CancelSucceeds(s.trips, id, requester, false, write)
                                   then [CancelSucceeded(id, requester)] else []
  {
    if CancelAllowed(s.trips, id, requester, false) {
      if s.trips[id].status == Cancelled {
        UpdatedSame(s.trips, id, Cancelled);
      } else {
        assert s.open[op := Cancelling(id, requester, s.trips[id])] - {op} == s.open;
      }
    }
  }

  lemma CompleteIsReadThenWrite(s: State, op: nat, id: string, write: Fault)
    requires op !in s.open
    ensures var s' := Apply(Apply(s, CompleteRead(op, id)), Write(op, write));
            && s'.trips == CompleteLeaves(s.trips, id, false, write)
            && s'.open == s.open
            && s'.past == s.past + if CompleteSucceeds(s.trips, id, false, write) then [CompleteSucceeded(id)] else []
  {
    if id in s.trips {
      if s.trips[id].status == Completed {
        UpdatedSame(s.trips, id, Completed);
      } else {
        assert s.open[op := Completing(id, s.trips[id])] - {op} == s.open;
      }
    }
  }
}
