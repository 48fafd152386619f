// The money path from a fare preview to the payment session, across the trip and payment services.
module QuoteToCharge {
  import opened Options
  import Accept
  import Fares
  import Payments
  import Trips

  // A payment command that the attempts added is the one of a record that an attempt found.
  lemma {:induction false} CommandIsOfARecord(records: nat -> map<string, Trips.Trip>, p: Accept.Payload,
                                              f: nat -> Accept.Faults, n: nat, t: Accept.Trace) returns (i: nat)
    requires t.PaymentCommand? && t in Accept.TracesAmong(records, p, f, n)
    ensures p.tripID in records(i)
    ensures var trip := records(i)[p.tripID];
            t == Accept.PaymentCommand(p.tripID, trip.userID, p.driverID, trip.fare.totalPriceInCents)
  {
    if t in Accept.TracesOf(records(n - 1), p, f(n - 1)) {
      i := n - 1;
      assert t in Accept.FullLog(Accept.World(records(i), []), p);
    } else {
      i := CommandIsOfARecord(records, p, f, n - 1, t);
    }
  }

  lemma CommandOfTheTrip(trips: Trips.State, tripID: string, fare: Fares.RideFare, later: nat -> seq<Trips.Step>,
                         records: nat -> map<string, Trips.Trip>, p: Accept.Payload, f: nat -> Accept.Faults, n: nat,
                         log: seq<Accept.Trace>, t: Accept.Trace)
    requires tripID !in trips.trips && p.tripID == tripID
    requires forall i: nat :: records(i) == Trips.Exec(Trips.Apply(trips, Trips.Create(tripID, fare)), later(i)).trips
    requires t.PaymentCommand? && t in Accept.LogAmong(log, records, p, f, n) && t !in log
    ensures t == Accept.PaymentCommand(tripID, fare.userID, p.driverID, fare.totalPriceInCents)
  {
    Accept.LogAmongIs(log, records, p, f, n);
    var i := CommandIsOfARecord(records, p, f, n, t);
    Trips.TripsOnlyMoveOn(Trips.Apply(trips, Trips.Create(tripID, fare)), later(i), tripID);
  }

  // The event that one payment command sends.
  lemma EventOfCommand(calls: seq<Payments.Call>, w: Payments.World, c: Payments.Call)
    requires w == Payments.Exec(Payments.START, calls) && Payments.Handle(w, c).sent != w.sent
    ensures |Payments.Handle(w, c).sent| == |w.sent| + 1
    ensures var event := Payments.Handle(w, c).sent[|w.sent|];
            && event.tripID == c.tripID && event.userID == c.userID
            && (event.tripID, event.sessionID) in Payments.Handle(w, c).created
            && (c.amount >= 0.0 ==> 0.0 <= c.amount - event.amount * 100.0 < 1.0)
  {
    Payments.EventNames(w, c);
    Payments.RunGenuine(Payments.START, calls);
    Payments.CallGenuine(w, c);
    assert Payments.Handle(w, c).sent[|w.sent|] in Payments.Handle(w, c).sent;
    Payments.ChargeWithinACentIff(c.amount);
  }

  // A rider picks a fare that validates, a trip is created with it, anything happens to the trips
  // before each attempt at a driver's accept, the attempts suffer any faults, and a payment command
  // that came of them is handled. The session event then names this trip and this rider, and its
  // amount falls short of the quote by less than a cent (in the fare's own unit, a hundredth of the
  // reported amount), for routes without negative numbers.
  lemma ChargeFollowsQuote(previews: seq<Fares.Step>, userID: string, fare: Fares.RideFare, now: int,
                           trips: Trips.State, tripID: string, later: nat -> seq<Trips.Step>,
                           records: nat -> map<string, Trips.Trip>,
                           p: Accept.Payload, f: nat -> Accept.Faults, n: nat, log: seq<Accept.Trace>,
                           calls: seq<Payments.Call>, w: Payments.World, c: Payments.Call)
    requires Fares.Validate(Fares.Exec(previews), fare.id, userID, now) == Some(fare)
    requires fare.route != [] ==> fare.route[0].distance >= 0.0 && fare.route[0].duration >= 0.0
    requires tripID !in trips.trips && p.tripID == tripID
    requires forall i: nat :: records(i) == Trips.Exec(Trips.Apply(trips, Trips.Create(tripID, fare)), later(i)).trips
    requires var command := Accept.PaymentCommand(c.tripID, c.userID, p.driverID, c.amount);
             command in Accept.LogAmong(log, records, p, f, n) && command !in log
    requires w == Payments.Exec(Payments.START, calls) && Payments.Handle(w, c).sent != w.sent
    ensures fare.route != []
    ensures exists base :: base in Fares.BASE_FARES && base.slug == fare.packageSlug
              && fare.totalPriceInCents == base.price + 1.5 * fare.route[0].distance + 0.25 * fare.route[0].duration
    ensures var event := Payments.Handle(w, c).sent[|w.sent|];
            && event.tripID == tripID && event.userID == userID
            && (tripID, event.sessionID) in Payments.Handle(w, c).created
            && 0.0 <= fare.totalPriceInCents - event.amount * 100.0 < 1.0
  {
    Fares.ValidIffOfferedLatest(previews, userID, fare.id, now);
    var command := Accept.PaymentCommand(c.tripID, c.userID, p.driverID, c.amount);
    CommandOfTheTrip(trips, tripID, fare, later, records, p, f, n, log, command);
    var base :| base in Fares.BASE_FARES && base.slug == fare.packageSlug
                && fare.totalPriceInCents == base.price + 1.5 * fare.route[0].distance + 0.25 * fare.route[0].duration;
    assert base.price >= 0.0;
    EventOfCommand(calls, w, c);
  }
}
