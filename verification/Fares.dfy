// services/trip-service: the fare preview. Prices are reals; the rounding of float64 arithmetic is
// not modelled.
module Fares {
  import opened Options

  // A route as the routing service returns it: only the first of its legs counts.
  datatype Leg = Leg(distance: real, duration: real)

  type Route = seq<Leg>

  datatype Package = Package(slug: string, price: real)

  const BASE_FARES: seq<Package> := [Package("van", 100.0), Package("suv", 150.0), Package("sedan", 250.0),
                                     Package("luxury", 400.0)]

  const PRICE_PER_UNIT_OF_DISTANCE := 1.5
  const PRICE_PER_MINUTE := 0.25

  // Seconds a preview stays valid: twenty minutes.
  const RIDE_FARE_TTL := 1200

  function Quote(base: real, leg: Leg): real {
    base + leg.distance * PRICE_PER_UNIT_OF_DISTANCE + leg.duration * PRICE_PER_MINUTE
  }

  datatype Choice = Choice(id: nat, packageSlug: string, totalPriceInCents: real)

  datatype Preview = Preview(userID: string, route: Route, fares: seq<Choice>)

  datatype Stored = Stored(preview: Preview, expiresAt: int)

  datatype RideFare = RideFare(id: nat, userID: string, packageSlug: string, totalPriceInCents: real, route: Route)

  // ---- What a preview offers ----

  // Fares are numbered from `first`; without a route there are none.
  function Choices(route: Route, first: nat): seq<Choice> {
    if route == [] then []
    else seq(|BASE_FARES|, i requires 0 <= i < |BASE_FARES| =>
           Choice(first + i, BASE_FARES[i].slug, Quote(BASE_FARES[i].price, route[0])))
  }

  function Offered(userID: string, route: Route, c: Choice): RideFare {
    RideFare(c.id, userID, c.packageSlug, c.totalPriceInCents, route)
  }

  datatype Store = Store(previews: map<string, Stored>, nextId: nat)

  const NO_PREVIEWS := Store(map[], 0)

  // ---- The service and its repository ----

  class FareService {
    var previews: map<string, Stored>
    // Object ids are drawn in increasing order, which makes them unique.
    var nextId: nat

    constructor ()
      ensures View() == NO_PREVIEWS
    {
      previews, nextId := map[], 0;
    }

    function View(): Store
      reads this
    {
      Store(previews, nextId)
    }

    method EstimatePackagePriceWithRoute(route: Route) returns (err: bool, estimated: seq<Package>)
      ensures err <==> route == []
      ensures err ==> estimated == []
      ensures !err ==> |estimated| == |BASE_FARES| && forall i :: 0 <= i < |BASE_FARES| ==>
                estimated[i] == Package(BASE_FARES[i].slug,
                                        BASE_FARES[i].price + 1.5 * route[0].distance + 0.25 * route[0].duration)
    {
      if |route| == 0 {
        return true, [];
      }
      err, estimated := false, [];
      for i := 0 to |BASE_FARES|
        invariant |estimated| == i
        invariant forall j :: 0 <= j < i ==>
          estimated[j] == Package(BASE_FARES[j].slug,
                                  BASE_FARES[j].price + 1.5 * route[0].distance + 0.25 * route[0].duration)
      {
        var f := BASE_FARES[i];
        var distanceFare := route[0].distance * PRICE_PER_UNIT_OF_DISTANCE;
        var timeFare := route[0].duration * PRICE_PER_MINUTE;
        estimated := estimated + [Package(f.slug, f.price + distanceFare + timeFare)];
      }
    }

    method GenerateTripFares(estimated: seq<Package>, userID: string, route: Route, now: int, saveFails: bool)
      returns (ok: bool)
      modifies this
      ensures ok == !saveFails && nextId == old(nextId) + |estimated|
      ensures saveFails ==> previews == old(previews)
      ensures !saveFails ==>
                exists fares: seq<Choice> ::
                  && |fares| == |estimated|
                  && (forall i :: 0 <= i < |fares| ==>
                        fares[i] == Choice(old(nextId) + i, estimated[i].slug, estimated[i].price))
                  && previews == old(previews)[userID := Stored(Preview(userID, route, fares), now + RIDE_FARE_TTL)]
    {
      var fares: seq<Choice> := [];
      for i := 0 to |estimated|
        invariant |fares| == i && nextId == old(nextId) + i && previews == old(previews)
        invariant forall j :: 0 <= j < i ==> fares[j] == Choice(old(nextId) + j, estimated[j].slug, estimated[j].price)
      {
        fares := fares + [Choice(nextId, estimated[i].slug, estimated[i].price)];
        nextId := nextId + 1;
      }
      ok := !saveFails;
      if ok {
        previews := previews[userID := Stored(Preview(userID, route, fares), now + RIDE_FARE_TTL)];
      }
    }

    // The preview request. An error of the estimate is ignored and leaves an empty preview.
    method PreviewTrip(userID: string, route: Route, now: int, saveFails: bool) returns (ok: bool)
      modifies this
      ensures ok == !saveFails
      ensures View() == Apply(old(View()), PreviewFor(userID, route, now, saveFails))
    {
      var err, estimated := EstimatePackagePriceWithRoute(route);
      ghost var first := nextId;
      ok := GenerateTripFares(estimated, userID, route, now, saveFails);
      if !saveFails {
        assert previews[userID].preview.fares == Choices(route, first);
      }
    }

    method GetRideFareByID(fareID: nat, userID: string, now: int) returns (fare: Option<RideFare>)
      ensures fare == Lookup(View(), fareID, userID, now)
    {
      if userID !in previews || now >= previews[userID].expiresAt {
        return None;
      }
      var preview := previews[userID].preview;
      for i := 0 to |preview.fares|
        invariant FirstWith(preview.fares, fareID) == FirstWith(preview.fares[i..], fareID)
      {
        var opt := preview.fares[i];
        if opt.id == fareID {
          return Some(Offered(preview.userID, preview.route, opt));
        }
        assert preview.fares[i..][1..] == preview.fares[i + 1..];
      }
      fare := None;
    }

    method GetAndValidateFare(fareID: nat, userID: string, now: int) returns (fare: Option<RideFare>)
      ensures fare == Validate(View(), fareID, userID, now)
    {
      fare := GetRideFareByID(fareID, userID, now);
      if fare.Some? && userID != fare.value.userID {
        fare := None;
      }
    }
  }

  function FirstWith(fares: seq<Choice>, id: nat): Option<Choice> {
    if fares == [] then None else if fares[0].id == id then Some(fares[0]) else FirstWith(fares[1..], id)
  }

  function Lookup(s: Store, fareID: nat, userID: string, now: int): Option<RideFare> {
    if userID !in s.previews || now >= s.previews[userID].expiresAt then None
    else
      var p := s.previews[userID].preview;
      match FirstWith(p.fares, fareID)
      case None => None
      case Some(c) => Some(Offered(p.userID, p.route, c))
  }

  function Validate(s: Store, fareID: nat, userID: string, now: int): Option<RideFare> {
    var fare := Lookup(s, fareID, userID, now);
    if fare.Some? && fare.value.userID != userID then None else fare
  }

  // ---- Runs of previews by any users ----

  datatype Step = PreviewFor(userID: string, route: Route, now: int, saveFails: bool)

  function Apply(s: Store, step: Step): Store {
    var fares := Choices(step.route, s.nextId);
    Store(if step.saveFails then s.previews
          else s.previews[step.userID := Stored(Preview(step.userID, step.route, fares), step.now + RIDE_FARE_TTL)],
          s.nextId + |fares|)
  }

  function Exec(steps: seq<Step>): Store {
    if steps == [] then NO_PREVIEWS else Apply(Exec(steps[..|steps| - 1]), steps[|steps| - 1])
  }

  // The last preview of a user that was saved.
  function Latest(steps: seq<Step>, userID: string): Option<nat> {
    if steps == [] then None
    else if steps[|steps| - 1].userID == userID && !steps[|steps| - 1].saveFails then Some(|steps| - 1)
    else Latest(steps[..|steps| - 1], userID)
  }

  // The fares that step `i` of a run offered.
  function OfferedAt(steps: seq<Step>, i: nat): seq<Choice>
    requires i < |steps|
  {
    Choices(steps[i].route, Exec(steps[..i]).nextId)
  }

  ghost predicate HasId(fares: seq<Choice>, id: nat) {
    exists c :: c in fares && c.id == id
  }

  lemma {:induction false} LatestIsStored(steps: seq<Step>, userID: string)
    ensures Latest(steps, userID).Some? ==> Latest(steps, userID).value < |steps|
    ensures userID in Exec(steps).previews <==> Latest(steps, userID).Some?
    ensures Latest(steps, userID).Some? ==>
              var i := Latest(steps, userID).value;
              && steps[i].userID == userID && !steps[i].saveFails
              && Exec(steps).previews[userID]
                 == Stored(Preview(userID, steps[i].route, OfferedAt(steps, i)), steps[i].now + RIDE_FARE_TTL)
  {
    if steps != [] {
      var front := steps[..|steps| - 1];
      LatestIsStored(front, userID);
      if Latest(front, userID).Some? {
        assert front[..Latest(front, userID).value] == steps[..Latest(front, userID).value];
      }
    }
  }

  // Ids are unique: no id is offered by two different previews, of whatever users.
  lemma IdsAreUnique(steps: seq<Step>, i: nat, j: nat, id: nat)
    requires i < j < |steps|
    ensures !(HasId(OfferedAt(steps, i), id) && HasId(OfferedAt(steps, j), id))
  {
    IdsIncrease(steps, i, j);
  }

  lemma {:induction false} IdsIncrease(steps: seq<Step>, i: nat, j: nat)
    requires i < j < |steps|
    ensures Exec(steps[..i]).nextId + |OfferedAt(steps, i)| <= Exec(steps[..j]).nextId
    decreases j
  {
    assert steps[..j][..j - 1] == steps[..j - 1];
    if i < j - 1 {
      IdsIncrease(steps, i, j - 1);
    }
  }

  lemma FirstWithId(route: Route, first: nat, id: nat)
    ensures FirstWith(Choices(route, first), id).Some? <==> HasId(Choices(route, first), id)
    ensures HasId(Choices(route, first), id) <==> route != [] && first <= id < first + |BASE_FARES|
    ensures HasId(Choices(route, first), id) ==>
              FirstWith(Choices(route, first), id)
              == Some(Choice(id, BASE_FARES[id - first].slug, Quote(BASE_FARES[id - first].price, route[0])))
  {
    var fares := Choices(route, first);
    if route != [] {
      assert FirstWith(fares[4..], id) == None;
      assert fares[3..][1..] == fares[4..] && fares[2..][1..] == fares[3..] && fares[1..][1..] == fares[2..];
      assert forall i :: 0 <= i < 4 ==> fares[i] in fares && fares[i].id == first + i;
      assert FirstWith(fares[3..], id).Some? <==> id == first + 3;
      assert FirstWith(fares[2..], id) == if id == first + 2 then Some(fares[2]) else FirstWith(fares[3..], id);
      assert FirstWith(fares[1..], id) == if id == first + 1 then Some(fares[1]) else FirstWith(fares[2..], id);
    }
  }

  // What a preview offers along a route, package by package, and nothing without one.
  lemma OfferedPrices(route: Route, first: nat)
    ensures route == [] ==> Choices(route, first) == []
    ensures route != [] ==>
              var extra := 1.5 * route[0].distance + 0.25 * route[0].duration;
              Choices(route, first)
              == [Choice(first, "van", 100.0 + extra), Choice(first + 1, "suv", 150.0 + extra),
                  Choice(first + 2, "sedan", 250.0 + extra), Choice(first + 3, "luxury", 400.0 + extra)]
  {
  }

  // After any previews by any users, a fare validates for a user exactly when his latest saved
  // preview offered it and has not expired; and it carries that preview's route, the user, and
  // the base fare plus the charges for distance and time.
  lemma ValidIffOfferedLatest(steps: seq<Step>, userID: string, fareID: nat, now: int)
    ensures var fare := Validate(Exec(steps), fareID, userID, now);
            var latest := Latest(steps, userID);
            && (latest.Some? ==> latest.value < |steps|)
            && (fare.Some? <==> latest.Some? && now < steps[latest.value].now + 20 * 60
                                && HasId(OfferedAt(steps, latest.value), fareID))
            && (fare.Some? ==>
                  && fare.value.id == fareID && fare.value.userID == userID
                  && fare.value.route == steps[latest.value].route != []
                  && exists p :: p in BASE_FARES && fare.value.packageSlug == p.slug
                        && fare.value.totalPriceInCents
                            == p.price + 1.5 * fare.value.route[0].distance + 0.25 * fare.value.route[0].duration)
  {
    LatestIsStored(steps, userID);
    var latest := Latest(steps, userID);
    if latest.Some? {
      var first := Exec(steps[..latest.value]).nextId;
      FirstWithId(steps[latest.value].route, first, fareID);
      if HasId(OfferedAt(steps, latest.value), fareID) {
        assert BASE_FARES[fareID - first] in BASE_FARES;
      }
    }
  }

  // A fare of an older preview, or of somebody else's, never validates.
  lemma StaleFareRejected(steps: seq<Step>, i: nat, userID: string, fareID: nat, now: int)
    requires i < |steps| && HasId(OfferedAt(steps, i), fareID) && Latest(steps, userID) != Some(i)
    ensures Validate(Exec(steps), fareID, userID, now).None?
  {
    ValidIffOfferedLatest(steps, userID, fareID, now);
    var latest := Latest(steps, userID);
    if latest.Some? && HasId(OfferedAt(steps, latest.value), fareID) {
      if latest.value < i {
        IdsAreUnique(steps, latest.value, i, fareID);
      } else {
        IdsAreUnique(steps, i, latest.value, fareID);
      }
    }
  }
}
