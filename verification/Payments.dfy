// services/payment-service: creating a payment session for a trip at most once, and telling the
// rider about it.
module Payments {
  import opened Failing
  import opened Numbers
  import opened Options

  // The amount in whole cents: the conversion drops the fraction.
  function Cents(amount: real): int {
    Truncate(amount)
  }

  // What is charged stays below the quote, and by less than a cent, exactly for quotes that are not
  // negative (or have no fraction).
  lemma ChargeWithinACentIff(quote: real)
    ensures 0.0 <= quote - Cents(quote) as real < 1.0 <==> quote >= 0.0 || quote == Cents(quote) as real
    ensures -1.0 < quote - Cents(quote) as real < 1.0
  {
    if quote < 0.0 {
      assert (-quote).Floor as real <= -quote < (-quote).Floor as real + 1.0;
    }
  }

  datatype SessionCreated = SessionCreated(tripID: string, userID: string, sessionID: string, amount: real)

  // `created` is every session made at the payment processor, with its trip; `sent` the events.
  datatype World = World(sessions: map<string, string>, created: seq<(string, string)>, sent: seq<SessionCreated>)

  const START := World(map[], [], [])

  // One delivery of the payment command. `processor` is the id of the new session, or None when the
  // processor fails.
  datatype Call = Call(
    tripID: string, userID: string, amount: real,
    readFails: bool, processor: Option<string>, write: Fault, publish: Fault)

  function Stored(w: World, tripID: string): string {
    if tripID in w.sessions then w.sessions[tripID] else ""
  }

  datatype Session = Session(world: World, id: Option<string>)

  // A failed write of the new session id is only logged.
  function CreateSession(w: World, c: Call): Session {
    if c.readFails then Session(w, None)
    else if Stored(w, c.tripID) != "" then Session(w, Some(Stored(w, c.tripID)))
    else if c.processor.None? then Session(w, None)
    else
      Session(w.(created := w.created + [(c.tripID, c.processor.value)],
                 sessions := if c.write == FailsBefore then w.sessions else w.sessions[c.tripID := c.processor.value]),
              c.processor)
  }

  function Handle(w: World, c: Call): World {
    var s := CreateSession(w, c);
    if s.id.None? || c.publish == FailsBefore then s.world
    else
      var event := SessionCreated(c.tripID, c.userID, s.id.value, Cents(c.amount) as real / 100.0);
      s.world.(sent := s.world.sent + [event])
  }

  class PaymentConsumer {
    var sessions: map<string, string>
    var created: seq<(string, string)>
    var sent: seq<SessionCreated>

    constructor ()
      ensures View() == START
    {
      sessions, created, sent := map[], [], [];
    }

    function View(): World
      reads this
    {
      World(sessions, created, sent)
    }

    method CreatePaymentSession(c: Call) returns (id: Option<string>)
      modifies this
      ensures View() == CreateSession(old(View()), c).world && id == CreateSession(old(View()), c).id
    {
      if c.readFails {
        return None;
      }
      var existing := if c.tripID in sessions then sessions[c.tripID] else "";
      if existing != "" {
        return Some(existing);
      }
      if c.processor.None? {
        return None;
      }
      created := created + [(c.tripID, c.processor.value)];
      if c.write != FailsBefore {
        sessions := sessions[c.tripID := c.processor.value];
      }
      id := c.processor;
    }

    method HandleTripAccepted(c: Call) returns (ok: bool)
      modifies this
      ensures View() == Handle(old(View()), c)
      ensures ok <==> CreateSession(old(View()), c).id.Some? && c.publish == Works
    {
      var session := CreatePaymentSession(c);
      if session.None? {
        return false;
      }
      if c.publish != FailsBefore {
        var cents := Cents(c.amount);
        sent := sent + [SessionCreated(c.tripID, c.userID, session.value, cents as real / 100.0)];
      }
      ok := c.publish == Works;
    }
  }

  // What one command makes: nothing when the store cannot be read, when a session is stored already, or
  // when the processor fails; and otherwise one session, stored unless the write fails before it took
  // effect.
  lemma CommandMakes(w: World, c: Call)
    ensures var w' := Handle(w, c);
            if c.readFails || Stored(w, c.tripID) != "" || c.processor.None?
            then w'.created == w.created && w'.sessions == w.sessions
            else w'.created == w.created + [(c.tripID, c.processor.value)]
                 && w'.sessions == if c.write == FailsBefore then w.sessions
                                   else w.sessions[c.tripID := c.processor.value]
    ensures c.readFails || (Stored(w, c.tripID) == "" && c.processor.None?) ==> Handle(w, c) == w
  {
  }

  // What one command tells the rider: his trip, the session he pays in, and the amount in whole cents.
  lemma EventNames(w: World, c: Call)
    ensures var w' := Handle(w, c);
            var id := CreateSession(w, c).id;
            if id.Some? && c.publish != FailsBefore
            then w'.sent == w.sent + [SessionCreated(c.tripID, c.userID, id.value, Cents(c.amount) as real / 100.0)]
            else w'.sent == w.sent
  {
  }

  // ---- Any serial run of commands, within the lifetime of the stored ids ----

  function Exec(w: World, calls: seq<Call>): World
    decreases |calls|
  {
    if calls == [] then w else Exec(Handle(w, calls[0]), calls[1..])
  }

  // The processor never hands out an empty id.
  predicate Proper(calls: seq<Call>) {
    forall c :: c in calls ==> c.processor != Some("")
  }

  function CreatedFor(created: seq<(string, string)>, tripID: string): nat {
    if created == [] then 0
    else CreatedFor(created[..|created| - 1], tripID) + if created[|created| - 1].0 == tripID then 1 else 0
  }

  // The calls that made a session for the trip and whose write did not take effect, or reported an
  // error.
  ghost function Writes(w: World, calls: seq<Call>, tripID: string, fault: Fault): nat
    decreases |calls|
  {
    if calls == [] then 0
    else
      var c := calls[0];
      (if c.tripID == tripID && Handle(w, c).created != w.created && c.write == fault then 1 else 0)
         + Writes(Handle(w, calls[0]), calls[1..], tripID, fault)
  }

  lemma CallCreates(w: World, c: Call, tripID: string)
    requires c.processor != Some("")
    ensures var w' := Handle(w, c);
            && CreatedFor(w'.created, tripID)
               == CreatedFor(w.created, tripID) + (if c.tripID == tripID && w'.created != w.created then 1 else 0)
            && (w'.created != w.created ==> Stored(w, c.tripID) == "")
            && Stored(w', tripID) == (if c.tripID == tripID && w'.created != w.created && c.write != FailsBefore
                                      then c.processor.value else Stored(w, tripID))
  {
    var w' := Handle(w, c);
    if w'.created != w.created {
      assert w'.created[..|w.created|] == w.created;
    }
  }

  // The sessions made for a trip are those whose id was lost, plus one once an id is stored; so
  // there are at most one more than failed writes.
  lemma {:induction false} SessionsPerFailedWrite(w: World, calls: seq<Call>, tripID: string)
    requires Proper(calls)
    ensures var w' := Exec(w, calls);
            CreatedFor(w'.created, tripID) - CreatedFor(w.created, tripID)
              == Writes(w, calls, tripID, FailsBefore)
                 + (if Stored(w', tripID) != "" && Stored(w, tripID) == "" then 1 else 0)
    ensures Stored(w, tripID) != "" ==> Stored(Exec(w, calls), tripID) == Stored(w, tripID)
    decreases |calls|
  {
    if calls != [] {
      assert calls[0] in calls;
      assert forall c :: c in calls[1..] ==> c in calls;
      CallCreates(w, calls[0], tripID);
      SessionsPerFailedWrite(Handle(w, calls[0]), calls[1..], tripID);
    }
  }

  // Once an id is stored, every later command either fails before it has an id or gets that one,
  // and no further session is made for the trip.
  lemma StoredIdStays(w: World, calls: seq<Call>, c: Call)
    requires Proper(calls) && Stored(w, c.tripID) != ""
    ensures var w' := Exec(w, calls);
            && CreatedFor(w'.created, c.tripID) == CreatedFor(w.created, c.tripID)
            && (CreateSession(w', c).id.Some? ==> CreateSession(w', c).id.value == Stored(w, c.tripID))
            && CreateSession(w', c).world == w'
  {
    SessionsPerFailedWrite(w, calls, c.tripID);
    NoLostWrites(w, calls, c.tripID);
  }

  lemma {:induction false} NoLostWrites(w: World, calls: seq<Call>, tripID: string)
    requires Proper(calls) && Stored(w, tripID) != ""
    ensures Writes(w, calls, tripID, FailsBefore) == 0
    decreases |calls|
  {
    if calls != [] {
      assert calls[0] in calls;
      assert forall c :: c in calls[1..] ==> c in calls;
      CallCreates(w, calls[0], tripID);
      NoLostWrites(Handle(w, calls[0]), calls[1..], tripID);
    }
  }

  // ---- Which session the rider is told ----

  // Every stored id and every announced session was made at the processor for that trip.
  ghost predicate Genuine(w: World) {
    && (forall t :: t in w.sessions ==> (t, w.sessions[t]) in w.created)
    && (forall e :: e in w.sent ==> (e.tripID, e.sessionID) in w.created)
  }

  lemma CallGenuine(w: World, c: Call)
    requires Genuine(w)
    ensures Genuine(Handle(w, c))
  {
    var w' := Handle(w, c);
    if w'.created != w.created {
      assert w'.created[|w.created|] == (c.tripID, c.processor.value);
    }
  }

  lemma {:induction false} RunGenuine(w: World, calls: seq<Call>)
    requires Genuine(w)
    ensures Genuine(Exec(w, calls))
    decreases |calls|
  {
    if calls != [] {
      CallGenuine(w, calls[0]);
      RunGenuine(Handle(w, calls[0]), calls[1..]);
    }
  }

  // Over every run: a rider is only ever told sessions that were made for that trip.
  lemma AnnouncedWasMade(calls: seq<Call>, e: SessionCreated)
    requires e in Exec(START, calls).sent
    ensures (e.tripID, e.sessionID) in Exec(START, calls).created
  {
    RunGenuine(START, calls);
  }

  lemma Suffixes(x: seq<SessionCreated>, y: seq<SessionCreated>, z: seq<SessionCreated>)
    requires x <= y <= z
    ensures x <= z && forall e :: e in z[|x|..] ==> e in y[|x|..] || e in z[|y|..]
  {
    assert z[|x|..] == y[|x|..] + z[|y|..];
  }

  // Once an id is stored, every later event of that trip carries it.
  lemma {:induction false} AnnouncedIsStored(w: World, calls: seq<Call>, tripID: string)
    requires Proper(calls) && Stored(w, tripID) != ""
    ensures w.sent <= Exec(w, calls).sent
    ensures forall e :: e in Exec(w, calls).sent[|w.sent|..] && e.tripID == tripID ==> e.sessionID == Stored(w, tripID)
    decreases |calls|
  {
    if calls != [] {
      assert calls[0] in calls;
      assert forall c :: c in calls[1..] ==> c in calls;
      var w' := Handle(w, calls[0]);
      CallCreates(w, calls[0], tripID);
      EventNames(w, calls[0]);
      AnnouncedIsStored(w', calls[1..], tripID);
      Suffixes(w.sent, w'.sent, Exec(w', calls[1..]).sent);
    }
  }
}
