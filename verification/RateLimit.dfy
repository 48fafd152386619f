// services/api-gateway/ratelimit.go: the fixed-window rate limiter over timed request traces.
module RateLimit {
  import opened Failing
  import opened Numbers
  import opened Options

  datatype Request = Request(time: int, key: string, fault: Fault)

  // A Redis counter and the time at which it expires.
  datatype Counter = Counter(count: nat, expiresAt: int)

  type Store = map<string, Counter>

  function Find(store: Store, key: string): Option<Counter> {
    if key in store then Some(store[key]) else None
  }

  predicate Alive(c: Option<Counter>, now: int) {
    c.Some? && now < c.value.expiresAt
  }

  // The script: increment, and set the expiry with the first increment.
  function Tick(c: Option<Counter>, now: int, window: int): Counter {
    var current := if Alive(c, now) then c.value.count + 1 else 1;
    Counter(current, if current == 1 then now + window else c.value.expiresAt)
  }

  class RateLimiter {
    var store: Store

    constructor ()
      ensures store == map[]
    {
      store := map[];
    }

    method RunScript(key: string, now: int, window: int) returns (current: nat)
      modifies this
      ensures store == old(store)[key := Tick(Find(old(store), key), now, window)] && current == store[key].count
    {
      current := if Alive(Find(store, key), now) then store[key].count + 1 else 1;
      var expiresAt := if key in store then store[key].expiresAt else 0;
      if current == 1 {
        expiresAt := now + window;
      }
      store := store[key := Counter(current, expiresAt)];
    }

    // Requests without a key, and requests whose count fails, always pass.
    method Limit(limit: int, window: int, r: Request) returns (allowed: bool)
      modifies this
      ensures store == Next(old(store), window, r)
      ensures allowed == Allows(old(store), limit, window, r)
    {
      if r.key == "" || r.fault == FailsBefore {
        return true;
      }
      var count := RunScript(r.key, r.time, window);
      allowed := r.fault != Works || count <= limit;
    }
  }

  function Next(store: Store, window: int, r: Request): Store {
    if r.key == "" || r.fault == FailsBefore then store else store[r.key := Tick(Find(store, r.key), r.time, window)]
  }

  predicate Allows(store: Store, limit: int, window: int, r: Request) {
    r.key == "" || r.fault != Works || Tick(Find(store, r.key), r.time, window).count <= limit
  }

  // The request is counted among the first `limit` of its window.
  predicate TakesPlace(store: Store, limit: int, window: int, r: Request) {
    r.key != "" && r.fault != FailsBefore && Tick(Find(store, r.key), r.time, window).count <= limit
  }

  // Who passes whatever the counters say, and who passes by them.
  lemma PassesIff(store: Store, limit: int, window: int, r: Request)
    ensures r.key == "" ==> Allows(store, limit, window, r) && Next(store, window, r) == store
    ensures r.fault != Works ==> Allows(store, limit, window, r)
    ensures r.key != "" && r.fault == Works ==>
              (Allows(store, limit, window, r) <==> Next(store, window, r)[r.key].count <= limit)
  {
  }

  // ---- Traces ----

  function StoreAfter(window: int, trace: seq<Request>): Store {
    if trace == [] then map[]
    else Next(StoreAfter(window, trace[..|trace| - 1]), window, trace[|trace| - 1])
  }

  predicate Admits(limit: int, window: int, trace: seq<Request>)
    requires trace != []
  {
    Allows(StoreAfter(window, trace[..|trace| - 1]), limit, window, trace[|trace| - 1])
  }

  // The admitted requests of a key at times in [from, to).
  function AdmittedIn(limit: int, window: int, trace: seq<Request>, key: string, from: int, to: int): nat {
    if trace == [] then 0
    else
      var last := trace[|trace| - 1];
      AdmittedIn(limit, window, trace[..|trace| - 1], key, from, to)
      + if last.key == key && from <= last.time < to && Admits(limit, window, trace) then 1 else 0
  }

  // The requests of a key that took a place, at times in [from, to) and from a time on.
  function PlacesIn(limit: int, window: int, trace: seq<Request>, key: string, from: int, to: int): nat {
    if trace == [] then 0
    else
      var front, last := trace[..|trace| - 1], trace[|trace| - 1];
      PlacesIn(limit, window, front, key, from, to)
      + if last.key == key && from <= last.time < to && TakesPlace(StoreAfter(window, front), limit, window, last)
        then 1 else 0
  }

  function PlacesFrom(limit: int, window: int, trace: seq<Request>, key: string, from: int): nat {
    if trace == [] then 0
    else
      var front, last := trace[..|trace| - 1], trace[|trace| - 1];
      PlacesFrom(limit, window, front, key, from)
      + if last.key == key && from <= last.time && TakesPlace(StoreAfter(window, front), limit, window, last)
        then 1 else 0
  }

  // The requests of a key whose count failed, at times in [from, to).
  function ErrorsIn(trace: seq<Request>, key: string, from: int, to: int): nat {
    if trace == [] then 0
    else
      var last := trace[|trace| - 1];
      ErrorsIn(trace[..|trace| - 1], key, from, to)
      + if last.key == key && from <= last.time < to && last.fault != Works then 1 else 0
  }

  // Who is admitted took a place or suffered an error; without errors the two are the same.
  lemma {:induction false} AdmittedByPlaceOrError(limit: int, window: int, trace: seq<Request>, key: string,
                                                  from: int, to: int)
    requires key != ""
    ensures AdmittedIn(limit, window, trace, key, from, to)
         <= PlacesIn(limit, window, trace, key, from, to) + ErrorsIn(trace, key, from, to)
    ensures ErrorsIn(trace, key, from, to) == 0 ==>
              AdmittedIn(limit, window, trace, key, from, to) == PlacesIn(limit, window, trace, key, from, to)
  {
    if trace != [] {
      AdmittedByPlaceOrError(limit, window, trace[..|trace| - 1], key, from, to);
    }
  }

  lemma {:induction false} InIsDifference(limit: int, window: int, trace: seq<Request>, key: string, from: int, to: int)
    requires from <= to
    ensures PlacesIn(limit, window, trace, key, from, to)
         == PlacesFrom(limit, window, trace, key, from) - PlacesFrom(limit, window, trace, key, to)
  {
    if trace != [] {
      InIsDifference(limit, window, trace[..|trace| - 1], key, from, to);
    }
  }

  // Time does not run backwards.
  ghost predicate Timely(trace: seq<Request>) {
    forall i, j :: 0 <= i < j < |trace| ==> trace[i].time <= trace[j].time
  }

  // The places taken from each time on, when the current window opened at `start` and its
  // counter stands at `count`.
  ghost predicate Shape(limit: int, window: int, start: int, count: int, from: int -> int) {
    && count >= 1
    && (forall a :: from(a) >= 0)
    && (forall a :: a >= start + window ==> from(a) == 0)
    && from(start) == Min(count, limit)
    // The window's first request came when it opened.
    && (forall a :: a > start ==> from(a) <= Min(count, limit) - 1)
    // Fewer than `limit` places lie within one window length before the opening.
    && (forall a :: start - window < a <= start ==> from(a) - from(start) <= limit - 1)
  }

  ghost predicate Bounded(limit: int, window: int, from: int -> int) {
    forall a, b :: b == a + window ==> from(a) - from(b) <= 2 * limit - 1
  }

  // One more request at `time` within the window.
  lemma WithinShape(limit: int, window: int, start: int, count: int, from: int -> int, from': int -> int, time: int)
    requires limit >= 1 && window >= 1 && start <= time < start + window
    requires Shape(limit, window, start, count, from) && Bounded(limit, window, from)
    requires forall a :: from'(a) == from(a) + if a <= time && count + 1 <= limit then 1 else 0
    ensures Shape(limit, window, start, count + 1, from') && Bounded(limit, window, from')
  {
    forall a, b | b == a + window ensures from'(a) - from'(b) <= 2 * limit - 1 {
      if a <= time < b {
        if a <= start {
          assert from(a) - from(start) <= limit - 1;
        } else {
          assert from(a) <= limit;
        }
      }
    }
  }

  // A request at `time`, after the window has expired, opens the next one.
  lemma OpeningShape(limit: int, window: int, start: int, count: int, from: int -> int, from': int -> int, time: int)
    requires limit >= 1 && window >= 1 && start + window <= time
    requires Shape(limit, window, start, count, from) && Bounded(limit, window, from)
    requires forall a :: from'(a) == from(a) + if a <= time then 1 else 0
    ensures Shape(limit, window, time, 1, from') && Bounded(limit, window, from')
  {
    forall a, b | b == a + window ensures from'(a) - from'(b) <= 2 * limit - 1 {
      if a <= time < b {
        assert a > start;
        assert from(b) == 0;
      }
    }
  }

  // The very first request of a key.
  lemma FirstShape(limit: int, window: int, from': int -> int, time: int)
    requires limit >= 1 && window >= 1
    requires forall a :: from'(a) == if a <= time then 1 else 0
    ensures Shape(limit, window, time, 1, from') && Bounded(limit, window, from')
  {
  }

  ghost function From(limit: int, window: int, trace: seq<Request>, key: string): int -> int {
    a => PlacesFrom(limit, window, trace, key, a)
  }

  // What a counter says about the places of its key.
  ghost predicate Describes(limit: int, window: int, c: Option<Counter>, from: int -> int) {
    if c.None? then forall a :: from(a) == 0
    else Shape(limit, window, c.value.expiresAt - window, c.value.count, from) && Bounded(limit, window, from)
  }

  lemma TickDescribes(limit: int, window: int, c: Option<Counter>, now: int, from: int -> int, from': int -> int)
    requires limit >= 1 && window >= 1
    requires c.Some? ==> c.value.expiresAt - window <= now
    requires Describes(limit, window, c, from)
    requires forall a :: from'(a) == from(a) + if a <= now && Tick(c, now, window).count <= limit then 1 else 0
    ensures Describes(limit, window, Some(Tick(c, now, window)), from')
  {
    if c.None? {
      FirstShape(limit, window, from', now);
    } else if Alive(c, now) {
      TickWithin(limit, window, c.value, now, from, from');
    } else {
      OpeningShape(limit, window, c.value.expiresAt - window, c.value.count, from, from', now);
    }
  }

  lemma TickWithin(limit: int, window: int, c: Counter, now: int, from: int -> int, from': int -> int)
    requires limit >= 1 && window >= 1 && c.expiresAt - window <= now < c.expiresAt
    requires Describes(limit, window, Some(c), from)
    requires forall a :: from'(a) == from(a) + if a <= now && c.count + 1 <= limit then 1 else 0
    ensures Tick(Some(c), now, window) == c.(count := c.count + 1)
    ensures Describes(limit, window, Some(c.(count := c.count + 1)), from')
  {
    WithinShape(limit, window, c.expiresAt - window, c.count, from, from', now);
  }

  lemma SameDescribes(limit: int, window: int, c: Option<Counter>, from: int -> int, from': int -> int)
    requires Describes(limit, window, c, from)
    requires forall a :: from'(a) == from(a)
    ensures Describes(limit, window, c, from')
  {
  }

  // How one more request changes the counts.
  lemma FromNext(limit: int, window: int, trace: seq<Request>, r: Request, key: string, a: int)
    ensures PlacesFrom(limit, window, trace + [r], key, a)
         == PlacesFrom(limit, window, trace, key, a)
            + if a <= r.time && r.key == key && TakesPlace(StoreAfter(window, trace), limit, window, r) then 1 else 0
    ensures StoreAfter(window, trace + [r]) == Next(StoreAfter(window, trace), window, r)
  {
    assert (trace + [r])[..|trace|] == trace;
  }

  lemma FromStep(limit: int, window: int, trace: seq<Request>, r: Request, key: string, from: int -> int,
                 from': int -> int)
    requires from == From(limit, window, trace, key) && from' == From(limit, window, trace + [r], key)
    ensures var place := r.key == key && TakesPlace(StoreAfter(window, trace), limit, window, r);
            forall a :: from'(a) == from(a) + if a <= r.time && place then 1 else 0
  {
    var place := r.key == key && TakesPlace(StoreAfter(window, trace), limit, window, r);
    forall a ensures from'(a) == from(a) + if a <= r.time && place then 1 else 0 {
      FromNext(limit, window, trace, r, key, a);
    }
  }

  // A window is never opened in the future.
  lemma {:induction false} OpenedInThePast(window: int, trace: seq<Request>, key: string)
    requires Timely(trace) && window >= 1 && trace != []
    ensures key in StoreAfter(window, trace) ==>
              StoreAfter(window, trace)[key].expiresAt - window <= trace[|trace| - 1].time
    ensures key in StoreAfter(window, trace) ==> StoreAfter(window, trace)[key].count >= 1
  {
    var front := trace[..|trace| - 1];
    if front != [] {
      OpenedInThePast(window, front, key);
      assert front[|front| - 1].time <= trace[|trace| - 1].time;
    }
  }

  // One more request of the key whose count is taken.
  lemma CountedHolds(limit: int, window: int, trace: seq<Request>, r: Request, key: string)
    requires limit >= 1 && window >= 1 && key != "" && Timely(trace + [r])
    requires r.key == key && r.fault != FailsBefore
    requires Describes(limit, window, Find(StoreAfter(window, trace), key), From(limit, window, trace, key))
    ensures Describes(limit, window, Find(StoreAfter(window, trace + [r]), key), From(limit, window, trace + [r], key))
  {
    var c := Find(StoreAfter(window, trace), key);
    var from, from' := From(limit, window, trace, key), From(limit, window, trace + [r], key);
    FromStep(limit, window, trace, r, key, from, from');
    FromNext(limit, window, trace, r, key, 0);
    if trace != [] {
      TimelyFront(trace, r);
      OpenedInThePast(window, trace, key);
    }
    TickDescribes(limit, window, c, r.time, from, from');
  }

  lemma TimelyFront(trace: seq<Request>, r: Request)
    requires Timely(trace + [r])
    ensures Timely(trace) && (trace != [] ==> trace[|trace| - 1].time <= r.time)
  {
    var whole := trace + [r];
    forall i, j | 0 <= i < j < |trace| ensures trace[i].time <= trace[j].time {
      assert whole[i].time <= whole[j].time;
    }
    if trace != [] {
      assert whole[|trace| - 1].time <= whole[|trace|].time;
    }
  }

  lemma {:induction false} TraceHolds(limit: int, window: int, trace: seq<Request>, key: string)
    requires limit >= 1 && window >= 1 && key != "" && Timely(trace)
    ensures Describes(limit, window, Find(StoreAfter(window, trace), key), From(limit, window, trace, key))
  {
    if trace != [] {
      var front, last := trace[..|trace| - 1], trace[|trace| - 1];
      assert trace == front + [last];
      TimelyFront(front, last);
      TraceHolds(limit, window, front, key);
      if last.key == key && last.fault != FailsBefore {
        CountedHolds(limit, window, front, last, key);
      } else {
        OtherHolds(limit, window, front, last, key);
      }
    }
  }

  lemma OtherHolds(limit: int, window: int, trace: seq<Request>, r: Request, key: string)
    requires r.key != key || r.fault == FailsBefore
    requires Describes(limit, window, Find(StoreAfter(window, trace), key), From(limit, window, trace, key))
    ensures Describes(limit, window, Find(StoreAfter(window, trace + [r]), key), From(limit, window, trace + [r], key))
  {
    var from, from' := From(limit, window, trace, key), From(limit, window, trace + [r], key);
    FromStep(limit, window, trace, r, key, from, from');
    FromNext(limit, window, trace, r, key, 0);
    SameDescribes(limit, window, Find(StoreAfter(window, trace), key), from, from');
  }

  lemma {:induction false} NothingBelowOne(limit: int, window: int, trace: seq<Request>, key: string, from: int,
                                           to: int)
    requires limit < 1
    ensures PlacesIn(limit, window, trace, key, from, to) == 0
  {
    if trace != [] {
      NothingBelowOne(limit, window, trace[..|trace| - 1], key, from, to);
    }
  }

  lemma {:induction false} NothingInEmptyInterval(limit: int, window: int, trace: seq<Request>, key: string,
                                                  from: int, to: int)
    requires to <= from
    ensures PlacesIn(limit, window, trace, key, from, to) == 0
  {
    if trace != [] {
      NothingInEmptyInterval(limit, window, trace[..|trace| - 1], key, from, to);
    }
  }

  lemma PlacesBound(limit: int, window: int, trace: seq<Request>, key: string, from: int)
    requires key != "" && Timely(trace)
    ensures PlacesIn(limit, window, trace, key, from, from + window) <= if limit < 1 then 0 else 2 * limit - 1
  {
    if limit < 1 {
      NothingBelowOne(limit, window, trace, key, from, from + window);
    } else if window < 1 {
      NothingInEmptyInterval(limit, window, trace, key, from, from + window);
    } else {
      TraceHolds(limit, window, trace, key);
      InIsDifference(limit, window, trace, key, from, from + window);
      var f := From(limit, window, trace, key);
      assert f(from) - f(from + window) <= 2 * limit - 1;
    }
  }

  // For every trace, every half-open interval as long as the window holds at most 2 * limit - 1
  // admissions of a key (none for a limit below one) besides those that a Redis error lets through.
  lemma SlidingBound(limit: int, window: int, trace: seq<Request>, key: string, from: int)
    requires key != "" && Timely(trace)
    ensures AdmittedIn(limit, window, trace, key, from, from + window)
         <= (if limit < 1 then 0 else 2 * limit - 1) + ErrorsIn(trace, key, from, from + window)
  {
    AdmittedByPlaceOrError(limit, window, trace, key, from, from + window);
    PlacesBound(limit, window, trace, key, from);
  }

  // At any moment, the window that is open has admitted as many requests as it counted, up to the
  // limit, besides those that a Redis error let through.
  lemma WindowBound(limit: int, window: int, trace: seq<Request>, key: string)
    requires limit >= 1 && window >= 1 && key != "" && Timely(trace) && key in StoreAfter(window, trace)
    ensures var c := StoreAfter(window, trace)[key];
            var admitted := AdmittedIn(limit, window, trace, key, c.expiresAt - window, c.expiresAt);
            var errors := ErrorsIn(trace, key, c.expiresAt - window, c.expiresAt);
            admitted <= Min(c.count, limit) + errors && (errors == 0 ==> admitted == Min(c.count, limit))
  {
    TraceHolds(limit, window, trace, key);
    var c := StoreAfter(window, trace)[key];
    InIsDifference(limit, window, trace, key, c.expiresAt - window, c.expiresAt);
    AdmittedByPlaceOrError(limit, window, trace, key, c.expiresAt - window, c.expiresAt);
    var f := From(limit, window, trace, key);
    assert f(c.expiresAt) == 0 && f(c.expiresAt - window) == Min(c.count, limit);
  }

  // ---- The bound is sharp ----

  function Burst(key: string, time: int, n: nat): seq<Request> {
    seq(n, _ => Request(time, key, Works))
  }

  // One more request within an open window.
  lemma OneWithin(limit: int, window: int, trace: seq<Request>, key: string, c: Counter, time: int, from: int, to: int)
    requires key != "" && Find(StoreAfter(window, trace), key) == Some(c)
    requires time < c.expiresAt && from <= time < to && 1 <= c.count < limit
    ensures Find(StoreAfter(window, trace + [Request(time, key, Works)]), key)
         == Some(Counter(c.count + 1, c.expiresAt))
    ensures AdmittedIn(limit, window, trace + [Request(time, key, Works)], key, from, to)
        == AdmittedIn(limit, window, trace, key, from, to) + 1
  {
    assert (trace + [Request(time, key, Works)])[..|trace|] == trace;
  }

  lemma BurstGrows(trace: seq<Request>, key: string, time: int, n: nat)
    requires n >= 1
    ensures trace + Burst(key, time, n) == trace + Burst(key, time, n - 1) + [Request(time, key, Works)]
  {
    assert Burst(key, time, n) == Burst(key, time, n - 1) + [Request(time, key, Works)];
  }

  // A trace in which the key's counter stands at `count` and so many requests were admitted.
  ghost predicate StandsAt(limit: int, window: int, trace: seq<Request>, key: string, c: Counter, from: int, to: int,
                           admitted: nat)
  {
    Find(StoreAfter(window, trace), key) == Some(c) && AdmittedIn(limit, window, trace, key, from, to) == admitted
  }

  lemma OneMore(limit: int, window: int, trace: seq<Request>, after: seq<Request>, key: string, c: Counter, time: int,
                from: int, to: int, admitted: nat)
    requires StandsAt(limit, window, trace, key, c, from, to, admitted)
    requires key != "" && time < c.expiresAt && from <= time < to && 1 <= c.count < limit
    requires after == trace + [Request(time, key, Works)]
    ensures StandsAt(limit, window, after, key, Counter(c.count + 1, c.expiresAt), from, to, admitted + 1)
  {
    OneWithin(limit, window, trace, key, c, time, from, to);
  }

  // `n` requests at a time within an open window.
  lemma {:induction false} BurstWithin(limit: int, window: int, trace: seq<Request>, key: string, c: Counter,
                                       time: int, n: nat, from: int, to: int, admitted: nat)
    requires StandsAt(limit, window, trace, key, c, from, to, admitted)
    requires key != "" && time < c.expiresAt && from <= time < to && 1 <= c.count && c.count + n <= limit
    ensures StandsAt(limit, window, trace + Burst(key, time, n), key, Counter(c.count + n, c.expiresAt), from, to,
                     admitted + n)
  {
    if n == 0 {
      assert trace + Burst(key, time, 0) == trace;
    } else {
      BurstWithin(limit, window, trace, key, c, time, n - 1, from, to, admitted);
      BurstGrows(trace, key, time, n);
      OneMore(limit, window, trace + Burst(key, time, n - 1), trace + Burst(key, time, n), key,
              Counter(c.count + n - 1, c.expiresAt), time, from, to, admitted + n - 1);
    }
  }

  // One request, then the rest of the limit at the end of its window, then the limit again as soon
  // as the window has expired.
  function Worst(limit: nat, window: nat, key: string): seq<Request>
    requires limit >= 1 && window >= 2
  {
    [Request(0, key, Works)] + Burst(key, window - 1, limit - 1) + [Request(window, key, Works)]
        + Burst(key, window, limit - 1)
  }

  lemma WorstIsTimely(limit: nat, window: nat, key: string)
    requires limit >= 1 && window >= 2
    ensures Timely(Worst(limit, window, key))
  {
    var trace := Worst(limit, window, key);
    assert forall i :: 0 <= i < |trace| ==>
        trace[i] == Request(if i == 0 then 0 else if i < limit then window - 1 else window, key, Works);
  }

  lemma FirstRequest(limit: nat, window: nat, key: string)
    requires window >= 1 && key != ""
    ensures StandsAt(limit, window, [Request(0, key, Works)], key, Counter(1, window), 1, 1 + window, 0)
  {
    assert [Request(0, key, Works)][..0] == [];
    assert StoreAfter(window, []) == map[];
    assert AdmittedIn(limit, window, [], key, 1, 1 + window) == 0;
  }

  // The first request after the window has expired.
  lemma Reopens(limit: nat, window: nat, trace: seq<Request>, key: string, admitted: nat)
    requires limit >= 1 && window >= 1 && key != ""
    requires StandsAt(limit, window, trace, key, Counter(limit, window), 1, 1 + window, admitted)
    ensures StandsAt(limit, window, trace + [Request(window, key, Works)], key, Counter(1, window + window),
                     1, 1 + window, admitted + 1)
  {
    assert (trace + [Request(window, key, Works)])[..|trace|] == trace;
  }

  lemma TwoWindows(limit: nat, window: nat, first: seq<Request>, key: string)
    requires limit >= 1 && window >= 2 && key != ""
    requires StandsAt(limit, window, first, key, Counter(1, window), 1, 1 + window, 0)
    ensures StandsAt(limit, window,
                     first + Burst(key, window - 1, limit - 1) + [Request(window, key, Works)]
                         + Burst(key, window, limit - 1),
                     key, Counter(limit, window + window), 1, 1 + window, 2 * limit - 1)
  {
    BurstWithin(limit, window, first, key, Counter(1, window), window - 1, limit - 1, 1, 1 + window, 0);
    var full := first + Burst(key, window - 1, limit - 1);
    Reopens(limit, window, full, key, limit - 1);
    var again := full + [Request(window, key, Works)];
    BurstWithin(limit, window, again, key, Counter(1, window + window), window, limit - 1, 1, 1 + window, limit);
  }

  // Within one window length, 2 * limit - 1 requests of that trace get through.
  lemma BoundIsSharp(limit: nat, window: nat, key: string)
    requires limit >= 1 && window >= 2 && key != ""
    ensures Timely(Worst(limit, window, key))
    ensures AdmittedIn(limit, window, Worst(limit, window, key), key, 1, 1 + window) == 2 * limit - 1
  {
    WorstIsTimely(limit, window, key);
    FirstRequest(limit, window, key);
    TwoWindows(limit, window, [Request(0, key, Works)], key);
  }
}
