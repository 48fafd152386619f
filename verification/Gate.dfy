// services/ws-gateway/ratelimit.go and services/api-gateway/ratelimit.go: how many WebSocket
// connections of one user may be open at once.
module Gate {
  import opened Failing
  import opened Options

  // ---- The gate of the ws gateway ----

  // The Redis key of a user, None when it does not exist, and what the commands on it do.
  type Counter = Option<int>

  function Value(counter: Counter): int {
    if counter.None? then 0 else counter.value
  }

  function Incremented(counter: Counter, fault: Fault): Counter {
    if fault == FailsBefore then counter else Some(Value(counter) + 1)
  }

  function Decremented(counter: Counter, fault: Fault): Counter {
    if fault == FailsBefore then counter else Some(Value(counter) - 1)
  }

  function Deleted(counter: Counter, fault: Fault): Counter {
    if fault == FailsBefore then counter else None
  }

  class WsGate {
    var counter: Counter

    constructor ()
      ensures counter == None
    {
      counter := None;
    }

    // A rejected attempt stays counted. When Redis fails the connection is let in, and `counted`
    // says whether its release will decrement.
    method WsConnectionGate(max: int, fault: Fault) returns (allowed: bool, counted: bool)
      modifies this
      ensures counter == Incremented(old(counter), fault)
      ensures allowed <==> fault != Works || Value(old(counter)) + 1 <= max
      ensures counted <==> allowed && fault == Works
    {
      var count := if counter.None? then 1 else counter.value + 1;
      if fault != FailsBefore {
        counter := Some(count);
      }
      if fault != Works {
        return true, false;
      }
      allowed := count <= max;
      counted := allowed;
    }

    // The release of a counted connection.
    method Release(decrement: Fault, delete: Fault)
      modifies this
      ensures counter == if decrement == Works && Value(old(counter)) - 1 <= 0
                         then Deleted(Decremented(old(counter), Works), delete)
                         else Decremented(old(counter), decrement)
    {
      var remaining := if counter.None? then -1 else counter.value - 1;
      if decrement != FailsBefore {
        counter := Some(remaining);
      }
      if decrement != Works {
        return;
      }
      if remaining <= 0 && delete != FailsBefore {
        counter := None;
      }
    }
  }

  // Not stored anywhere: the counted connections still open; what is counted without one (attempts
  // rejected since the key was last created, and increments and decrements that Redis failed to
  // confirm); the releases that have decremented to zero or below and not yet deleted the key; and
  // the connections let in without being counted.
  datatype State = State(counter: Counter, live: nat, stale: nat, deleting: nat, unchecked: nat)

  const START := State(None, 0, 0, 0, 0)

  // Decrementing and deleting are separate commands. An open connection keeps refreshing the key, but
  // the errors of a refresh are ignored, so the key may expire at any time.
  datatype Step = Attempt(fault: Fault) | Decrement(fault: Fault) | Delete(fault: Fault) | CloseUnchecked | Expire

  predicate Enabled(s: State, step: Step) {
    match step
    case Attempt(_) => true
    case Decrement(_) => s.live > 0
    case Delete(_) => s.deleting > 0
    case CloseUnchecked => s.unchecked > 0
    case Expire => true
  }

  // A step that is not enabled changes nothing.
  function Apply(max: int, s: State, step: Step): State {
    if !Enabled(s, step) then s else
      match step
      case Attempt(fault) =>
        var counter := Incremented(s.counter, fault);
        if fault == FailsBefore then s.(unchecked := s.unchecked + 1)
        else if fault == FailsAfter then s.(counter := counter, stale := s.stale + 1, unchecked := s.unchecked + 1)
        else if Value(counter) > max then s.(counter := counter, stale := s.stale + 1)
        else s.(counter := counter, live := s.live + 1)
      case Decrement(fault) =>
        var counter := Decremented(s.counter, fault);
        if fault == FailsBefore then s.(live := s.live - 1, stale := s.stale + 1)
        else s.(counter := counter, live := s.live - 1,
                deleting := if fault == Works && Value(counter) <= 0 then s.deleting + 1 else s.deleting)
      case Delete(fault) =>
        s.(counter := Deleted(s.counter, fault), stale := if fault == FailsBefore then s.stale else 0,
           deleting := s.deleting - 1)
      case CloseUnchecked => s.(unchecked := s.unchecked - 1)
      case Expire => s.(counter := None, stale := 0)
  }

  // Who gets in, and what is counted. With a Redis error everybody gets in; one that struck after the
  // increment leaves a count that no release takes back.
  lemma AttemptDecides(max: int, s: State, fault: Fault)
    ensures var s' := Apply(max, s, Attempt(fault));
            var count := Value(s.counter);
            && (s'.live == s.live + 1 <==> fault == Works && count < max)
            && (s'.unchecked == s.unchecked + 1 <==> fault != Works)
            && (s'.stale == s.stale + 1 <==> fault == FailsAfter || (fault == Works && count >= max))
            && s'.deleting == s.deleting
            && Value(s'.counter) == count + (if fault == FailsBefore then 0 else 1)
  {
  }

  // The method makes the step of the machine: a counted connection is one more open, and one let in
  // without being counted one more unchecked.
  method AttemptHere(gate: WsGate, ghost s: State, max: int, fault: Fault) returns (allowed: bool, counted: bool)
    requires gate.counter == s.counter
    modifies gate
    ensures var s' := Apply(max, s, Attempt(fault));
            && gate.counter == s'.counter
            && (counted <==> s'.live == s.live + 1)
            && (allowed && !counted <==> s'.unchecked == s.unchecked + 1)
  {
    allowed, counted := gate.WsConnectionGate(max, fault);
  }

  // And a release that nothing divides makes its one or two steps.
  method ReleaseHere(gate: WsGate, ghost s: State, max: int, decrement: Fault, delete: Fault)
    requires gate.counter == s.counter && s.live > 0
    modifies gate
    ensures var s' := Apply(max, s, Decrement(decrement));
            && s'.live == s.live - 1
            && gate.counter == if s'.deleting > s.deleting then Apply(max, s', Delete(delete)).counter else s'.counter
  {
    gate.Release(decrement, delete);
  }

  function Exec(max: int, s: State, steps: seq<Step>): State
    decreases |steps|
  {
    if steps == [] then s else Exec(max, Apply(max, s, steps[0]), steps[1..])
  }

  // ---- Exactly when the gate holds ----

  // The key goes, by the delete of a release or because it expires, while a counted connection is open.
  predicate Forgets(s: State, step: Step) {
    Enabled(s, step) && s.live > 0 && (step.Expire? || (step.Delete? && step.fault != FailsBefore))
  }

  predicate NeverForgets(max: int, s: State, steps: seq<Step>)
    decreases |steps|
  {
    steps == [] || (!Forgets(s, steps[0]) && NeverForgets(max, Apply(max, s, steps[0]), steps[1..]))
  }

  // The counter is at least the number of open counted connections throughout the run.
  predicate AlwaysCovers(max: int, s: State, steps: seq<Step>)
    decreases |steps|
  {
    Value(s.counter) >= s.live && (steps == [] || AlwaysCovers(max, Apply(max, s, steps[0]), steps[1..]))
  }

  function Attempts(n: nat): seq<Step> {
    seq(n, _ => Attempt(Works))
  }

  // At every point of the run, however many attempts came next, the maximum would not be exceeded.
  ghost predicate AlwaysSafe(max: int, s: State, steps: seq<Step>)
    decreases |steps|
  {
    && (forall n: nat :: Exec(max, s, Attempts(n)).live <= max)
    && (steps == [] || AlwaysSafe(max, Apply(max, s, steps[0]), steps[1..]))
  }

  // The counter is the counted connections still open plus what is counted without one, and no more
  // than `max` of them are open.
  ghost predicate Counted(max: int, s: State) {
    Value(s.counter) == s.live + s.stale && (s.live > max ==> s.live == 0)
  }

  lemma StepCountedIff(max: int, s: State, step: Step)
    requires Counted(max, s)
    ensures Counted(max, Apply(max, s, step)) <==> !Forgets(s, step)
    ensures Forgets(s, step) ==> Value(Apply(max, s, step).counter) < Apply(max, s, step).live
  {
  }

  // Over every run, with any Redis errors among its steps: the counter stays exact if no delete or
  // expiry forgets an open connection.
  lemma {:induction false} GateHolds(max: int, s: State, steps: seq<Step>)
    requires Counted(max, s) && NeverForgets(max, s, steps)
    ensures Counted(max, Exec(max, s, steps))
    decreases |steps|
  {
    if steps != [] {
      StepCountedIff(max, s, steps[0]);
      GateHolds(max, Apply(max, s, steps[0]), steps[1..]);
    }
  }

  // The counter covers the open connections at every point of a run if and only if no step of it
  // forgets one.
  lemma {:induction false} CoversIff(max: int, s: State, steps: seq<Step>)
    requires Counted(max, s)
    ensures AlwaysCovers(max, s, steps) <==> NeverForgets(max, s, steps)
    decreases |steps|
  {
    if steps != [] {
      StepCountedIff(max, s, steps[0]);
      if !Forgets(s, steps[0]) {
        CoversIff(max, Apply(max, s, steps[0]), steps[1..]);
      }
    }
  }

  lemma {:induction false} AttemptsNeverForget(max: int, s: State, n: nat)
    ensures NeverForgets(max, s, Attempts(n))
    decreases n
  {
    if n > 0 {
      assert Attempts(n)[1..] == Attempts(n - 1);
      AttemptsNeverForget(max, Apply(max, s, Attempt(Works)), n - 1);
    }
  }

  lemma {:induction false} Refill(max: nat, s: State, n: nat)
    requires Value(s.counter) + n <= max
    ensures Exec(max, s, Attempts(n)).live == s.live + n
    decreases n
  {
    if n > 0 {
      assert Attempts(n)[1..] == Attempts(n - 1);
      Refill(max, Apply(max, s, Attempt(Works)), n - 1);
    }
  }

  // From any state whose counter does not cover the open connections, further attempts exceed the
  // maximum.
  lemma UncoveredExceeds(max: nat, s: State)
    requires Value(s.counter) < s.live
    ensures exists n: nat :: Exec(max, s, Attempts(n)).live > max
  {
    var n: nat := if Value(s.counter) <= max then max - Value(s.counter) else 0;
    assert Exec(max, s, Attempts(n)).live > max by {
      if Value(s.counter) <= max {
        Refill(max, s, n);
      } else {
        assert Attempts(0) == [];
      }
    }
  }

  // The maximum holds throughout a run and after it, whatever attempts follow, if and only if the key
  // neither is deleted nor expires in it while a counted connection is open.
  lemma {:induction false} SafeIff(max: nat, s: State, steps: seq<Step>)
    requires Counted(max, s)
    ensures AlwaysSafe(max, s, steps) <==> NeverForgets(max, s, steps)
    decreases |steps|
  {
    forall n: nat ensures Exec(max, s, Attempts(n)).live <= max {
      AttemptsNeverForget(max, s, n);
      GateHolds(max, s, Attempts(n));
    }
    if steps != [] {
      var s' := Apply(max, s, steps[0]);
      StepCountedIff(max, s, steps[0]);
      if Forgets(s, steps[0]) {
        UncoveredExceeds(max, s');
      } else {
        SafeIff(max, s', steps[1..]);
      }
    }
  }

  lemma GateSafeIff(max: nat, steps: seq<Step>)
    ensures AlwaysSafe(max, START, steps) <==> NeverForgets(max, START, steps)
    ensures AlwaysCovers(max, START, steps) <==> NeverForgets(max, START, steps)
  {
    SafeIff(max, START, steps);
    CoversIff(max, START, steps);
  }

  // Under that condition, over every run of attempts, releases and expiries, with any Redis errors
  // among them.
  lemma NeverMoreThanMax(max: nat, steps: seq<Step>)
    requires NeverForgets(max, START, steps)
    ensures var s := Exec(max, START, steps);
            && s.live <= max
            && Value(s.counter) == s.live + s.stale >= s.live
            // A new connection is admitted exactly while open and stale ones leave room.
            && (Apply(max, s, Attempt(Works)).live == s.live + 1 <==> s.live + s.stale < max)
  {
    GateHolds(max, START, steps);
  }

  // ---- A release as one step ----

  // No attempt falls between the decrement and the delete of one release, and refreshes keep the key
  // while a counted connection is open.
  predicate Undivided(max: int, s: State, steps: seq<Step>)
    decreases |steps|
  {
    steps == [] ||
    (&& (steps[0].Attempt? ==> s.deleting == 0)
     && (steps[0].Expire? ==> s.live == 0)
     && Undivided(max, Apply(max, s, steps[0]), steps[1..]))
  }

  lemma {:induction false} UndividedNeverForgets(max: int, s: State, steps: seq<Step>)
    requires Counted(max, s) && (s.deleting > 0 ==> s.live == 0) && Undivided(max, s, steps)
    ensures NeverForgets(max, s, steps)
    decreases |steps|
  {
    if steps != [] {
      StepCountedIff(max, s, steps[0]);
      UndividedNeverForgets(max, Apply(max, s, steps[0]), steps[1..]);
    }
  }

  // With a release as one step and refreshes that work the gate holds in every run.
  lemma UndividedHolds(max: nat, steps: seq<Step>)
    requires Undivided(max, START, steps)
    ensures AlwaysSafe(max, START, steps) && Exec(max, START, steps).live <= max
  {
    UndividedNeverForgets(max, START, steps);
    GateSafeIff(max, steps);
    NeverMoreThanMax(max, steps);
  }

  // A connection gets in without being counted only through a Redis error on its own attempt.
  lemma {:induction false} NobodyUnchecked(max: int, s: State, steps: seq<Step>)
    requires s.unchecked == 0 && forall st :: st in steps && st.Attempt? ==> st.fault == Works
    ensures Exec(max, s, steps).unchecked == 0
    decreases |steps|
  {
    if steps != [] {
      assert steps[0] in steps;
      NobodyUnchecked(max, Apply(max, s, steps[0]), steps[1..]);
    }
  }

  // A release that works gives its place back: the next attempt takes it.
  lemma ReleaseFrees(max: nat, steps: seq<Step>)
    requires NeverForgets(max, START, steps) && Exec(max, START, steps).live > 0
    ensures var s := Exec(max, START, steps);
            var released := Apply(max, s, Decrement(Works));
            && released.live == s.live - 1 && Value(released.counter) == Value(s.counter) - 1
            && (s.stale == 0 ==> Apply(max, released, Attempt(Works)).live == s.live)
  {
    GateHolds(max, START, steps);
  }

  // Rejections are never taken back: `max` of them shut a user out even after all his connections
  // have closed, until the key expires.
  lemma RejectionsShutOut(max: nat, steps: seq<Step>)
    requires NeverForgets(max, START, steps) && Exec(max, START, steps).stale >= max
    ensures var s := Exec(max, START, steps);
            && Apply(max, s, Attempt(Works)).live == s.live
            && (s.live == 0 ==> Apply(max, Apply(max, s, Expire), Attempt(Works)).live == if max > 0 then 1 else 0)
  {
    GateHolds(max, START, steps);
  }

  lemma {:induction false} ExecAppend(max: int, s: State, xs: seq<Step>, ys: seq<Step>)
    ensures Exec(max, s, xs + ys) == Exec(max, Exec(max, s, xs), ys)
    decreases |xs|
  {
    if xs == [] {
      assert xs + ys == ys;
    } else {
      assert (xs + ys)[1..] == xs[1..] + ys;
      ExecAppend(max, Apply(max, s, xs[0]), xs[1..], ys);
    }
  }

  const DIVIDED: seq<Step> := [Attempt(Works), Decrement(Works), Attempt(Works), Delete(Works)]

  lemma DividedForgets(max: nat)
    requires max >= 1
    ensures Exec(max, START, DIVIDED) == State(None, 1, 0, 0, 0)
  {
    assert DIVIDED[1..] == [Decrement(Works), Attempt(Works), Delete(Works)];
    assert DIVIDED[1..][1..] == [Attempt(Works), Delete(Works)];
    assert DIVIDED[1..][1..][1..] == [Delete(Works)];
    assert DIVIDED[1..][1..][1..][1..] == [];
  }

  // When refreshes fail for as long as the key lives, the bound fails for every `max`: the connection
  // is forgotten without any release.
  lemma ExpiryExceeds(max: nat)
    requires max >= 1
    ensures Exec(max, START, [Attempt(Works), Expire] + Attempts(max)).live == max + 1
  {
    var forgotten := State(None, 1, 0, 0, 0);
    assert [Attempt(Works), Expire][1..] == [Expire] && [Attempt(Works), Expire][1..][1..] == [];
    assert Exec(max, START, [Attempt(Works), Expire]) == forgotten;
    ExecAppend(max, START, [Attempt(Works), Expire], Attempts(max));
    Refill(max, forgotten, max);
  }

  // With the release in two steps the bound fails for every `max`: an attempt between decrement and
  // delete is admitted and then forgotten, and `max` more get in.
  lemma DividedReleaseExceeds(max: nat)
    requires max >= 1
    ensures Exec(max, START, DIVIDED + Attempts(max)).live == max + 1
  {
    ExecAppend(max, START, DIVIDED, Attempts(max));
    DividedForgets(max);
    Refill(max, State(None, 1, 0, 0, 0), max);
  }

  // ---- The gate of the api gateway ----

  // A rejected attempt decrements again; `undoing` counts those that have not done so yet, `stale`
  // what Redis errors left counted, `unchecked` the connections they let in. Here the key never
  // expires, a release is a single decrement and the errors of decrements are ignored.
  datatype ApiState = ApiState(counter: int, live: nat, undoing: nat, stale: nat, unchecked: nat)

  const API_START := ApiState(0, 0, 0, 0, 0)

  datatype ApiStep = ApiAttempt(fault: Fault) | ApiUndo(fault: Fault) | ApiRelease(fault: Fault)

  function ApiApply(limit: int, s: ApiState, step: ApiStep): ApiState {
    match step
    case ApiAttempt(fault) =>
      if fault == FailsBefore then s.(unchecked := s.unchecked + 1)
      else if fault == FailsAfter then s.(counter := s.counter + 1, stale := s.stale + 1, unchecked := s.unchecked + 1)
      else if s.counter + 1 > limit then s.(counter := s.counter + 1, undoing := s.undoing + 1)
      else s.(counter := s.counter + 1, live := s.live + 1)
    case ApiUndo(fault) =>
      if s.undoing == 0 then s
      else if fault == FailsBefore then s.(undoing := s.undoing - 1, stale := s.stale + 1)
      else s.(counter := s.counter - 1, undoing := s.undoing - 1)
    case ApiRelease(fault) =>
      if s.live == 0 then s
      else if fault == FailsBefore then s.(live := s.live - 1, stale := s.stale + 1)
      else s.(counter := s.counter - 1, live := s.live - 1)
  }

  // Who gets in at the other gate, and what its steps count.
  lemma ApiAttemptDecides(limit: int, s: ApiState, fault: Fault)
    ensures var s' := ApiApply(limit, s, ApiAttempt(fault));
            && (s'.live == s.live + 1 <==> fault == Works && s.counter < limit)
            && (s'.unchecked == s.unchecked + 1 <==> fault != Works)
            && (s'.undoing == s.undoing + 1 <==> fault == Works && s.counter >= limit)
            && (s'.stale == s.stale + 1 <==> fault == FailsAfter)
            && s'.counter == s.counter + (if fault == FailsBefore then 0 else 1)
  {
  }

  function ApiExec(limit: int, s: ApiState, steps: seq<ApiStep>): ApiState
    decreases |steps|
  {
    if steps == [] then s else ApiExec(limit, ApiApply(limit, s, steps[0]), steps[1..])
  }

  lemma {:induction false} ApiRun(limit: nat, s: ApiState, steps: seq<ApiStep>)
    requires s.counter == s.live + s.undoing + s.stale && s.live <= limit
    ensures var s' := ApiExec(limit, s, steps); s'.counter == s'.live + s'.undoing + s'.stale && s'.live <= limit
    decreases |steps|
  {
    if steps != [] {
      ApiRun(limit, ApiApply(limit, s, steps[0]), steps[1..]);
    }
  }

  lemma {:induction false} ApiRunWorks(limit: nat, s: ApiState, steps: seq<ApiStep>)
    requires forall st :: st in steps ==> st.fault == Works
    ensures ApiExec(limit, s, steps).stale == s.stale && ApiExec(limit, s, steps).unchecked == s.unchecked
    decreases |steps|
  {
    if steps != [] {
      assert steps[0] in steps;
      ApiRunWorks(limit, ApiApply(limit, s, steps[0]), steps[1..]);
    }
  }

  // By contrast, here only rejections still being undone, and what errors left behind for ever, take
  // up room: an attempt is admitted exactly while fewer than `limit` are counted, and without errors
  // those are the open connections once every rejection is undone.
  lemma ApiGateRecovers(limit: nat, steps: seq<ApiStep>)
    ensures var s := ApiExec(limit, API_START, steps);
            && s.live <= limit
            && (ApiApply(limit, s, ApiAttempt(Works)).live == s.live + 1 <==> s.live + s.undoing + s.stale < limit)
            && ((forall st :: st in steps ==> st.fault == Works) ==> s.stale == 0 && s.unchecked == 0)
  {
    ApiRun(limit, API_START, steps);
    if forall st :: st in steps ==> st.fault == Works {
      ApiRunWorks(limit, API_START, steps);
    }
  }

  // A full gate rejects, and admits again as soon as one connection is released.
  lemma ApiReleaseFrees(limit: nat, steps: seq<ApiStep>)
    requires limit > 0 && ApiExec(limit, API_START, steps).live == limit
    ensures var s := ApiExec(limit, API_START, steps);
            && ApiApply(limit, s, ApiAttempt(Works)).live == limit
            && ApiApply(limit, ApiApply(limit, s, ApiAttempt(Works)), ApiUndo(Works)) == s
            && var released := ApiApply(limit, s, ApiRelease(Works));
               && released.live == limit - 1 && released.counter == s.counter - 1
               && (s.undoing == 0 && s.stale == 0 ==> ApiApply(limit, released, ApiAttempt(Works)).live == limit)
  {
    ApiRun(limit, API_START, steps);
  }
}
