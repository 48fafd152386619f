// shared/messaging/rcm.go: the offline stream of one user and its replay.
module Replay {
  import opened Options
  import opened Registry

  // An entry without a payload stands for one that has no payload field, a payload that is not a
  // string, or one that is not a message.
  datatype Entry = Entry(id: nat, payload: Option<WSMessage>)

  function Ids(entries: seq<Entry>): set<nat> {
    set e | e in entries :: e.id
  }

  ghost predicate UniqueIds(entries: seq<Entry>) {
    forall i, j :: 0 <= i < j < |entries| ==> entries[i].id != entries[j].id
  }

  // What XDEL leaves.
  function Without(entries: seq<Entry>, ids: set<nat>): (rest: seq<Entry>)
    ensures forall e :: e in rest <==> e in entries && e.id !in ids
  {
    if entries == [] then []
    else (if entries[0].id in ids then [] else [entries[0]]) + Without(entries[1..], ids)
  }

  function Payloads(entries: seq<Entry>): seq<WSMessage> {
    if entries == [] then []
    else
      var last := entries[|entries| - 1];
      Payloads(entries[..|entries| - 1]) + if last.payload.Some? then [last.payload.value] else []
  }

  lemma {:induction false} WithoutNothing(entries: seq<Entry>, ids: set<nat>)
    requires Ids(entries) !! ids
    ensures Without(entries, ids) == entries
  {
    if entries != [] {
      assert entries[0].id in Ids(entries);
      assert Ids(entries[1..]) <= Ids(entries);
      WithoutNothing(entries[1..], ids);
    }
  }

  lemma {:induction false} WithoutAll(entries: seq<Entry>, ids: set<nat>)
    requires Ids(entries) <= ids
    ensures Without(entries, ids) == []
  {
    if entries != [] {
      assert entries[0].id in Ids(entries);
      assert Ids(entries[1..]) <= Ids(entries);
      WithoutAll(entries[1..], ids);
    }
  }

  lemma {:induction false} WithoutAppend(x: seq<Entry>, y: seq<Entry>, ids: set<nat>)
    ensures Without(x + y, ids) == Without(x, ids) + Without(y, ids)
  {
    if x == [] {
      assert x + y == y;
    } else {
      assert (x + y)[1..] == x[1..] + y;
      WithoutAppend(x[1..], y, ids);
    }
  }

  lemma PrefixIdsDiffer(entries: seq<Entry>, n: nat)
    requires n <= |entries| && UniqueIds(entries)
    ensures Ids(entries[..n]) !! Ids(entries[n..])
  {
    forall x, y | x in entries[..n] && y in entries[n..] ensures x.id != y.id {
      var i :| 0 <= i < n && entries[i] == x;
      var j :| n <= j < |entries| && entries[j] == y;
    }
  }

  // Deleting the ids of a prefix leaves exactly the suffix.
  lemma WithoutPrefix(entries: seq<Entry>, n: nat)
    requires n <= |entries| && UniqueIds(entries)
    ensures Without(entries, Ids(entries[..n])) == entries[n..]
  {
    var ids := Ids(entries[..n]);
    assert entries == entries[..n] + entries[n..];
    WithoutAppend(entries[..n], entries[n..], ids);
    WithoutAll(entries[..n], ids);
    PrefixIdsDiffer(entries, n);
    WithoutNothing(entries[n..], ids);
  }

  // Every socket in `to` received `msgs` in order and, unless it is in `broken`, `last`.
  ghost predicate Got(before: seq<Frame>, after: seq<Frame>, to: set<string>, msgs: seq<WSMessage>,
                      last: Option<WSMessage>, broken: set<string>)
  {
    forall s :: s in to ==>
      Received(after, s) == Received(before, s) + msgs + if last.Some? && s !in broken then [last.value] else []
  }

  // The user's sockets get an entry in full, or it has no payload.
  predicate Passes(e: Entry, to: set<string>, broken: set<string>) {
    e.payload.None? || (to != {} && to !! broken)
  }

  lemma GotMore(before: seq<Frame>, between: seq<Frame>, after: seq<Frame>, to: set<string>, msgs: seq<WSMessage>,
                msg: WSMessage, broken: set<string>)
    requires Got(before, between, to, msgs, None, {}) && Reached(between, after, to - broken, msg)
    ensures Got(before, after, to, msgs, Some(msg), broken)
    ensures to !! broken ==> Got(before, after, to, msgs + [msg], None, {})
  {
    forall s | s in to ensures Received(after, s) == Received(before, s) + msgs + if s !in broken then [msg] else [] {
      assert Received(after, s) == if s in to - broken then Received(between, s) + [msg] else Received(between, s);
    }
    forall s | s in to && to !! broken ensures Received(after, s) == Received(before, s) + (msgs + [msg]) + [] {
      assert Received(before, s) + msgs + [msg] == Received(before, s) + (msgs + [msg]) + [];
    }
  }

  // One turn of the loop: the entry passes, or the replay pauses at it.
  method ReplayOne(cm: ConnectionManager, userID: string, entry: Entry, broken: set<string>,
                   ghost before: seq<Frame>, ghost to: set<string>, ghost sent: seq<WSMessage>)
    returns (passed: bool)
    requires Inverse(cm.View()) && to == Sockets(cm.View(), userID) && Got(before, cm.wire, to, sent, None, {})
    modifies cm
    ensures passed <==> Passes(entry, to, broken)
    ensures passed ==> cm.View() == old(cm.View())
    ensures Inverse(cm.View()) && cm.bySocket == old(cm.bySocket) - if passed then {} else to * broken
    ensures passed ==>
              Got(before, cm.wire, to, sent + if entry.payload.Some? then [entry.payload.value] else [], None, {})
    ensures !passed ==> entry.payload.Some? && Got(before, cm.wire, to, sent, entry.payload, broken)
  {
    if entry.payload.None? {
      assert sent + [] == sent && cm.bySocket - {} == cm.bySocket;
      return true;
    }
    ghost var start, between := cm.View(), cm.wire;
    var err := cm.SendMessage(userID, entry.payload.value, broken);
    passed := err.None?;
    GotMore(before, between, cm.wire, to, sent, entry.payload.value, broken);
    if passed {
      Undisturbed(start, cm.View(), to * broken);
      assert cm.bySocket - {} == cm.bySocket;
    }
  }

  lemma Undisturbed(v: Indexes, w: Indexes, failed: set<string>)
    requires Inverse(v) && Inverse(w) && failed == {} && w.bySocket == v.bySocket - failed
    ensures v == w
  {
    SameIndexes(v, w);
  }

  // What passed before the entry at `stop`, and why a replay stops there.
  ghost predicate StopsAt(stream: seq<Entry>, to: set<string>, broken: nat -> set<string>, stop: nat) {
    && stop <= |stream|
    && (forall i: nat :: i < stop ==> Passes(stream[i], to, broken(i)))
    && (stop < |stream| ==> !Passes(stream[stop], to, broken(stop)))
  }

  // One replay with nothing else going on. `readFails` says that the stream cannot be read, and
  // nothing happens; writes of entry `i` fail on the sockets `broken(i)`; `deleted` says whether the
  // final XDEL works. Up to `stop`, the first entry that does not reach all sockets of the user,
  // each of them receives the well-formed entries in order.
  method ReplayUserStream(cm: ConnectionManager, userID: string, stream: seq<Entry>, readFails: bool,
                          broken: nat -> set<string>, deleted: bool)
    returns (left: seq<Entry>, stop: nat)
    requires Inverse(cm.View()) && UniqueIds(stream)
    modifies cm
    ensures readFails ==> stop == 0 && left == stream && cm.View() == old(cm.View()) && cm.wire == old(cm.wire)
    ensures !readFails ==> StopsAt(stream, Sockets(old(cm.View()), userID), broken, stop)
    ensures !readFails ==>
              forall s :: s in Sockets(old(cm.View()), userID) ==>
                Received(cm.wire, s)
                == Received(old(cm.wire), s) + Payloads(stream[..stop])
                   + if stop < |stream| && s !in broken(stop) then [stream[stop].payload.value] else []
    ensures !readFails ==> left == if deleted then stream[stop..] else stream
    // The sockets whose writes failed when it paused are dropped.
    ensures Inverse(cm.View())
    ensures !readFails ==>
              cm.bySocket == old(cm.bySocket)
                             - if stop < |stream| then Sockets(old(cm.View()), userID) * broken(stop) else {}
  {
    left, stop := stream, 0;
    if readFails {
      return;
    }
    ghost var before, to := cm.wire, Sockets(cm.View(), userID);
    var acked: set<nat> := {};
    var paused := false;
    while stop < |stream| && !paused
      invariant stop <= |stream| && acked == Ids(stream[..stop])
      invariant forall i: nat :: i < stop ==> Passes(stream[i], to, broken(i))
      invariant !paused ==> cm.View() == old(cm.View()) && Got(before, cm.wire, to, Payloads(stream[..stop]), None, {})
      invariant paused ==> stop < |stream| && !Passes(stream[stop], to, broken(stop))
      invariant paused ==> Got(before, cm.wire, to, Payloads(stream[..stop]), stream[stop].payload, broken(stop))
      invariant Inverse(cm.View()) && cm.bySocket == old(cm.bySocket) - if paused then to * broken(stop) else {}
      decreases |stream| - stop, !paused
    {
      var passed := ReplayOne(cm, userID, stream[stop], broken(stop), before, to, Payloads(stream[..stop]));
      if passed {
        NextEntry(stream, stop);
        acked := acked + {stream[stop].id};
        stop := stop + 1;
      } else {
        paused := true;
      }
    }
    if deleted {
      WithoutPrefix(stream, stop);
      left := Without(stream, acked);
    }
  }

  lemma NextEntry(stream: seq<Entry>, n: nat)
    requires n < |stream|
    ensures Payloads(stream[..n + 1])
         == Payloads(stream[..n]) + if stream[n].payload.Some? then [stream[n].payload.value] else []
    ensures Ids(stream[..n + 1]) == Ids(stream[..n]) + {stream[n].id}
  {
    assert stream[..n + 1][..n] == stream[..n];
    assert stream[..n + 1] == stream[..n] + [stream[n]];
  }

  // ---- Several replays, appends and trimming at once ----

  // A replay works on the entries it read at its start.
  datatype Progress = Progress(snapshot: seq<Entry>, next: nat, acked: set<nat>, paused: bool)

  // One send of an entry, with the sockets that received it.
  datatype Sent = Sent(id: nat, sockets: set<string>)

  // `appended` is every entry ever appended (its id is its position), `trimmed` the ids Redis
  // dropped by length or expiry, `delivered` how often an entry was delivered to every socket, and
  // `sends` every send in order.
  datatype State = State(
    stream: seq<Entry>,
    appended: seq<Entry>,
    trimmed: set<nat>,
    delivered: multiset<nat>,
    sends: seq<Sent>,
    replays: map<nat, Progress>)

  const EMPTY := State([], [], {}, multiset{}, [], map[])

  // A turn writes to the sockets the user has at that moment, and fails on the broken ones.
  datatype Step =
    | Append(payload: Option<WSMessage>)
    | Trim(count: nat)
    | Begin(replay: nat)
    | Turn(replay: nat, to: set<string>, broken: set<string>)
    | Finish(replay: nat, deleted: bool)

  predicate Enabled(s: State, step: Step) {
    match step
    case Append(_) => true
    case Trim(count) => count <= |s.stream|
    case Begin(replay) => replay !in s.replays
    case Turn(replay, _, _) =>
      replay in s.replays && !s.replays[replay].paused && s.replays[replay].next < |s.replays[replay].snapshot|
    case Finish(replay, _) =>
      replay in s.replays && (s.replays[replay].paused || s.replays[replay].next == |s.replays[replay].snapshot|)
  }

  function Turned(p: Progress, passes: bool): Progress
    requires p.next < |p.snapshot|
  {
    if passes then p.(next := p.next + 1, acked := p.acked + {p.snapshot[p.next].id}) else p.(paused := true)
  }

  // A step that is not enabled changes nothing.
  function Apply(s: State, step: Step): State {
    if !Enabled(s, step) then s else
      match step
      case Append(payload) =>
        var e := Entry(|s.appended|, payload);
        s.(stream := s.stream + [e], appended := s.appended + [e])
      case Trim(count) => s.(stream := s.stream[count..], trimmed := s.trimmed + Ids(s.stream[..count]))
      case Begin(replay) => s.(replays := s.replays[replay := Progress(s.stream, 0, {}, false)])
      case Turn(replay, to, broken) =>
        var p := s.replays[replay];
        var entry := p.snapshot[p.next];
        var passes := Passes(entry, to, broken);
        s.(replays := s.replays[replay := Turned(p, passes)],
           sends := if entry.payload.Some? then s.sends + [Sent(entry.id, to - broken)] else s.sends,
           delivered := if entry.payload.Some? && passes then s.delivered + multiset{entry.id} else s.delivered)
      case Finish(replay, deleted) =>
        s.(replays := s.replays - {replay},
           stream := if deleted then Without(s.stream, s.replays[replay].acked) else s.stream)
  }

  function Exec(s: State, steps: seq<Step>): State
    decreases |steps|
  {
    if steps == [] then s else Exec(Apply(s, steps[0]), steps[1..])
  }

  // Some send of the entry reached at least one socket.
  ghost predicate Landed(s: State, id: nat) {
    exists i :: 0 <= i < |s.sends| && s.sends[i].id == id && s.sends[i].sockets != {}
  }

  // An entry that may be deleted: malformed, or delivered at least once.
  ghost predicate Settled(s: State, id: nat) {
    id < |s.appended| && (s.appended[id].payload.None? || (id in s.delivered && Landed(s, id)))
  }

  ghost predicate Genuine(s: State, entries: seq<Entry>) {
    forall e :: e in entries ==> e.id < |s.appended| && s.appended[e.id] == e
  }

  ghost predicate Safe(s: State) {
    && (forall i :: 0 <= i < |s.appended| ==> s.appended[i].id == i)
    && Genuine(s, s.stream)
    && (forall r :: r in s.replays ==>
          && Genuine(s, s.replays[r].snapshot)
          && (forall id :: id in s.replays[r].acked ==> Settled(s, id)))
    && (forall i: nat :: i < |s.appended| ==> s.appended[i] in s.stream || i in s.trimmed || Settled(s, i))
  }

  lemma StepSafe(s: State, step: Step)
    requires Safe(s)
    ensures Safe(Apply(s, step))
  {
    if Enabled(s, step) {
      match step
      case Append(payload) => AppendSafe(s, payload);
      case Trim(count) => TrimSafe(s, count);
      case Begin(_) =>
      case Turn(_, _, _) => TurnSafe(s, step);
      case Finish(_, _) =>
    }
  }

  lemma AppendSafe(s: State, payload: Option<WSMessage>)
    requires Safe(s)
    ensures Safe(Apply(s, Append(payload)))
  {
    var s' := Apply(s, Append(payload));
    assert s'.stream[|s.stream|] in s'.stream;
    assert forall id: nat :: Settled(s, id) ==> Settled(s', id);
  }

  lemma TrimSafe(s: State, count: nat)
    requires Safe(s) && count <= |s.stream|
    ensures Safe(Apply(s, Trim(count)))
  {
    var s' := Apply(s, Trim(count));
    assert s.stream == s.stream[..count] + s.stream[count..];
    assert forall id: nat :: Settled(s, id) <==> Settled(s', id);
    forall i: nat | i < |s.appended| && s.appended[i] in s.stream
      ensures s.appended[i] in s'.stream || i in s'.trimmed
    {
      if s.appended[i] in s.stream[..count] {
        assert s.appended[i].id == i;
      }
    }
  }

  lemma TurnSafe(s: State, step: Step)
    requires Safe(s) && step.Turn? && Enabled(s, step)
    ensures Safe(Apply(s, step))
  {
    var s' := Apply(s, step);
    var p := s.replays[step.replay];
    var entry := p.snapshot[p.next];
    assert entry in p.snapshot;
    forall id: nat | Landed(s, id) ensures Landed(s', id) {
      var i :| 0 <= i < |s.sends| && s.sends[i].id == id && s.sends[i].sockets != {};
      assert s'.sends[i] == s.sends[i];
    }
    if entry.payload.Some? && Passes(entry, step.to, step.broken) {
      assert s'.sends[|s.sends|] == Sent(entry.id, step.to - step.broken) && step.to - step.broken == step.to;
    }
    assert forall id: nat :: Settled(s, id) ==> Settled(s', id);
  }

  lemma {:induction false} RunSafe(s: State, steps: seq<Step>)
    requires Safe(s)
    ensures Safe(Exec(s, steps))
    decreases |steps|
  {
    if steps != [] {
      StepSafe(s, steps[0]);
      RunSafe(Apply(s, steps[0]), steps[1..]);
    }
  }

  // Under every interleaving of replays, appends and trimming, no replay loses a message: an entry
  // that is gone was trimmed by Redis, was malformed, or was delivered in full at least once.
  lemma ReplayLosesNothing(steps: seq<Step>, id: nat)
    requires id < |Exec(EMPTY, steps).appended|
    ensures var s := Exec(EMPTY, steps);
            || s.appended[id] in s.stream || id in s.trimmed || s.appended[id].payload.None?
            || (s.delivered[id] >= 1
                && exists i :: 0 <= i < |s.sends| && s.sends[i].id == id && s.sends[i].sockets != {})
  {
    RunSafe(EMPTY, steps);
  }

  // ---- How often an entry is delivered ----

  ghost predicate Increasing(entries: seq<Entry>) {
    forall i, j :: 0 <= i < j < |entries| ==> entries[i].id < entries[j].id
  }

  ghost predicate Ordered(s: State) {
    && Increasing(s.stream)
    && (forall e :: e in s.stream ==> e.id < |s.appended|)
    && (forall r :: r in s.replays ==> Increasing(s.replays[r].snapshot))
  }

  lemma {:induction false} WithoutIncreasing(entries: seq<Entry>, ids: set<nat>)
    requires Increasing(entries)
    ensures Increasing(Without(entries, ids))
  {
    if entries != [] {
      WithoutIncreasing(entries[1..], ids);
      var rest := Without(entries[1..], ids);
      forall e | e in rest ensures entries[0].id < e.id {
        assert e in entries[1..];
      }
      if entries[0].id !in ids {
        assert Without(entries, ids) == [entries[0]] + rest;
      }
    }
  }

  lemma StepOrdered(s: State, step: Step)
    requires Ordered(s)
    ensures Ordered(Apply(s, step))
  {
    if Enabled(s, step) && step.Finish? {
      WithoutIncreasing(s.stream, s.replays[step.replay].acked);
    }
  }

  lemma {:induction false} RunOrdered(s: State, steps: seq<Step>)
    requires Ordered(s)
    ensures Ordered(Exec(s, steps))
    decreases |steps|
  {
    if steps != [] {
      StepOrdered(s, steps[0]);
      RunOrdered(Apply(s, steps[0]), steps[1..]);
    }
  }

  // The copies of an entry that a socket received.
  function Copies(sends: seq<Sent>, id: nat, socket: string): nat {
    if sends == [] then 0
    else
      var last := sends[|sends| - 1];
      Copies(sends[..|sends| - 1], id, socket) + if last.id == id && socket in last.sockets then 1 else 0
  }

  lemma CopiesNext(sends: seq<Sent>, last: Sent, id: nat, socket: string)
    ensures Copies(sends + [last], id, socket)
         == Copies(sends, id, socket) + if last.id == id && socket in last.sockets then 1 else 0
  {
    assert (sends + [last])[..|sends|] == sends;
  }

  // The entry is still to come in a replay.
  ghost predicate Ahead(p: Progress, id: nat) {
    !p.paused && exists k :: p.next <= k < |p.snapshot| && p.snapshot[k].id == id && p.snapshot[k].payload.Some?
  }

  ghost function ReplaysAhead(s: State, id: nat): set<nat> {
    set r | r in s.replays && Ahead(s.replays[r], id)
  }

  // The copies of an entry that a socket received and those that open replays may still send it.
  ghost function Chances(s: State, id: nat, socket: string): nat {
    Copies(s.sends, id, socket) + |ReplaysAhead(s, id)|
  }

  // A replay that begins now has the entry ahead.
  ghost predicate Queued(s: State, id: nat) {
    exists e :: e in s.stream && e.id == id && e.payload.Some?
  }

  lemma BeginChances(s: State, replay: nat, id: nat, socket: string)
    requires replay !in s.replays
    ensures Chances(Apply(s, Begin(replay)), id, socket) == Chances(s, id, socket) + if Queued(s, id) then 1 else 0
  {
    BeginAhead(s, replay, id);
    assert replay !in ReplaysAhead(s, id);
  }

  lemma BeginAhead(s: State, replay: nat, id: nat)
    requires replay !in s.replays
    ensures ReplaysAhead(Apply(s, Begin(replay)), id) == ReplaysAhead(s, id) + if Queued(s, id) then {replay} else {}
  {
    var s' := Apply(s, Begin(replay));
    var p := s'.replays[replay];
    assert p == Progress(s.stream, 0, {}, false);
    if Queued(s, id) {
      var e :| e in s.stream && e.id == id && e.payload.Some?;
      var k :| 0 <= k < |s.stream| && s.stream[k] == e;
      assert p.snapshot[k].id == id;
    }
    assert Ahead(p, id) <==> Queued(s, id);
    forall r ensures r in ReplaysAhead(s', id) <==> r in ReplaysAhead(s, id) || (r == replay && Queued(s, id)) {
      assert r != replay ==> (r in s'.replays <==> r in s.replays);
    }
  }

  // An entry is behind a replay once its turn has come; a turn that passes leaves the others ahead.
  lemma TurnedAhead(p: Progress, passes: bool, id: nat)
    requires Increasing(p.snapshot) && !p.paused && p.next < |p.snapshot|
    ensures var entry := p.snapshot[p.next];
            var now := entry.id == id && entry.payload.Some?;
            && (now ==> Ahead(p, id) && !Ahead(Turned(p, passes), id))
            && (!now && passes ==> (Ahead(Turned(p, passes), id) <==> Ahead(p, id)))
            && (Ahead(Turned(p, passes), id) ==> Ahead(p, id))
  {
  }

  // A turn at the entry turns a chance into a copy or loses it.
  lemma TurnChances(s: State, step: Step, id: nat, socket: string)
    requires Ordered(s) && step.Turn? && Enabled(s, step)
    ensures Chances(Apply(s, step), id, socket) <= Chances(s, id, socket)
    ensures socket in step.to && step.broken == {} ==>
              Chances(Apply(s, step), id, socket) == Chances(s, id, socket)
  {
    var s' := Apply(s, step);
    var p := s.replays[step.replay];
    var entry := p.snapshot[p.next];
    TurnedAhead(p, Passes(entry, step.to, step.broken), id);
    CopiesNext(s.sends, Sent(entry.id, step.to - step.broken), id, socket);
    AheadAfter(s, step, id);
    OneApart(ReplaysAhead(s, id), step.replay);
    OneApart(ReplaysAhead(s', id), step.replay);
  }

  lemma AheadAfter(s: State, step: Step, id: nat)
    requires step.Turn? && Enabled(s, step)
    ensures ReplaysAhead(Apply(s, step), id) - {step.replay} == ReplaysAhead(s, id) - {step.replay}
  {
    var s' := Apply(s, step);
    forall r | r != step.replay ensures r in ReplaysAhead(s', id) <==> r in ReplaysAhead(s, id) {
      assert r in s'.replays <==> r in s.replays;
      assert r in s.replays ==> s'.replays[r] == s.replays[r];
    }
  }

  lemma OneApart(all: set<nat>, x: nat)
    ensures |all| == |all - {x}| + if x in all then 1 else 0
  {
    assert all == (all - {x}) + if x in all then {x} else {};
  }

  lemma StepChances(s: State, step: Step, id: nat, socket: string)
    requires Ordered(s) && !(Enabled(s, step) && step.Begin?)
    ensures Chances(Apply(s, step), id, socket) <= Chances(s, id, socket)
  {
    if Enabled(s, step) {
      match step
      case Append(_) => assert ReplaysAhead(Apply(s, step), id) == ReplaysAhead(s, id);
      case Trim(_) => assert ReplaysAhead(Apply(s, step), id) == ReplaysAhead(s, id);
      case Turn(_, _, _) => TurnChances(s, step, id, socket);
      case Finish(_, _) => assert ReplaysAhead(Apply(s, step), id) == ReplaysAhead(s, id);
    }
  }

  predicate NoneBegins(steps: seq<Step>) {
    forall st :: st in steps ==> !st.Begin?
  }

  lemma {:induction false} RunChances(s: State, steps: seq<Step>, id: nat, socket: string)
    requires Ordered(s) && NoneBegins(steps)
    ensures Copies(Exec(s, steps).sends, id, socket) <= Chances(s, id, socket)
    decreases |steps|
  {
    if steps != [] {
      assert steps[0] in steps;
      StepOrdered(s, steps[0]);
      StepChances(s, steps[0], id, socket);
      RunChances(Apply(s, steps[0]), steps[1..], id, socket);
    }
  }

  // A replay that still has the entry ahead sends it to a socket that stays connected.
  lemma {:induction false} ReachEntry(s: State, replay: nat, id: nat, socket: string) returns (steps: seq<Step>)
    requires Ordered(s) && replay in ReplaysAhead(s, id)
    ensures NoneBegins(steps) && Ordered(Exec(s, steps))
    ensures Copies(Exec(s, steps).sends, id, socket) == Copies(s.sends, id, socket) + 1
    ensures Chances(Exec(s, steps), id, socket) == Chances(s, id, socket)
    decreases |s.replays[replay].snapshot| - s.replays[replay].next
  {
    var p := s.replays[replay];
    var turn := Turn(replay, {socket}, {});
    var s' := Apply(s, turn);
    StepOrdered(s, turn);
    assert Passes(p.snapshot[p.next], {socket}, {});
    TurnedAhead(p, true, id);
    TurnChances(s, turn, id, socket);
    CopiesNext(s.sends, Sent(p.snapshot[p.next].id, {socket} - {}), id, socket);
    if p.snapshot[p.next].id == id && p.snapshot[p.next].payload.Some? {
      steps := [turn];
      ExecFirst(s, turn, []);
    } else {
      var rest := ReachEntry(s', replay, id, socket);
      steps := [turn] + rest;
      ExecFirst(s, turn, rest);
    }
  }

  lemma {:induction false} AllReach(s: State, id: nat, socket: string) returns (steps: seq<Step>)
    requires Ordered(s)
    ensures NoneBegins(steps) && Copies(Exec(s, steps).sends, id, socket) == Chances(s, id, socket)
    decreases Chances(s, id, socket) - Copies(s.sends, id, socket)
  {
    if ReplaysAhead(s, id) == {} {
      steps := [];
    } else {
      var replay :| replay in ReplaysAhead(s, id);
      assert |ReplaysAhead(s, id)| > 0;
      var first := ReachEntry(s, replay, id, socket);
      var rest := AllReach(Exec(s, first), id, socket);
      steps := first + rest;
      ExecAppend(s, first, rest);
    }
  }

  lemma {:induction false} ExecAppend(s: State, xs: seq<Step>, ys: seq<Step>)
    ensures Exec(s, xs + ys) == Exec(Exec(s, xs), ys)
    decreases |xs|
  {
    if xs == [] {
      assert xs + ys == ys;
    } else {
      assert (xs + ys)[1..] == xs[1..] + ys;
      ExecAppend(Apply(s, xs[0]), xs[1..], ys);
    }
  }

  // Until another replay begins, a socket receives the entry at most as often as there are chances,
  // and some continuation uses them all.
  lemma ChancesAreExact(s: State, id: nat, socket: string, n: nat)
    requires Ordered(s)
    ensures (exists more: seq<Step> :: NoneBegins(more) && Copies(Exec(s, more).sends, id, socket) >= n) <==>
            Chances(s, id, socket) >= n
  {
    if Chances(s, id, socket) >= n {
      var more := AllReach(s, id, socket);
      assert NoneBegins(more) && Copies(Exec(s, more).sends, id, socket) >= n;
    } else {
      forall more: seq<Step> | NoneBegins(more) ensures Copies(Exec(s, more).sends, id, socket) < n {
        RunChances(s, more, id, socket);
      }
    }
  }

  // ---- Exactly when a socket receives an entry at most once ----

  // A replay begins although the socket received the entry, which is still in the stream, or an open
  // replay has it ahead.
  ghost predicate Risks(s: State, step: Step, id: nat, socket: string) {
    && step.Begin? && Enabled(s, step) && Queued(s, id)
    && (Copies(s.sends, id, socket) > 0 || ReplaysAhead(s, id) != {})
  }

  ghost predicate NeverRisks(s: State, steps: seq<Step>, id: nat, socket: string)
    decreases |steps|
  {
    steps == [] || (!Risks(s, steps[0], id, socket) && NeverRisks(Apply(s, steps[0]), steps[1..], id, socket))
  }

  // At every point of the run the socket received the entry at most once, and would in every
  // continuation in which no further replay begins.
  ghost predicate AlwaysOnce(s: State, steps: seq<Step>, id: nat, socket: string)
    decreases |steps|
  {
    && (forall more: seq<Step> :: NoneBegins(more) ==> Copies(Exec(s, more).sends, id, socket) <= 1)
    && (steps == [] || AlwaysOnce(Apply(s, steps[0]), steps[1..], id, socket))
  }

  lemma RiskChances(s: State, step: Step, id: nat, socket: string)
    requires Ordered(s) && Chances(s, id, socket) <= 1
    ensures Chances(Apply(s, step), id, socket) >= 2 <==> Risks(s, step, id, socket)
  {
    if step.Begin? && Enabled(s, step) {
      BeginChances(s, step.replay, id, socket);
      assert Chances(s, id, socket) == 0 <==> Copies(s.sends, id, socket) == 0 && ReplaysAhead(s, id) == {};
    } else {
      StepChances(s, step, id, socket);
    }
  }

  lemma {:induction false} OnceIff(s: State, steps: seq<Step>, id: nat, socket: string)
    requires Ordered(s) && Chances(s, id, socket) <= 1
    ensures AlwaysOnce(s, steps, id, socket) <==> NeverRisks(s, steps, id, socket)
    decreases |steps|
  {
    ChancesAreExact(s, id, socket, 2);
    if steps != [] {
      var s' := Apply(s, steps[0]);
      StepOrdered(s, steps[0]);
      RiskChances(s, steps[0], id, socket);
      if Risks(s, steps[0], id, socket) {
        ChancesAreExact(s', id, socket, 2);
      } else {
        OnceIff(s', steps[1..], id, socket);
      }
    }
  }

  // In every run, whatever writes fail: a socket receives and will receive an entry at most once if
  // and only if no replay begins while the entry is in the stream and the socket has received it, in
  // full or in a send that failed elsewhere, or an open replay has it ahead.
  lemma ReceivedOnceIff(steps: seq<Step>, id: nat, socket: string)
    ensures AlwaysOnce(EMPTY, steps, id, socket) <==> NeverRisks(EMPTY, steps, id, socket)
  {
    assert ReplaysAhead(EMPTY, id) == {};
    OnceIff(EMPTY, steps, id, socket);
  }

  // ---- Replays one at a time ----

  // No replay begins while another is open, every replay deletes what it acknowledged, and no send
  // that fails elsewhere reaches this socket.
  predicate Serial(s: State, steps: seq<Step>, socket: string)
    decreases |steps|
  {
    steps == [] ||
    (&& (Enabled(s, steps[0]) ==>
           match steps[0]
           case Begin(_) => s.replays == map[]
           case Finish(_, deleted) => deleted
           case Turn(replay, to, broken) =>
             Passes(s.replays[replay].snapshot[s.replays[replay].next], to, broken) || socket !in to - broken
           case _ => true)
     && Serial(Apply(s, steps[0]), steps[1..], socket))
  }

  // At most one replay is open, and entries the socket received that are still in the stream are
  // acknowledged by it.
  ghost predicate OneAtATime(s: State, socket: string) {
    && (forall q, r :: q in s.replays && r in s.replays ==> q == r)
    && (forall e :: e in s.stream && Copies(s.sends, e.id, socket) > 0 ==>
          exists r :: r in s.replays && e.id in s.replays[r].acked)
    && (forall id: nat :: Copies(s.sends, id, socket) > 0 ==> id < |s.appended|)
    && (forall r :: r in s.replays ==> forall e :: e in s.replays[r].snapshot ==> e.id < |s.appended|)
  }

  lemma TurnOneAtATime(s: State, step: Step, socket: string)
    requires Ordered(s) && OneAtATime(s, socket) && step.Turn? && Enabled(s, step) && Serial(s, [step], socket)
    ensures OneAtATime(Apply(s, step), socket)
  {
    var s' := Apply(s, step);
    var p := s.replays[step.replay];
    var entry := p.snapshot[p.next];
    assert entry in p.snapshot;
    forall id: nat
      ensures Copies(s'.sends, id, socket) > 0 ==>
                Copies(s.sends, id, socket) > 0 || (id == entry.id && id in s'.replays[step.replay].acked)
    {
      CopiesNext(s.sends, Sent(entry.id, step.to - step.broken), id, socket);
    }
    forall e | e in s'.stream && Copies(s'.sends, e.id, socket) > 0 ensures e.id in s'.replays[step.replay].acked {
      if Copies(s.sends, e.id, socket) > 0 {
        var r :| r in s.replays && e.id in s.replays[r].acked;
        assert r == step.replay;
      }
    }
  }

  lemma StepOneAtATime(s: State, step: Step, socket: string)
    requires Ordered(s) && OneAtATime(s, socket) && Serial(s, [step], socket)
    ensures OneAtATime(Apply(s, step), socket)
  {
    if Enabled(s, step) && step.Turn? {
      TurnOneAtATime(s, step, socket);
    }
  }

  lemma {:induction false} SerialNeverRisks(s: State, steps: seq<Step>, id: nat, socket: string)
    requires Ordered(s) && OneAtATime(s, socket) && Serial(s, steps, socket)
    ensures NeverRisks(s, steps, id, socket)
    decreases |steps|
  {
    if steps != [] {
      var step := steps[0];
      assert Serial(s, [step], socket);
      StepOrdered(s, step);
      StepOneAtATime(s, step, socket);
      SerialNeverRisks(Apply(s, step), steps[1..], id, socket);
    }
  }

  // So if replays run one at a time, all deletions work and no send fails half-way past this socket,
  // it receives no entry twice.
  lemma SerialReceivesOnce(steps: seq<Step>, id: nat, socket: string)
    requires Serial(EMPTY, steps, socket)
    ensures Copies(Exec(EMPTY, steps).sends, id, socket) <= 1
  {
    SerialNeverRisks(EMPTY, steps, id, socket);
    ReceivedOnceIff(steps, id, socket);
    OnceAtTheEnd(EMPTY, steps, id, socket);
  }

  lemma {:induction false} OnceAtTheEnd(s: State, steps: seq<Step>, id: nat, socket: string)
    requires AlwaysOnce(s, steps, id, socket)
    ensures Copies(Exec(s, steps).sends, id, socket) <= 1
    decreases |steps|
  {
    if steps == [] {
      assert NoneBegins([]);
      assert Exec(s, []) == s;
    } else {
      OnceAtTheEnd(Apply(s, steps[0]), steps[1..], id, socket);
    }
  }

  // ---- Three ways to receive an entry twice ----

  // A replay that begins while the entry is in the stream and the socket has it, or will.
  lemma BeginRepeats(steps: seq<Step>, replay: nat, id: nat, socket: string)
    requires Risks(Exec(EMPTY, steps), Begin(replay), id, socket)
    ensures var begun := Apply(Exec(EMPTY, steps), Begin(replay));
            exists more: seq<Step> :: NoneBegins(more) && Copies(Exec(begun, more).sends, id, socket) >= 2
  {
    RunOrdered(EMPTY, steps);
    var s := Exec(EMPTY, steps);
    BeginChances(s, replay, id, socket);
    StepOrdered(s, Begin(replay));
    assert ReplaysAhead(s, id) != {} ==> |ReplaysAhead(s, id)| > 0;
    ChancesAreExact(Apply(s, Begin(replay)), id, socket, 2);
  }

  // One entry, and a first replay that has begun.
  function OneReplay(msg: WSMessage): State {
    Apply(Apply(EMPTY, Append(Some(msg))), Begin(0))
  }

  lemma OneReplayIs(msg: WSMessage)
    ensures var e := Entry(0, Some(msg));
            && OneReplay(msg) == State([e], [e], {}, multiset{}, [], map[0 := Progress([e], 0, {}, false)])
            && e in OneReplay(msg).stream
  {
    assert [] + [Entry(0, Some(msg))] == [Entry(0, Some(msg))];
  }

  // A second replay begins while the first is open.
  lemma ConcurrentReplaysDuplicate(msg: WSMessage, socket: string)
    ensures Risks(OneReplay(msg), Begin(1), 0, socket)
  {
    OneReplayIs(msg);
    var s := OneReplay(msg);
    assert s.replays[0].snapshot[0] == Entry(0, Some(msg));
    assert Ahead(s.replays[0], 0) && 0 in ReplaysAhead(s, 0);
  }

  // The state after a turn at the only entry and the end of that replay.
  lemma OneTurnThenFinish(msg: WSMessage, to: set<string>, broken: set<string>, deleted: bool, socket: string)
    requires socket in to - broken
    requires Passes(Entry(0, Some(msg)), to, broken) ==> !deleted
    ensures var s := Apply(Apply(OneReplay(msg), Turn(0, to, broken)), Finish(0, deleted));
            s.stream == [Entry(0, Some(msg))] && s.replays == map[] && Copies(s.sends, 0, socket) == 1
  {
    OneReplayIs(msg);
    CopiesNext([], Sent(0, to - broken), 0, socket);
    assert [] + [Sent(0, to - broken)] == [Sent(0, to - broken)];
    var turned := Apply(OneReplay(msg), Turn(0, to, broken));
    assert turned.sends == [Sent(0, to - broken)] && turned.stream == [Entry(0, Some(msg))];
    if deleted {
      assert turned.replays[0].acked == {};
      WithoutNothing(turned.stream, {});
    }
  }

  // A second replay begins after the deletion of the first failed.
  lemma FailedDeletionDuplicates(msg: WSMessage, socket: string)
    ensures Risks(Apply(Apply(OneReplay(msg), Turn(0, {socket}, {})), Finish(0, false)), Begin(1), 0, socket)
  {
    OneTurnThenFinish(msg, {socket}, {}, false, socket);
    assert Entry(0, Some(msg)) in [Entry(0, Some(msg))];
  }

  // A second replay begins after a write to another socket failed, which paused the first with
  // nothing to delete.
  lemma PartialFailureDuplicates(msg: WSMessage, socket: string, other: string)
    requires socket != other
    ensures Risks(Apply(Apply(OneReplay(msg), Turn(0, {socket, other}, {other})), Finish(0, true)), Begin(1), 0, socket)
  {
    OneTurnThenFinish(msg, {socket, other}, {other}, true, socket);
    assert Entry(0, Some(msg)) in [Entry(0, Some(msg))];
  }

  lemma ExecFirst(s: State, step: Step, rest: seq<Step>)
    ensures Exec(s, [step] + rest) == Exec(Apply(s, step), rest)
  {
    assert ([step] + rest)[1..] == rest;
  }

  // ---- Uninterrupted, the steps of a replay are the method ----

  // The turns of the loop; the first whose entry does not pass is the last.
  function TurnsFrom(replay: nat, stream: seq<Entry>, to: set<string>, broken: nat -> set<string>, i: nat): seq<Step>
    decreases |stream| - i
  {
    if i >= |stream| then []
    else [Turn(replay, to, broken(i))]
         + if Passes(stream[i], to, broken(i)) then TurnsFrom(replay, stream, to, broken, i + 1) else []
  }

  function WellFormedIds(entries: seq<Entry>): multiset<nat> {
    if entries == [] then multiset{}
    else (if entries[0].payload.Some? then multiset{entries[0].id} else multiset{}) + WellFormedIds(entries[1..])
  }

  // The sends of the entries from `i` up to `stop`, each to all sockets.
  function FullSends(entries: seq<Entry>, to: set<string>): seq<Sent> {
    if entries == [] then []
    else (if entries[0].payload.Some? then [Sent(entries[0].id, to)] else []) + FullSends(entries[1..], to)
  }

  // A replay once it has passed the entries before `stop`, where it pauses if any are left.
  function Passed(p: Progress, stop: nat): Progress
    requires p.next <= stop <= |p.snapshot|
  {
    Progress(p.snapshot, stop, p.acked + Ids(p.snapshot[p.next..stop]), stop < |p.snapshot|)
  }

  // The sends of such a replay: in full before `stop`, and to the working sockets there.
  function SendsUpTo(entries: seq<Entry>, i: nat, to: set<string>, broken: nat -> set<string>, stop: nat): seq<Sent>
    requires i <= stop <= |entries|
  {
    FullSends(entries[i..stop], to) + if stop < |entries| then [Sent(entries[stop].id, to - broken(stop))] else []
  }

  function Replayed(s: State, replay: nat, to: set<string>, broken: nat -> set<string>, stop: nat): State
    requires replay in s.replays && s.replays[replay].next <= stop <= |s.replays[replay].snapshot|
  {
    var p := s.replays[replay];
    s.(replays := s.replays[replay := Passed(p, stop)],
       delivered := s.delivered + WellFormedIds(p.snapshot[p.next..stop]),
       sends := s.sends + SendsUpTo(p.snapshot, p.next, to, broken, stop))
  }

  lemma LastTurn(s: State, replay: nat, to: set<string>, broken: nat -> set<string>, i: nat)
    requires replay in s.replays && s.replays[replay].next == i && !s.replays[replay].paused
    requires StopsAt(s.replays[replay].snapshot, to, broken, i)
    ensures Exec(s, TurnsFrom(replay, s.replays[replay].snapshot, to, broken, i)) == Replayed(s, replay, to, broken, i)
  {
    var p := s.replays[replay];
    assert p.snapshot[i..i] == [] && p.acked + Ids([]) == p.acked && s.delivered + WellFormedIds([]) == s.delivered;
    if i < |p.snapshot| {
      assert TurnsFrom(replay, p.snapshot, to, broken, i) == [Turn(replay, to, broken(i))] + [];
      ExecFirst(s, Turn(replay, to, broken(i)), []);
      assert FullSends([], to) + [Sent(p.snapshot[i].id, to - broken(i))] == [Sent(p.snapshot[i].id, to - broken(i))];
    } else {
      assert s.replays[replay := p] == s.replays;
      assert FullSends([], to) + [] == [] && s.sends + [] == s.sends;
    }
  }

  lemma OneMore(entries: seq<Entry>, i: nat, stop: nat, to: set<string>)
    requires i < stop <= |entries|
    ensures Ids(entries[i..stop]) == {entries[i].id} + Ids(entries[i + 1..stop])
    ensures WellFormedIds(entries[i..stop])
         == (if entries[i].payload.Some? then multiset{entries[i].id} else multiset{})
             + WellFormedIds(entries[i + 1..stop])
    ensures FullSends(entries[i..stop], to)
         == (if entries[i].payload.Some? then [Sent(entries[i].id, to)] else []) + FullSends(entries[i + 1..stop], to)
  {
    assert entries[i..stop] == [entries[i]] + entries[i + 1..stop];
    assert entries[i..stop][1..] == entries[i + 1..stop];
  }

  lemma PassingProgress(p: Progress, stop: nat)
    requires p.next < stop <= |p.snapshot|
    ensures Passed(Turned(p, true), stop) == Passed(p, stop)
  {
    OneMore(p.snapshot, p.next, stop, {});
    var now := p.snapshot[p.next];
    assert p.acked + {now.id} + Ids(p.snapshot[p.next + 1..stop]) == p.acked + Ids(p.snapshot[p.next..stop]);
  }

  lemma PassingDelivers(delivered: multiset<nat>, entries: seq<Entry>, i: nat, stop: nat)
    requires i < stop <= |entries|
    ensures (if entries[i].payload.Some? then delivered + multiset{entries[i].id} else delivered)
            + WellFormedIds(entries[i + 1..stop])
         == delivered + WellFormedIds(entries[i..stop])
  {
    OneMore(entries, i, stop, {});
  }

  lemma PassingSends(sends: seq<Sent>, entries: seq<Entry>, i: nat, to: set<string>, broken: nat -> set<string>,
                     stop: nat)
    requires i < stop <= |entries|
    ensures (if entries[i].payload.Some? then sends + [Sent(entries[i].id, to)] else sends)
            + SendsUpTo(entries, i + 1, to, broken, stop)
         == sends + SendsUpTo(entries, i, to, broken, stop)
  {
    OneMore(entries, i, stop, to);
  }

  lemma TwoUpdates(m: map<nat, Progress>, k: nat, x: Progress, y: Progress)
    ensures m[k := x][k := y] == m[k := y]
  {
  }

  // What a turn that passes leaves.
  function PassedOne(s: State, replay: nat, to: set<string>): State
    requires replay in s.replays && s.replays[replay].next < |s.replays[replay].snapshot|
  {
    var p := s.replays[replay];
    var entry := p.snapshot[p.next];
    s.(replays := s.replays[replay := Turned(p, true)],
       sends := if entry.payload.Some? then s.sends + [Sent(entry.id, to)] else s.sends,
       delivered := if entry.payload.Some? then s.delivered + multiset{entry.id} else s.delivered)
  }

  lemma PassingTurn(s: State, replay: nat, to: set<string>, broken: set<string>)
    requires Enabled(s, Turn(replay, to, broken))
    requires Passes(s.replays[replay].snapshot[s.replays[replay].next], to, broken)
    ensures Apply(s, Turn(replay, to, broken)) == PassedOne(s, replay, to)
  {
    if s.replays[replay].snapshot[s.replays[replay].next].payload.Some? {
      assert to - broken == to;
    }
  }

  lemma PassedThenReplayed(s: State, replay: nat, to: set<string>, broken: nat -> set<string>, stop: nat)
    requires replay in s.replays && s.replays[replay].next < stop <= |s.replays[replay].snapshot|
    ensures Replayed(PassedOne(s, replay, to), replay, to, broken, stop) == Replayed(s, replay, to, broken, stop)
  {
    var p := s.replays[replay];
    PassingProgress(p, stop);
    PassingDelivers(s.delivered, p.snapshot, p.next, stop);
    PassingSends(s.sends, p.snapshot, p.next, to, broken, stop);
    TwoUpdates(s.replays, replay, Turned(p, true), Passed(p, stop));
  }

  lemma {:induction false} TurnsRun(s: State, replay: nat, to: set<string>, broken: nat -> set<string>, i: nat,
                                    stop: nat)
    requires replay in s.replays && s.replays[replay].next == i <= stop && !s.replays[replay].paused
    requires StopsAt(s.replays[replay].snapshot, to, broken, stop)
    ensures Exec(s, TurnsFrom(replay, s.replays[replay].snapshot, to, broken, i))
         == Replayed(s, replay, to, broken, stop)
    decreases stop - i
  {
    if i == stop {
      LastTurn(s, replay, to, broken, i);
    } else {
      var turn := Turn(replay, to, broken(i));
      PassingTurn(s, replay, to, broken(i));
      PassedThenReplayed(s, replay, to, broken, stop);
      TurnsRun(PassedOne(s, replay, to), replay, to, broken, i + 1, stop);
      ExecFirst(s, turn, TurnsFrom(replay, s.replays[replay].snapshot, to, broken, i + 1));
    }
  }

  // What a replay with nothing else going on leaves.
  function AfterReplay(s: State, to: set<string>, broken: nat -> set<string>, deleted: bool, stop: nat): State
    requires stop <= |s.stream|
  {
    s.(stream := if deleted then s.stream[stop..] else s.stream,
       delivered := s.delivered + WellFormedIds(s.stream[..stop]),
       sends := s.sends + SendsUpTo(s.stream, 0, to, broken, stop))
  }

  // What ReplayUserStream ensures about `stop`, about `left` and about who received what is what its
  // steps do: the entries before `stop` in full, and the one at `stop` to the working sockets.
  lemma ReplayIsItsSteps(s: State, replay: nat, to: set<string>, broken: nat -> set<string>, deleted: bool, stop: nat)
    requires replay !in s.replays && UniqueIds(s.stream) && StopsAt(s.stream, to, broken, stop)
    ensures Exec(s, [Begin(replay)] + (TurnsFrom(replay, s.stream, to, broken, 0) + [Finish(replay, deleted)]))
         == AfterReplay(s, to, broken, deleted, stop)
  {
    var turns := TurnsFrom(replay, s.stream, to, broken, 0);
    var s1 := Apply(s, Begin(replay));
    TurnsRun(s1, replay, to, broken, 0, stop);
    ExecFirst(s, Begin(replay), turns + [Finish(replay, deleted)]);
    ExecAppend(s1, turns, [Finish(replay, deleted)]);
    ExecFirst(Replayed(s1, replay, to, broken, stop), Finish(replay, deleted), []);
    FinishReplayed(s, replay, to, broken, deleted, stop);
  }

  lemma FinishReplayed(s: State, replay: nat, to: set<string>, broken: nat -> set<string>, deleted: bool, stop: nat)
    requires replay !in s.replays && UniqueIds(s.stream) && stop <= |s.stream|
    ensures Apply(Replayed(Apply(s, Begin(replay)), replay, to, broken, stop), Finish(replay, deleted))
         == AfterReplay(s, to, broken, deleted, stop)
  {
    ReplayedFromStart(s, replay, to, broken, stop);
    WithoutPrefix(s.stream, stop);
  }

  lemma ReplayedFromStart(s: State, replay: nat, to: set<string>, broken: nat -> set<string>, stop: nat)
    requires replay !in s.replays && stop <= |s.stream|
    ensures var s2 := Replayed(Apply(s, Begin(replay)), replay, to, broken, stop);
            && s2.replays[replay] == Progress(s.stream, stop, Ids(s.stream[..stop]), stop < |s.stream|)
            && s2.replays - {replay} == s.replays && s2.stream == s.stream && s2.appended == s.appended
            && s2.trimmed == s.trimmed && s2.delivered == s.delivered + WellFormedIds(s.stream[..stop])
            && s2.sends == s.sends + SendsUpTo(s.stream, 0, to, broken, stop)
  {
    var s1 := Apply(s, Begin(replay));
    assert s1.replays[replay] == Progress(s.stream, 0, {}, false);
    assert s.stream[0..stop] == s.stream[..stop];
    assert {} + Ids(s.stream[..stop]) == Ids(s.stream[..stop]);
    var done := Passed(Progress(s.stream, 0, {}, false), stop);
    assert s1.replays[replay := done] - {replay} == s.replays;
  }

  // Counted per socket: each socket of the user receives every well-formed entry before `stop` once,
  // the one at `stop` if its write works, and nobody else receives anything.
  lemma {:induction false} FullSendsCount(entries: seq<Entry>, to: set<string>, id: nat, socket: string)
    ensures Copies(FullSends(entries, to), id, socket) == if socket in to then WellFormedIds(entries)[id] else 0
  {
    if entries != [] {
      FullSendsCount(entries[1..], to, id, socket);
      var first := if entries[0].payload.Some? then [Sent(entries[0].id, to)] else [];
      CopiesAppend(first, FullSends(entries[1..], to), id, socket);
      if entries[0].payload.Some? {
        CopiesNext([], Sent(entries[0].id, to), id, socket);
        assert [] + [Sent(entries[0].id, to)] == [Sent(entries[0].id, to)];
      }
    }
  }

  lemma {:induction false} CopiesAppend(x: seq<Sent>, y: seq<Sent>, id: nat, socket: string)
    ensures Copies(x + y, id, socket) == Copies(x, id, socket) + Copies(y, id, socket)
  {
    if y == [] {
      assert x + y == x;
    } else {
      CopiesAppend(x, y[..|y| - 1], id, socket);
      assert (x + y)[..|x + y| - 1] == x + y[..|y| - 1];
    }
  }

  lemma ReplayReceipts(s: State, to: set<string>, broken: nat -> set<string>, deleted: bool, stop: nat,
                       id: nat, socket: string)
    requires stop <= |s.stream|
    ensures Copies(AfterReplay(s, to, broken, deleted, stop).sends, id, socket)
         == Copies(s.sends, id, socket)
            + (if socket in to then WellFormedIds(s.stream[..stop])[id] else 0)
            + (if stop < |s.stream| && s.stream[stop].id == id && socket in to - broken(stop) then 1 else 0)
  {
    var full := FullSends(s.stream[0..stop], to);
    assert s.stream[0..stop] == s.stream[..stop];
    FullSendsCount(s.stream[..stop], to, id, socket);
    CopiesAppend(s.sends, SendsUpTo(s.stream, 0, to, broken, stop), id, socket);
    if stop < |s.stream| {
      CopiesNext(full, Sent(s.stream[stop].id, to - broken(stop)), id, socket);
    } else {
      assert full + [] == full;
    }
  }
}
