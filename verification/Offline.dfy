// shared/messaging/rcm.go: the messages sent to one user, across any number of gateway nodes, from
// the send to a socket or to the offline stream and its replays. A send tries the local sockets,
// publishes, and appends to the stream when nobody received the publish; these are three steps, and
// connects, disconnects, subscriptions, deliveries and replays fall between them.
module Offline {
  import opened Failing
  import opened Options
  import opened Registry
  import opened Gateway
  import R = Replay

  // Messages are numbered in the order of their sends. `trying` holds those the local sockets did
  // not take, `waiting` those published to nobody and not yet appended, `inFlight` the packets on
  // their way to a node. A message is `reached` once some socket received it, in `vain` once a packet
  // of it arrived where no socket could be written, `refused` once its sender was told of an error,
  // and `entryOf` is its entry in the stream.
  datatype State = State(
    sent: seq<WSMessage>,
    sockets: map<nat, set<string>>,
    subscribed: set<nat>,
    trying: set<nat>,
    waiting: set<nat>,
    inFlight: multiset<(nat, nat)>,
    reached: set<nat>,
    vain: set<nat>,
    refused: set<nat>,
    entryOf: map<nat, nat>,
    stream: R.State)

  const START := State([], map[], {}, {}, {}, multiset{}, {}, {}, {}, map[], R.EMPTY)

  // Whatever a node's registry does to the user's sockets and subscription is a Change.
  datatype Step =
    | Change(node: nat, sockets: set<string>, subscribed: bool)
    | Send(node: nat, msg: WSMessage, broken: set<string>)
    | Publish(k: nat, fault: Fault)
    | Append(k: nat, fault: Fault)
    | Deliver(node: nat, k: nat, broken: set<string>)
    | OnStream(step: R.Step)

  function At(s: State, node: nat): set<string> {
    if node in s.sockets then s.sockets[node] else {}
  }

  function Packets(s: State, k: nat): multiset<(nat, nat)> {
    multiset(set n | n in s.subscribed :: (n, k))
  }

  predicate Enabled(s: State, step: Step) {
    match step
    case Publish(k, _) => k in s.trying
    case Append(k, _) => k in s.waiting
    case Deliver(node, k, _) => (node, k) in s.inFlight
    case OnStream(st) => !st.Append?
    case _ => true
  }

  // A step that is not enabled changes nothing. Sockets whose writes fail are dropped.
  function Apply(s: State, step: Step): State {
    if !Enabled(s, step) then s else
      match step
      case Change(node, sockets, subscribed) =>
        s.(sockets := s.sockets[node := sockets],
           subscribed := if subscribed then s.subscribed + {node} else s.subscribed - {node})
      case Send(node, msg, broken) =>
        var k, to := |s.sent|, At(s, node);
        s.(sent := s.sent + [msg],
           sockets := s.sockets[node := to - broken],
           reached := if to - broken != {} then s.reached + {k} else s.reached,
           trying := if to != {} && to !! broken then s.trying else s.trying + {k})
      case Publish(k, fault) =>
        var done := s.(trying := s.trying - {k}, refused := if fault == Works then s.refused else s.refused + {k});
        if fault == FailsBefore then done
        else if s.subscribed != {} then done.(inFlight := s.inFlight + Packets(s, k))
        else if fault == Works then done.(waiting := s.waiting + {k})
        else done
      case Append(k, fault) =>
        var done := s.(waiting := s.waiting - {k}, refused := if fault == Works then s.refused else s.refused + {k});
        if fault == FailsBefore || k >= |s.sent| then done
        else done.(entryOf := s.entryOf[k := |s.stream.appended|],
                   stream := R.Apply(s.stream, R.Append(Some(s.sent[k]))))
      case Deliver(node, k, broken) =>
        var got := At(s, node) - broken;
        s.(inFlight := s.inFlight - multiset{(node, k)},
           sockets := s.sockets[node := got],
           reached := if got != {} then s.reached + {k} else s.reached,
           vain := if got == {} then s.vain + {k} else s.vain)
      case OnStream(st) => s.(stream := R.Apply(s.stream, st))
  }

  function Exec(s: State, steps: seq<Step>): State
    decreases |steps|
  {
    if steps == [] then s else Exec(Apply(s, steps[0]), steps[1..])
  }

  // ---- Where every message is ----

  ghost predicate Flying(inFlight: multiset<(nat, nat)>, k: nat) {
    exists n: nat :: (n, k) in inFlight
  }

  // A message was published to subscribers, or kept, or neither yet, and never both.
  ghost predicate Accounted(s: State, k: nat) {
    var flying := Flying(s.inFlight, k);
    && (k < |s.sent| ==>
          || k in s.trying || k in s.waiting || flying
          || k in s.reached || k in s.vain || k in s.refused || k in s.entryOf)
    && (k in s.trying || k in s.waiting || flying || k in s.reached || k in s.vain || k in s.entryOf ==> k < |s.sent|)
    && (k in s.trying ==> k !in s.waiting && !flying && k !in s.vain && k !in s.entryOf)
    && (k in s.waiting || k in s.entryOf ==> !flying && k !in s.vain)
    && (k in s.waiting ==> k !in s.entryOf)
  }

  // The entry of a kept message holds that message, and no two messages share one.
  ghost predicate Entries(sent: seq<WSMessage>, entryOf: map<nat, nat>, appended: seq<R.Entry>) {
    && (forall k :: k in entryOf ==>
          k < |sent| && entryOf[k] < |appended| && appended[entryOf[k]].payload == Some(sent[k]))
    && (forall j, k :: j in entryOf && k in entryOf && j != k ==> entryOf[j] != entryOf[k])
  }

  ghost predicate Entered(s: State) {
    R.Safe(s.stream) && Entries(s.sent, s.entryOf, s.stream.appended)
  }

  lemma FlyingPackets(s: State, k: nat, j: nat)
    ensures Flying(s.inFlight + Packets(s, k), j) <==> Flying(s.inFlight, j) || (j == k && s.subscribed != {})
  {
    var more := s.inFlight + Packets(s, k);
    if j == k && s.subscribed != {} {
      var n :| n in s.subscribed;
      assert (n, k) in Packets(s, k);
      assert (n, j) in more;
    }
    if n: nat :| (n, j) in s.inFlight {
      assert (n, j) in more;
    }
    if n: nat :| (n, j) in more {
      assert (n, j) in s.inFlight || (n, j) in Packets(s, k);
    }
  }

  lemma FlyingWithout(inFlight: multiset<(nat, nat)>, p: (nat, nat), j: nat)
    requires p in inFlight
    ensures Flying(inFlight - multiset{p}, j) ==> Flying(inFlight, j)
    ensures Flying(inFlight, j) ==> Flying(inFlight - multiset{p}, j) || j == p.1
    ensures Flying(inFlight, p.1)
  {
    assert (p.0, p.1) in inFlight;
    if n: nat :| (n, j) in inFlight && j != p.1 {
      assert (n, j) in inFlight - multiset{p};
    }
  }

  lemma SendAccounted(s: State, step: Step, k: nat)
    requires Accounted(s, k) && step.Send?
    ensures Accounted(Apply(s, step), k)
  {
  }

  lemma PublishAccounted(s: State, step: Step, k: nat)
    requires Accounted(s, k) && step.Publish? && Enabled(s, step)
    ensures Accounted(Apply(s, step), k)
  {
    FlyingPackets(s, step.k, k);
  }

  lemma AppendAccounted(s: State, step: Step, k: nat)
    requires Accounted(s, k) && step.Append? && Enabled(s, step)
    ensures Accounted(Apply(s, step), k)
  {
  }

  lemma DeliverAccounted(s: State, step: Step, k: nat)
    requires Accounted(s, k) && step.Deliver? && Enabled(s, step)
    ensures Accounted(Apply(s, step), k)
  {
    FlyingWithout(s.inFlight, (step.node, step.k), k);
  }

  lemma StepAccounted(s: State, step: Step, k: nat)
    requires Accounted(s, k)
    ensures Accounted(Apply(s, step), k)
  {
    if Enabled(s, step) {
      match step
      case Send(_, _, _) => SendAccounted(s, step, k);
      case Publish(_, _) => PublishAccounted(s, step, k);
      case Append(_, _) => AppendAccounted(s, step, k);
      case Deliver(_, _, _) => DeliverAccounted(s, step, k);
      case _ =>
    }
  }

  lemma OneMoreEntry(sent: seq<WSMessage>, entryOf: map<nat, nat>, appended: seq<R.Entry>, k: nat, e: R.Entry)
    requires Entries(sent, entryOf, appended) && k < |sent| && e.payload == Some(sent[k])
    ensures Entries(sent, entryOf[k := |appended|], appended + [e])
  {
  }

  lemma AppendEntered(s: State, k: nat, fault: Fault)
    requires Accounted(s, k) && Entered(s) && k in s.waiting
    ensures Entered(Apply(s, Append(k, fault)))
  {
    var append := R.Append(Some(s.sent[k]));
    R.StepSafe(s.stream, append);
    var e := R.Entry(|s.stream.appended|, Some(s.sent[k]));
    OneMoreEntry(s.sent, s.entryOf, s.stream.appended, k, e);
    assert R.Apply(s.stream, append).appended == s.stream.appended + [e];
  }

  lemma StepEntered(s: State, step: Step)
    requires (forall k: nat :: Accounted(s, k)) && Entered(s)
    ensures Entered(Apply(s, step))
  {
    if Enabled(s, step) {
      match step
      case Append(k, fault) => AppendEntered(s, k, fault);
      case OnStream(st) => StreamEntered(s, st);
      case _ =>
    }
  }

  lemma StreamEntered(s: State, step: R.Step)
    requires Entered(s) && !step.Append?
    ensures Entered(s.(stream := R.Apply(s.stream, step)))
  {
    R.StepSafe(s.stream, step);
    assert R.Apply(s.stream, step).appended == s.stream.appended;
  }

  lemma {:induction false} RunAccounted(s: State, steps: seq<Step>)
    requires (forall k: nat :: Accounted(s, k)) && Entered(s)
    ensures (forall k: nat :: Accounted(Exec(s, steps), k)) && Entered(Exec(s, steps))
    decreases |steps|
  {
    if steps != [] {
      forall k: nat ensures Accounted(Apply(s, steps[0]), k) {
        StepAccounted(s, steps[0], k);
      }
      StepEntered(s, steps[0]);
      RunAccounted(Apply(s, steps[0]), steps[1..]);
    }
  }

  lemma RunAccounts(steps: seq<Step>, k: nat)
    ensures Accounted(Exec(START, steps), k) && Entered(Exec(START, steps))
  {
    RunAccounted(START, steps);
  }

  // Over every run, with any interleaving and any failures: a message is still on its way, or its
  // sender was told of an error, or some socket received it, or a packet of it arrived in vain, or it
  // was kept; and what was kept is in the stream, was trimmed, or was replayed in full.
  lemma NothingVanishes(steps: seq<Step>, k: nat)
    requires k < |Exec(START, steps).sent|
    ensures var s := Exec(START, steps);
            || k in s.trying || k in s.waiting || Flying(s.inFlight, k)
            || k in s.refused || k in s.reached || k in s.vain || k in s.entryOf
    ensures var s := Exec(START, steps);
            k in s.entryOf ==>
              var id := s.entryOf[k];
              && id < |s.stream.appended| && s.stream.appended[id].payload == Some(s.sent[k])
              && (s.stream.appended[id] in s.stream.stream || id in s.stream.trimmed || s.stream.delivered[id] >= 1)
  {
    RunAccounts(steps, k);
  }

  // Nothing is on its way.
  predicate AtRest(s: State) {
    s.trying == {} && s.waiting == {} && s.inFlight == multiset{}
  }

  // Once nothing is on its way: a message was silently lost, neither received nor kept nor refused,
  // exactly when it was published to subscribers and its packets arrived in vain, every one of them.
  lemma LostIff(steps: seq<Step>, k: nat)
    requires k < |Exec(START, steps).sent| && AtRest(Exec(START, steps))
    ensures var s := Exec(START, steps);
            (k !in s.reached && k !in s.refused && k !in s.entryOf) <==>
            (k in s.vain && k !in s.reached && k !in s.refused)
  {
    RunAccounts(steps, k);
  }

  // ---- How long a kept message stays ----

  // Every replay sends all its entries to all sockets and deletes them.
  predicate Smooth(s: R.State, steps: seq<R.Step>)
    decreases |steps|
  {
    steps == [] ||
    (&& (R.Enabled(s, steps[0]) ==>
           match steps[0]
           case Turn(replay, to, broken) => R.Passes(s.replays[replay].snapshot[s.replays[replay].next], to, broken)
           case Finish(_, deleted) => deleted
           case _ => true)
     && Smooth(R.Apply(s, steps[0]), steps[1..]))
  }

  // Whether some replay began after the entry was appended.
  predicate BegunSince(s: R.State, steps: seq<R.Step>, id: nat, begun: bool)
    decreases |steps|
  {
    if steps == [] then begun
    else
      var now := R.Enabled(s, steps[0]) && steps[0].Begin? && id < |s.appended|;
      BegunSince(R.Apply(s, steps[0]), steps[1..], id, begun || now)
  }

  // An open replay acknowledged what it passed, and is not paused.
  ghost predicate Regular(p: R.Progress) {
    !p.paused && p.next <= |p.snapshot| && p.acked == R.Ids(p.snapshot[..p.next])
  }

  // An entry no replay began after is where it was; one that is still there despite a replay is in
  // the hands of an open one.
  ghost predicate Tracks(s: R.State, id: nat, begun: bool) {
    && R.Safe(s) && R.Ordered(s)
    && (forall r :: r in s.replays ==> Regular(s.replays[r]))
    && (begun ==> id < |s.appended|)
    && (id < |s.appended| ==>
          if begun then
            s.appended[id] in s.stream ==> exists r :: r in s.replays && s.appended[id] in s.replays[r].snapshot
          else (s.appended[id] in s.stream || id in s.trimmed)
               && forall r :: r in s.replays ==> s.appended[id] !in s.replays[r].snapshot)
  }

  lemma SmoothTurn(p: R.Progress)
    requires Regular(p) && p.next < |p.snapshot|
    ensures Regular(R.Turned(p, true))
  {
    assert p.snapshot[..p.next + 1] == p.snapshot[..p.next] + [p.snapshot[p.next]];
  }

  lemma TurnKeeps(s: R.State, step: R.Step)
    requires step.Turn? && R.Enabled(s, step)
    ensures var s' := R.Apply(s, step);
            && s'.stream == s.stream && s'.appended == s.appended && s'.trimmed == s.trimmed
            && s'.replays.Keys == s.replays.Keys
            && (forall r :: r in s.replays ==> s'.replays[r].snapshot == s.replays[r].snapshot)
            && (forall r :: r in s.replays && r != step.replay ==> s'.replays[r] == s.replays[r])
  {
  }

  lemma TurnTracks(s: R.State, step: R.Step, id: nat, begun: bool)
    requires Tracks(s, id, begun) && step.Turn? && R.Enabled(s, step) && Smooth(s, [step])
    ensures Tracks(R.Apply(s, step), id, begun)
  {
    R.StepSafe(s, step);
    R.StepOrdered(s, step);
    SmoothTurn(s.replays[step.replay]);
    TurnKeeps(s, step);
    var s' := R.Apply(s, step);
    assert s'.replays[step.replay] == R.Turned(s.replays[step.replay], true);
    if begun && s.appended[id] in s.stream {
      var r :| r in s.replays && s.appended[id] in s.replays[r].snapshot;
      assert s.appended[id] in s'.replays[r].snapshot;
    }
  }

  lemma FinishTracks(s: R.State, step: R.Step, id: nat, begun: bool)
    requires Tracks(s, id, begun) && step.Finish? && R.Enabled(s, step) && step.deleted
    ensures Tracks(R.Apply(s, step), id, begun)
  {
    R.StepSafe(s, step);
    R.StepOrdered(s, step);
    var s' := R.Apply(s, step);
    var p := s.replays[step.replay];
    assert p.snapshot[..p.next] == p.snapshot;
    if id < |s.appended| {
      var e := s.appended[id];
      if begun && e in s'.stream {
        var r :| r in s.replays && e in s.replays[r].snapshot;
        assert r != step.replay;
        assert r in s'.replays && s'.replays[r].snapshot == s.replays[r].snapshot;
      }
      if !begun && e in s.stream {
        forall x | x in p.snapshot ensures x.id != id {
          assert s.appended[x.id] == x;
        }
        assert e.id == id && e.id !in p.acked;
      }
    }
  }

  lemma BeginTracks(s: R.State, step: R.Step, id: nat, begun: bool)
    requires Tracks(s, id, begun) && step.Begin? && R.Enabled(s, step)
    ensures Tracks(R.Apply(s, step), id, begun || id < |s.appended|)
  {
    R.StepSafe(s, step);
    R.StepOrdered(s, step);
    var s' := R.Apply(s, step);
    assert s.stream[..0] == [];
    assert s'.replays[step.replay].snapshot == s.stream;
    if id >= |s.appended| {
      assert s'.appended == s.appended;
    }
  }

  lemma OtherTracks(s: R.State, step: R.Step, id: nat, begun: bool)
    requires Tracks(s, id, begun) && R.Enabled(s, step) && (step.Append? || step.Trim?)
    ensures Tracks(R.Apply(s, step), id, begun)
  {
    R.StepSafe(s, step);
    R.StepOrdered(s, step);
    var s' := R.Apply(s, step);
    assert s'.replays == s.replays;
    if step.Append? {
      assert s'.stream[|s.stream|] == s'.appended[|s.appended|];
      if id == |s.appended| {
        forall r | r in s.replays ensures s'.appended[id] !in s.replays[r].snapshot {
          assert R.Genuine(s, s.replays[r].snapshot);
        }
      }
    } else {
      assert s.stream == s.stream[..step.count] + s.stream[step.count..];
      if id < |s.appended| && s.appended[id] in s.stream[..step.count] {
        assert s.appended[id].id == id;
      }
    }
  }

  lemma {:induction false} RunTracks(s: R.State, steps: seq<R.Step>, id: nat, begun: bool)
    requires Tracks(s, id, begun) && Smooth(s, steps)
    ensures Tracks(R.Exec(s, steps), id, BegunSince(s, steps, id, begun))
    decreases |steps|
  {
    if steps != [] {
      var step := steps[0];
      if R.Enabled(s, step) {
        match step {
          case Turn(_, _, _) =>
            assert Smooth(s, [step]);
            TurnTracks(s, step, id, begun);
          case Finish(_, _) => FinishTracks(s, step, id, begun);
          case Begin(_) => BeginTracks(s, step, id, begun);
          case _ => OtherTracks(s, step, id, begun);
        }
      }
      var now := R.Enabled(s, step) && step.Begin? && id < |s.appended|;
      RunTracks(R.Apply(s, step), steps[1..], id, begun || now);
    }
  }

  // When all replays have finished and none was disturbed: an entry is gone if a replay began after
  // it was appended, and otherwise it is still there, whoever is connected, unless it was trimmed.
  lemma LeftIffNoneBegan(steps: seq<R.Step>, id: nat)
    requires Smooth(R.EMPTY, steps) && R.Exec(R.EMPTY, steps).replays == map[]
    requires id < |R.Exec(R.EMPTY, steps).appended| && id !in R.Exec(R.EMPTY, steps).trimmed
    ensures var s := R.Exec(R.EMPTY, steps);
            s.appended[id] in s.stream <==> !BegunSince(R.EMPTY, steps, id, false)
  {
    RunTracks(R.EMPTY, steps, id, false);
  }

  // ---- The stream of a run ----

  // What a step does to the stream.
  function StreamSteps(s: State, step: Step): seq<R.Step> {
    if !Enabled(s, step) then []
    else
      match step
      case Append(k, fault) => if fault == FailsBefore || k >= |s.sent| then [] else [R.Append(Some(s.sent[k]))]
      case OnStream(st) => [st]
      case _ => []
  }

  function StreamRun(s: State, steps: seq<Step>): seq<R.Step>
    decreases |steps|
  {
    if steps == [] then [] else StreamSteps(s, steps[0]) + StreamRun(Apply(s, steps[0]), steps[1..])
  }

  lemma StreamStep(s: State, step: Step)
    ensures R.Exec(s.stream, StreamSteps(s, step)) == Apply(s, step).stream
  {
    if StreamSteps(s, step) != [] {
      assert StreamSteps(s, step)[1..] == [];
    }
  }

  lemma {:induction false} StreamIsItsRun(s: State, steps: seq<Step>)
    ensures Exec(s, steps).stream == R.Exec(s.stream, StreamRun(s, steps))
    decreases |steps|
  {
    if steps != [] {
      var s' := Apply(s, steps[0]);
      StreamIsItsRun(s', steps[1..]);
      R.ExecAppend(s.stream, StreamSteps(s, steps[0]), StreamRun(s', steps[1..]));
      StreamStep(s, steps[0]);
    }
  }

  // A message kept in the stream stays there exactly until the next replay that begins after it was
  // appended, when replays are not disturbed: being connected does not take it out.
  lemma KeptUntilNextReplay(steps: seq<Step>, k: nat)
    requires k < |Exec(START, steps).sent| && k in Exec(START, steps).entryOf
    requires Smooth(R.EMPTY, StreamRun(START, steps)) && Exec(START, steps).stream.replays == map[]
    requires Exec(START, steps).entryOf[k] !in Exec(START, steps).stream.trimmed
    ensures var s := Exec(START, steps);
            var id := s.entryOf[k];
            && id < |s.stream.appended|
            && (s.stream.appended[id] in s.stream.stream <==> !BegunSince(R.EMPTY, StreamRun(START, steps), id, false))
  {
    RunAccounts(steps, k);
    StreamIsItsRun(START, steps);
    LeftIffNoneBegan(StreamRun(START, steps), Exec(START, steps).entryOf[k]);
  }

  // ---- Uninterrupted, the three steps are SendMessage ----

  function PublishFault(redis: Redis): Fault {
    if redis.receivedBy.None? then FailsBefore else Works
  }

  function AppendFault(redis: Redis): Fault {
    if redis.appendFails then FailsBefore else Works
  }

  lemma TakenLocally(s: State, node: nat, msg: WSMessage, broken: set<string>, redis: Redis)
    requires Accounted(s, |s.sent|) && At(s, node) != {} && At(s, node) !! broken
    ensures SendAll(s, node, msg, broken, redis) == Apply(s, Send(node, msg, broken))
    ensures |s.sent| in Apply(s, Send(node, msg, broken)).reached
  {
  }

  lemma NotTakenLocally(s: State, node: nat, msg: WSMessage, broken: set<string>, redis: Redis)
    requires Accounted(s, |s.sent|) && !(At(s, node) != {} && At(s, node) !! broken)
    requires redis.receivedBy.Some? ==> redis.receivedBy.value == |s.subscribed|
    ensures var k := |s.sent|;
            var s1 := Apply(s, Send(node, msg, broken));
            var done := s1.(trying := s.trying);
            SendAll(s, node, msg, broken, redis)
              == match RouteOf(At(s, node), broken, redis)
                 case Relayed(_) => done.(inFlight := s.inFlight + Packets(s, k))
                 case Persisted =>
                   done.(entryOf := s.entryOf[k := |s.stream.appended|],
                         stream := R.Apply(s.stream, R.Append(Some(msg))))
                 case _ => done.(refused := s.refused + {k})
  {
    var k := |s.sent|;
    var s1 := Apply(s, Send(node, msg, broken));
    assert s1.trying - {k} == s.trying && s.waiting + {k} - {k} == s.waiting;
    assert s.subscribed == {} <==> |s.subscribed| == 0;
    assert Packets(s1, k) == Packets(s, k);
    if redis.receivedBy == Some(0) {
      WaitingThenAppend(s1, k, AppendFault(redis));
    }
  }

  lemma WaitingThenAppend(s1: State, k: nat, fault: Fault)
    requires k in s1.trying && k < |s1.sent| && s1.subscribed == {} && k !in s1.waiting && fault != FailsAfter
    ensures var done := s1.(trying := s1.trying - {k});
            Apply(Apply(s1, Publish(k, Works)), Append(k, fault))
              == if fault == FailsBefore then done.(refused := s1.refused + {k})
                 else done.(entryOf := s1.entryOf[k := |s1.stream.appended|],
                            stream := R.Apply(s1.stream, R.Append(Some(s1.sent[k]))))
  {
    assert s1.waiting + {k} - {k} == s1.waiting;
  }

  // The three steps of one send, one after the other.
  function SendAll(s: State, node: nat, msg: WSMessage, broken: set<string>, redis: Redis): State {
    var k := |s.sent|;
    Apply(Apply(Apply(s, Send(node, msg, broken)), Publish(k, PublishFault(redis))), Append(k, AppendFault(redis)))
  }

  // They take the route of SendMessage: the local sockets; or the packets to every subscribed node;
  // or the entry in the stream; or an error.
  lemma SendIsThreeSteps(s: State, node: nat, msg: WSMessage, broken: set<string>, redis: Redis)
    requires Accounted(s, |s.sent|)
    requires redis.receivedBy.Some? ==> redis.receivedBy.value == |s.subscribed|
    ensures var k := |s.sent|;
            var tried := Apply(s, Send(node, msg, broken)).(trying := s.trying);
            SendAll(s, node, msg, broken, redis)
              == match RouteOf(At(s, node), broken, redis)
                 case Local => tried
                 case Relayed(_) => tried.(inFlight := s.inFlight + Packets(s, k))
                 case Persisted =>
                   tried.(entryOf := s.entryOf[k := |s.stream.appended|],
                          stream := R.Apply(s.stream, R.Append(Some(msg))))
                 case NotSent => tried.(refused := s.refused + {k})
  {
    if At(s, node) != {} && At(s, node) !! broken {
      TakenLocally(s, node, msg, broken, redis);
    } else {
      NotTakenLocally(s, node, msg, broken, redis);
    }
  }

  // ---- The local steps are what a node writes ----

  ghost predicate SomebodyGot(before: seq<Frame>, after: seq<Frame>, sockets: set<string>, msg: WSMessage) {
    exists x :: x in sockets && Received(after, x) == Received(before, x) + [msg]
  }

  // The local part of a send: the message is reached if some socket got it, and tried further if the
  // registry reported an error.
  method SendHere(cm: ConnectionManager, user: string, msg: WSMessage, broken: set<string>, ghost s: State,
                  ghost node: nat)
    returns (taken: bool)
    requires Inverse(cm.View()) && At(s, node) == Sockets(cm.View(), user) && Accounted(s, |s.sent|)
    modifies cm
    ensures var s', k := Apply(s, Send(node, msg, broken)), |s.sent|;
            && (k in s'.trying <==> !taken)
            && (k in s'.reached <==> SomebodyGot(old(cm.wire), cm.wire, Sockets(old(cm.View()), user), msg))
            && At(s', node) == Sockets(cm.View(), user)
  {
    ghost var v, before := cm.View(), cm.wire;
    var err := cm.SendMessage(user, msg, broken);
    taken := err.None?;
    LeftAndGot(v, cm.View(), before, cm.wire, user, msg, broken);
  }

  // The arrival of a packet: the message is reached if some socket got it, and in vain otherwise.
  method DeliverHere(cm: ConnectionManager, user: string, k: nat, broken: set<string>, ghost s: State, ghost node: nat,
                     msg: WSMessage)
    requires Inverse(cm.View()) && At(s, node) == Sockets(cm.View(), user)
    requires k < |s.sent| && msg == s.sent[k] && (node, k) in s.inFlight
    modifies cm
    ensures var s' := Apply(s, Deliver(node, k, broken));
            var got := SomebodyGot(old(cm.wire), cm.wire, Sockets(old(cm.View()), user), msg);
            && s'.inFlight == s.inFlight - multiset{(node, k)}
            && (k in s'.reached <==> k in s.reached || got)
            && (k in s'.vain <==> k in s.vain || !got)
            && At(s', node) == Sockets(cm.View(), user)
  {
    ghost var v, before := cm.View(), cm.wire;
    var _ := cm.SendMessage(user, msg, broken);
    LeftAndGot(v, cm.View(), before, cm.wire, user, msg, broken);
  }

  lemma LeftAndGot(v: Indexes, w: Indexes, before: seq<Frame>, after: seq<Frame>, user: string, msg: WSMessage,
                   broken: set<string>)
    requires Inverse(v) && Inverse(w) && w.bySocket == v.bySocket - Sockets(v, user) * broken
    requires Reached(before, after, Sockets(v, user) - broken, msg)
    ensures Sockets(w, user) == Sockets(v, user) - broken
    ensures SomebodyGot(before, after, Sockets(v, user), msg) <==> Sockets(v, user) - broken != {}
  {
    Left(v, w, user, broken);
    Got(before, after, Sockets(v, user), msg, broken);
  }

  lemma Left(v: Indexes, w: Indexes, user: string, broken: set<string>)
    requires Inverse(v) && Inverse(w) && w.bySocket == v.bySocket - Sockets(v, user) * broken
    ensures Sockets(w, user) == Sockets(v, user) - broken
  {
    PrunedInverse(v, Sockets(v, user) * broken);
    SameIndexes(w, Pruned(v, Sockets(v, user) * broken));
  }

  lemma Got(before: seq<Frame>, after: seq<Frame>, to: set<string>, msg: WSMessage, broken: set<string>)
    requires Reached(before, after, to - broken, msg)
    ensures SomebodyGot(before, after, to, msg) <==> to - broken != {}
  {
    if x :| x in to - broken {
      assert Received(after, x) == Received(before, x) + [msg];
    }
    if SomebodyGot(before, after, to, msg) {
      var x :| x in to && Received(after, x) == Received(before, x) + [msg];
      assert |Received(after, x)| == |Received(before, x)| + 1;
      assert x in to - broken;
    }
  }

  // A publish that nobody receives, then a connect with its replay, and only then the append: at
  // rest, the user is connected, and the message waits in the stream.
  lemma AppendAfterReplayWaits(msg: WSMessage, node: nat, socket: string)
    ensures var published := Apply(Apply(START, Send(node, msg, {})), Publish(0, Works));
            var connected := Apply(published, Change(node, {socket}, true));
            var replayed := Apply(Apply(connected, OnStream(R.Begin(0))), OnStream(R.Finish(0, true)));
            var s := Apply(replayed, Append(0, Works));
            && AtRest(s) && At(s, node) == {socket} && s.stream.replays == map[]
            && s.stream.stream == [R.Entry(0, Some(msg))] && 0 !in s.reached
  {
    var published := Apply(Apply(START, Send(node, msg, {})), Publish(0, Works));
    assert published.trying == {} && published.waiting == {0} && published.sent == [msg];
    var connected := Apply(published, Change(node, {socket}, true));
    EmptyReplay(connected);
    assert {0} - {0} == {};
  }

  lemma EmptyReplay(s: State)
    requires s.stream == R.EMPTY
    ensures Apply(Apply(s, OnStream(R.Begin(0))), OnStream(R.Finish(0, true))) == s
  {
    var begun := R.Apply(R.EMPTY, R.Begin(0));
    assert begun.replays == map[0 := R.Progress([], 0, {}, false)];
    assert R.Apply(begun, R.Finish(0, true)).replays == map[];
  }
}
