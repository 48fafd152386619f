// shared/messaging/rcm.go and connection_manager.go: Add and Remove as they interleave on one node.
// The registry has its own lock (each registry access is one step); subscribing and unsubscribing
// happen under a second lock, and Remove asks the registry while it holds that second lock.
module NodeLocks {
  import opened Registry
  import Gateway

  // The second lock, and what the Remove holding it has found out: `drop` says that it saw no
  // socket of the user and is about to unsubscribe.
  datatype Lock = Free | Held(user: string, drop: bool)

  // `adding` holds the sockets whose Add has registered them and not yet subscribed; `removing`
  // the owners that Removes got from the registry before taking the second lock.
  datatype State = State(
    reg: Indexes,
    userSubs: set<string>,
    adding: map<string, string>,
    removing: multiset<string>,
    lock: Lock)

  const START := State(NO_SOCKETS, {}, map[], multiset{}, Free)

  datatype Step =
    | AddLocal(user: string, socket: string)
    | AddSubscribe(socket: string)
    | RemoveLocal(socket: string)
    | RemoveCheck(user: string)
    | RemoveDrop
    | FailWrite(socket: string)

  // Socket ids are fresh, and a handler defers Remove until its Add has returned.
  predicate Enabled(st: State, step: Step) {
    match step
    case AddLocal(_, socket) => socket !in st.reg.bySocket && socket !in st.adding
    case AddSubscribe(socket) => socket in st.adding && st.lock.Free?
    case RemoveLocal(socket) => socket !in st.adding
    case RemoveCheck(user) => user in st.removing && st.lock.Free?
    case RemoveDrop => st.lock.Held?
    case FailWrite(socket) => socket in st.reg.bySocket
  }

  // A step that is not enabled changes nothing.
  function Apply(st: State, step: Step): State {
    if !Enabled(st, step) then st else
      match step
      case AddLocal(user, socket) =>
        st.(reg := Added(st.reg, socket, user), adding := st.adding[socket := user])
      case AddSubscribe(socket) =>
        st.(userSubs := st.userSubs + {st.adding[socket]}, adding := st.adding - {socket})
      case RemoveLocal(socket) =>
        st.(reg := Removed(st.reg, socket), removing := st.removing + multiset{Owner(st.reg, socket)})
      case RemoveCheck(user) =>
        st.(removing := st.removing - multiset{user}, lock := Held(user, user != "" && !HasUser(st.reg, user)))
      case RemoveDrop =>
        st.(userSubs := if st.lock.drop then st.userSubs - {st.lock.user} else st.userSubs, lock := Free)
      case FailWrite(socket) =>
        st.(reg := Removed(st.reg, socket))
  }

  function Exec(st: State, steps: seq<Step>): State
    decreases |steps|
  {
    if steps == [] then st else Exec(Apply(st, steps[0]), steps[1..])
  }

  predicate Quiescent(st: State) {
    st.adding == map[] && st.removing == multiset{} && st.lock.Free?
  }

  // ---- Every socket whose Add has finished is subscribed ----

  ghost predicate Covered(st: State) {
    && Inverse(st.reg)
    && (forall s :: s in st.reg.bySocket ==> s in st.adding || st.reg.bySocket[s] in st.userSubs)
    && (forall s :: s in st.reg.bySocket && s in st.adding ==> st.adding[s] == st.reg.bySocket[s])
    && (st.lock.Held? && st.lock.drop ==> forall s :: s in Sockets(st.reg, st.lock.user) ==> s in st.adding)
  }

  lemma StepCovered(st: State, step: Step)
    requires Covered(st)
    ensures Covered(Apply(st, step))
  {
    if Enabled(st, step) {
      match step
      case AddLocal(user, socket) => AddedInverseIff(st.reg, socket, user);
      case AddSubscribe(socket) =>
      case RemoveLocal(socket) => RemovedInverse(st.reg, socket);
      case RemoveCheck(user) =>
      case RemoveDrop => DropCovered(st);
      case FailWrite(socket) => RemovedInverse(st.reg, socket);
    }
  }

  lemma DropCovered(st: State)
    requires Covered(st) && st.lock.Held?
    ensures Covered(Apply(st, RemoveDrop))
  {
    var st' := Apply(st, RemoveDrop);
    forall s | s in st'.reg.bySocket ensures s in st'.adding || st'.reg.bySocket[s] in st'.userSubs {
      if st.reg.bySocket[s] == st.lock.user {
        assert s in Sockets(st.reg, st.lock.user);
      }
    }
  }

  lemma {:induction false} RunCovered(st: State, steps: seq<Step>)
    requires Covered(st)
    ensures Covered(Exec(st, steps))
    decreases |steps|
  {
    if steps != [] {
      StepCovered(st, steps[0]);
      RunCovered(Apply(st, steps[0]), steps[1..]);
    }
  }

  // Under every interleaving, failed writes included: a registered socket whose Add has finished
  // belongs to a subscribed user.
  lemma FinishedAddsAreSubscribed(steps: seq<Step>)
    ensures var st := Exec(START, steps);
            && Inverse(st.reg)
            && forall s :: s in st.reg.bySocket && s !in st.adding ==> st.reg.bySocket[s] in st.userSubs
  {
    RunCovered(START, steps);
  }

  // ---- Which subscriptions outlive their user ----

  // Nothing in progress is going to unsubscribe the user.
  predicate NobodyChecks(st: State, user: string) {
    user !in st.removing && st.lock != Held(user, true)
  }

  // How one step changes whether the user's subscription is orphaned: a failed write that takes his
  // last socket orphans it, and so does an Add that subscribes after its socket was dropped, unless
  // a Remove is still going to look; his next socket adopts it again.
  predicate OrphanedBy(st: State, step: Step, user: string, orphaned: bool) {
    if !Enabled(st, step) then orphaned
    else
      match step
      case FailWrite(socket) =>
        orphaned || (Sockets(st.reg, user) == {socket} && NobodyChecks(st, user))
      case AddSubscribe(socket) =>
        orphaned || (st.adding[socket] == user && Sockets(st.reg, user) == {} && NobodyChecks(st, user))
      case AddLocal(u, _) => orphaned && u != user
      case _ => orphaned
  }

  predicate OrphanedFrom(st: State, steps: seq<Step>, user: string, orphaned: bool)
    decreases |steps|
  {
    if steps == [] then orphaned
    else OrphanedFrom(Apply(st, steps[0]), steps[1..], user, OrphanedBy(st, steps[0], user, orphaned))
  }

  predicate Orphaned(steps: seq<Step>, user: string) {
    OrphanedFrom(START, steps, user, false)
  }

  // A subscription has a socket, a Remove that will look at it, or nobody; in the last case it is
  // orphaned, and stays or is about to be subscribed.
  ghost predicate Accounted(st: State, user: string, orphaned: bool) {
    && (user in st.userSubs ==> Sockets(st.reg, user) != {} || !NobodyChecks(st, user) || orphaned)
    && (orphaned ==>
          && Sockets(st.reg, user) == {} && NobodyChecks(st, user)
          && (user in st.userSubs || exists s :: s in st.adding && st.adding[s] == user))
  }

  lemma HasUserIff(reg: Indexes, user: string)
    ensures HasUser(reg, user) <==> Sockets(reg, user) != {}
  {
  }

  lemma OthersKept(reg: Indexes, socket: string, user: string)
    requires Inverse(reg) && Owner(reg, socket) != user && user != ""
    ensures Sockets(Removed(reg, socket), user) == Sockets(reg, user)
  {
    RemovedInverse(reg, socket);
    assert socket !in Sockets(reg, user);
  }

  lemma FailWriteAccounted(st: State, socket: string, user: string, orphaned: bool)
    requires Covered(st) && Accounted(st, user, orphaned) && user != "" && socket in st.reg.bySocket
    ensures var step := FailWrite(socket);
            Accounted(Apply(st, step), user, OrphanedBy(st, step, user, orphaned))
  {
    RemovedInverse(st.reg, socket);
    if Owner(st.reg, socket) != user {
      OthersKept(st.reg, socket, user);
      assert socket !in Sockets(st.reg, user);
    } else if Sockets(st.reg, user) - {socket} == {} {
      assert socket in Sockets(st.reg, user);
      assert Sockets(st.reg, user) == {socket};
    }
  }

  lemma SubscribeAccounted(st: State, socket: string, user: string, orphaned: bool)
    requires Covered(st) && Accounted(st, user, orphaned) && Enabled(st, AddSubscribe(socket))
    ensures var step := AddSubscribe(socket);
            Accounted(Apply(st, step), user, OrphanedBy(st, step, user, orphaned))
  {
    var st' := Apply(st, AddSubscribe(socket));
    if orphaned && st.adding[socket] != user && user !in st.userSubs {
      var s :| s in st.adding && st.adding[s] == user;
      assert s in st'.adding && st'.adding[s] == user;
    }
  }

  lemma StepAccounted(st: State, step: Step, user: string, orphaned: bool)
    requires Covered(st) && Accounted(st, user, orphaned) && user != ""
    ensures Accounted(Apply(st, step), user, OrphanedBy(st, step, user, orphaned))
  {
    if Enabled(st, step) {
      match step
      case AddLocal(u, socket) =>
        AddedInverseIff(st.reg, socket, u);
        if orphaned && u != user && user !in st.userSubs {
          var s :| s in st.adding && st.adding[s] == user;
          assert Apply(st, step).adding[s] == user;
        }
      case AddSubscribe(socket) => SubscribeAccounted(st, socket, user, orphaned);
      case RemoveLocal(socket) =>
        RemovedInverse(st.reg, socket);
        if Owner(st.reg, socket) != user {
          OthersKept(st.reg, socket, user);
        } else {
          assert socket in Sockets(st.reg, user);
        }
      case RemoveCheck(u) => HasUserIff(st.reg, u);
      case RemoveDrop =>
      case FailWrite(socket) => FailWriteAccounted(st, socket, user, orphaned);
    }
  }

  lemma {:induction false} RunAccounted(st: State, steps: seq<Step>, user: string, orphaned: bool)
    requires Covered(st) && Accounted(st, user, orphaned) && user != ""
    ensures Accounted(Exec(st, steps), user, OrphanedFrom(st, steps, user, orphaned))
    decreases |steps|
  {
    if steps != [] {
      StepCovered(st, steps[0]);
      StepAccounted(st, steps[0], user, orphaned);
      RunAccounted(Apply(st, steps[0]), steps[1..], user, OrphanedBy(st, steps[0], user, orphaned));
    }
  }

  // Under every interleaving with any failed writes, once everything in progress has finished: a
  // user is subscribed exactly while he has a socket here or his subscription is orphaned, and it is
  // never both.
  lemma SubscribedIff(steps: seq<Step>, user: string)
    requires user != "" && Quiescent(Exec(START, steps))
    ensures var st := Exec(START, steps);
            && (user in st.userSubs <==> Sockets(st.reg, user) != {} || Orphaned(steps, user))
            && !(Sockets(st.reg, user) != {} && Orphaned(steps, user))
  {
    RunCovered(START, steps);
    RunAccounted(START, steps, user, false);
    var st := Exec(START, steps);
    if Sockets(st.reg, user) != {} {
      var s :| s in Sockets(st.reg, user);
      assert s in st.reg.bySocket;
    }
  }

  // ---- Without failed writes ----

  // No write to a socket of this user fails during the run.
  predicate Clean(st: State, steps: seq<Step>, user: string)
    decreases |steps|
  {
    steps == [] ||
    ((steps[0].FailWrite? ==> Owner(st.reg, steps[0].socket) != user) && Clean(Apply(st, steps[0]), steps[1..], user))
  }

  lemma {:induction false} CleanNeverOrphans(st: State, steps: seq<Step>, user: string)
    requires Covered(st) && Clean(st, steps, user) && user != ""
    requires forall s :: s in st.adding && st.adding[s] == user ==> s in Sockets(st.reg, user)
    ensures !OrphanedFrom(st, steps, user, false)
    decreases |steps|
  {
    if steps != [] {
      var step := steps[0];
      StepCovered(st, step);
      if Enabled(st, step) {
        match step {
          case AddLocal(u, socket) => AddedInverseIff(st.reg, socket, u);
          case RemoveLocal(socket) => RemovedInverse(st.reg, socket);
          case FailWrite(socket) =>
            RemovedInverse(st.reg, socket);
            OthersKept(st.reg, socket, user);
          case _ =>
        }
      }
      CleanNeverOrphans(Apply(st, step), steps[1..], user);
    }
  }

  // A user none of whose writes failed is subscribed exactly while he has a socket here: nothing is
  // missing and nothing leaks.
  lemma SubscribedIffConnected(steps: seq<Step>, user: string)
    requires Clean(START, steps, user) && user != "" && Quiescent(Exec(START, steps))
    ensures user in Exec(START, steps).userSubs <==> Sockets(Exec(START, steps).reg, user) != {}
  {
    SubscribedIff(steps, user);
    CleanNeverOrphans(START, steps, user);
  }

  // ---- What breaks it ----

  // A failed write to a user's only socket: the later Remove no longer learns the owner, and the
  // subscription stays although nobody is connected.
  lemma FailedWriteLeaks(user: string, socket: string)
    requires user != ""
    ensures var st := Exec(START, [AddLocal(user, socket), AddSubscribe(socket), FailWrite(socket),
                                   RemoveLocal(socket), RemoveCheck(""), RemoveDrop]);
            Quiescent(st) && user in st.userSubs && st.reg == NO_SOCKETS
  {
    var s1 := Apply(START, AddLocal(user, socket));
    var s2 := Apply(s1, AddSubscribe(socket));
    assert s1.reg.byUser[user] == {socket} && s2.adding == map[];
    var s3 := Apply(s2, FailWrite(socket));
    assert s3.reg.bySocket == map[] && s3.reg.byUser == map[];
    var s4 := Apply(s3, RemoveLocal(socket));
    var s5 := Apply(s4, RemoveCheck(""));
    assert s4.removing == multiset{""} && s5.removing == multiset{};
    var s6 := Apply(s5, RemoveDrop);
    assert Exec(s6, []) == s6;
    ExecFirst(s5, RemoveDrop, []);
    ExecFirst(s4, RemoveCheck(""), [RemoveDrop]);
    ExecFirst(s3, RemoveLocal(socket), [RemoveCheck(""), RemoveDrop]);
    ExecFirst(s2, FailWrite(socket), [RemoveLocal(socket), RemoveCheck(""), RemoveDrop]);
    ExecFirst(s1, AddSubscribe(socket), [FailWrite(socket), RemoveLocal(socket), RemoveCheck(""), RemoveDrop]);
    ExecFirst(START, AddLocal(user, socket),
              [AddSubscribe(socket), FailWrite(socket), RemoveLocal(socket), RemoveCheck(""), RemoveDrop]);
  }

  lemma ExecFirst(st: State, step: Step, rest: seq<Step>)
    ensures Exec(st, [step] + rest) == Exec(Apply(st, step), rest)
  {
    assert ([step] + rest)[1..] == rest;
  }

  // ---- Uninterrupted, the phases are the methods ----

  lemma AddIsTwoPhases(n: Gateway.Node, st: State, user: string, socket: string)
    requires n.reg == st.reg && n.userSubs == st.userSubs && Quiescent(st) && socket !in st.reg.bySocket
    ensures var st' := Exec(st, [AddLocal(user, socket), AddSubscribe(socket)]);
            && Quiescent(st')
            && Gateway.NodeAdded(n, user, socket) == n.(reg := st'.reg, userSubs := st'.userSubs)
  {
    var s1 := Apply(st, AddLocal(user, socket));
    var s2 := Apply(s1, AddSubscribe(socket));
    assert s2.adding == map[];
    ExecFirst(s1, AddSubscribe(socket), []);
    ExecFirst(st, AddLocal(user, socket), [AddSubscribe(socket)]);
  }

  lemma RemoveIsThreePhases(n: Gateway.Node, st: State, socket: string)
    requires n.reg == st.reg && n.userSubs == st.userSubs && Quiescent(st)
    ensures var user := Owner(st.reg, socket);
            var st' := Exec(st, [RemoveLocal(socket), RemoveCheck(user), RemoveDrop]);
            && Quiescent(st')
            && Gateway.NodeRemoved(n, socket).reg == st'.reg && Gateway.NodeRemoved(n, socket).userSubs == st'.userSubs
  {
    var user := Owner(st.reg, socket);
    var s1 := Apply(st, RemoveLocal(socket));
    var s2 := Apply(s1, RemoveCheck(user));
    assert s1.removing == multiset{user} && s2.removing == multiset{};
    ExecFirst(s2, RemoveDrop, []);
    ExecFirst(s1, RemoveCheck(user), [RemoveDrop]);
    ExecFirst(st, RemoveLocal(socket), [RemoveCheck(user), RemoveDrop]);
  }
}
