// Every run of the dead letter pipeline terminates: a potential over the copies in flight bounds
// the deliveries, and is exact when nothing ever succeeds.
module DeadLetterBound {
  import opened Sums
  import opened Routing
  import opened DeadLetter

  // The deliveries that a copy republished `c` times can still cause when every publish of its key
  // makes `k` copies.
  function Weight(k: nat, c: nat): (w: nat)
    requires c <= MAX_BROKER_RETRIES
    ensures w >= 1
    decreases MAX_BROKER_RETRIES - c
  {
    1 + if c < MAX_BROKER_RETRIES then k * Weight(k, c + 1) else 0
  }

  function CopyWeight(c: Copy): (w: int)
    ensures w >= 1
  {
    Weight(FanOut(c.msg.routingKey),
           if c.lineage.republishes <= MAX_BROKER_RETRIES then c.lineage.republishes else MAX_BROKER_RETRIES)
  }

  function DeadWeight(c: Copy): (w: int)
    ensures w >= 0
  {
    CopyWeight(c) - 1
  }

  function PublicationWeight(p: Publication): int {
    FanOut(p.routingKey) * Weight(FanOut(p.routingKey), 0)
  }

  // Deliveries made and still possible.
  ghost function Spent(s: State): int {
    s.deliveries + Sum(CopyWeight, s.work) + Sum(DeadWeight, s.dlq)
  }

  ghost function Budget(s: State): int {
    Sum(PublicationWeight, s.publications)
  }

  // A step of a run in which every handler fails and every broker publish works.
  predicate Relentless(step: Step) {
    match step
    case Publish(_) => true
    case Deliver(_, _, handling) => handling.Fails? && handling.publishOk
    case Drain(_, publishOk) => publishOk
  }

  ghost predicate NoneRejected(s: State) {
    forall c :: c in s.dlq ==> c.lineage.dlqPublishes > 0
  }

  lemma SpreadWeight(m: Message, l: Lineage)
    requires m.exchange == TRIP_EXCHANGE && l.republishes <= MAX_BROKER_RETRIES
    ensures Sum(CopyWeight, Spread(m, l)) == FanOut(m.routingKey) * Weight(FanOut(m.routingKey), l.republishes)
  {
    SumConstant(CopyWeight, Spread(m, l), Weight(FanOut(m.routingKey), l.republishes));
  }

  // A step never adds to what is spent beyond what its publications bring; when handlers fail and
  // publishes work it takes nothing away either.
  lemma PublishSpends(s: State, p: Publication)
    ensures var s' := Apply(s, Publish(p)); Spent(s') - Budget(s') == Spent(s) - Budget(s)
  {
    var m := Message(p.body, TRIP_EXCHANGE, p.routingKey, NO_HEADERS);
    var l := Lineage(|s.publications|, 0, 0);
    SumAppend(CopyWeight, s.work, Spread(m, l));
    SpreadWeight(m, l);
    SumAppend(PublicationWeight, s.publications, [p]);
  }

  lemma DeliverSpends(s: State, i: nat, calls: nat, handling: Handling)
    requires Enabled(s, Deliver(i, calls, handling))
    ensures var s' := Apply(s, Deliver(i, calls, handling));
            && Spent(s') <= Spent(s)
            && (handling.Fails? ==> Spent(s') == Spent(s))
            && Budget(s') == Budget(s)
  {
    SumRemoveAt(CopyWeight, s.work, i);
    if handling.Fails? {
      var d := DeadCopy(s.work[i], handling.reason, handling.publishOk);
      SumAppend(DeadWeight, s.dlq, [d]);
      assert DeadWeight(d) == CopyWeight(s.work[i]) - 1;
    }
  }

  lemma RepublishSpends(s: State, i: nat)
    requires Consistent(s) && i < |s.dlq| && Judge(s.dlq[i].msg).Republish?
    ensures var s' := Apply(s, Drain(i, true));
            Sum(CopyWeight, s'.work) == Sum(CopyWeight, s.work) + DeadWeight(s.dlq[i])
  {
    var d := s.dlq[i];
    assert d in s.dlq;
    var key := d.msg.routingKey;
    var m := Message(d.msg.body, TRIP_EXCHANGE, key, Judge(d.msg).headers);
    var l := d.lineage.(republishes := d.lineage.republishes + 1);
    SumAppend(CopyWeight, s.work, Spread(m, l));
    SpreadWeight(m, l);
    assert Weight(FanOut(key), d.lineage.republishes) == 1 + FanOut(key) * Weight(FanOut(key), l.republishes);
  }

  lemma EndedWeighsNothing(d: Copy)
    requires HeadersAgree(d.msg, d.lineage) && d.lineage.dlqPublishes > 0 && d.msg.routingKey != []
    requires !Judge(d.msg).Republish?
    ensures DeadWeight(d) == 0
  {
  }

  lemma DrainSpends(s: State, i: nat, publishOk: bool)
    requires Consistent(s) && i < |s.dlq|
    ensures var s' := Apply(s, Drain(i, publishOk));
            && Spent(s') <= Spent(s)
            && (s.dlq[i].lineage.dlqPublishes > 0 ==> Spent(s') == Spent(s))
            && Budget(s') == Budget(s)
  {
    var d := s.dlq[i];
    assert d in s.dlq;
    SumRemoveAt(DeadWeight, s.dlq, i);
    var s' := Apply(s, Drain(i, publishOk));
    assert Budget(s') == Budget(s) && s'.deliveries == s.deliveries;
    if Judge(d.msg).Republish? {
      if publishOk {
        RepublishSpends(s, i);
        assert s'.dlq == RemoveAt(s.dlq, i);
      }
    } else {
      assert s'.work == s.work && s'.dlq == RemoveAt(s.dlq, i);
      if d.lineage.dlqPublishes > 0 {
        EndedWeighsNothing(d);
      }
    }
  }

  lemma RelentlessNeverRejects(s: State, step: Step)
    requires Relentless(step) && NoneRejected(s)
    ensures NoneRejected(Apply(s, step))
  {
  }

  lemma StepSpends(s: State, step: Step)
    requires Consistent(s)
    ensures var s' := Apply(s, step);
            && Spent(s') - Budget(s') <= Spent(s) - Budget(s)
            && (Relentless(step) && NoneRejected(s) ==> Spent(s') - Budget(s') == Spent(s) - Budget(s))
  {
    if Enabled(s, step) {
      match step
      case Publish(p) => PublishSpends(s, p);
      case Deliver(i, calls, handling) => DeliverSpends(s, i, calls, handling);
      case Drain(i, publishOk) =>
        assert s.dlq[i] in s.dlq;
        DrainSpends(s, i, publishOk);
    }
  }

  lemma {:induction false} RunSpends(steps: seq<Step>)
    ensures Spent(Exec(EMPTY, steps)) <= Budget(Exec(EMPTY, steps))
    ensures (forall st :: st in steps ==> Relentless(st)) ==>
              Spent(Exec(EMPTY, steps)) == Budget(Exec(EMPTY, steps)) && NoneRejected(Exec(EMPTY, steps))
  {
    if steps != [] {
      var front := steps[..|steps| - 1];
      RunSpends(front);
      RunConsistent(front);
      assert forall st :: st in front ==> st in steps;
      StepSpends(Exec(EMPTY, front), steps[|steps| - 1]);
      if Relentless(steps[|steps| - 1]) && NoneRejected(Exec(EMPTY, front)) {
        RelentlessNeverRejects(Exec(EMPTY, front), steps[|steps| - 1]);
      }
    }
  }

  // A publication routed to k queues costs at most k + k^2 + ... + k^6 deliveries: 6 for one
  // queue and 126 for two, and no declared key has more.
  lemma WeightOfPublication(p: Publication)
    ensures var k := FanOut(p.routingKey);
            PublicationWeight(p) == Power(k, 1) + Power(k, 2) + Power(k, 3) + Power(k, 4) + Power(k, 5) + Power(k, 6)
    ensures PublicationWeight(p) <= 126
  {
    var k := FanOut(p.routingKey);
    FanOutOf(p.routingKey);
    WeightAsPowers(k);
    if k <= 1 { assert Power(k, 6) <= 1 && Power(k, 5) <= 1 && Power(k, 4) <= 1; }
  }

  lemma WeightAsPowers(k: nat)
    requires k <= 2
    ensures k * Weight(k, 0) == Power(k, 1) + Power(k, 2) + Power(k, 3) + Power(k, 4) + Power(k, 5) + Power(k, 6)
    ensures k * Weight(k, 0) == if k == 0 then 0 else if k == 1 then 6 else 126
  {
    assert Weight(k, 5) == 1;
    assert Weight(k, 4) == 1 + k;
    if k == 2 {
      assert Weight(k, 3) == 7 && Weight(k, 2) == 15 && Weight(k, 1) == 31 && Weight(k, 0) == 63;
      assert Power(2, 1) == 2 && Power(2, 2) == 4 && Power(2, 3) == 8 && Power(2, 4) == 16 && Power(2, 5) == 32
          && Power(2, 6) == 64;
    } else if k == 1 {
      assert Weight(k, 3) == 3 && Weight(k, 2) == 4 && Weight(k, 1) == 5 && Weight(k, 0) == 6;
      assert Power(1, 1) == 1 && Power(1, 2) == 1 && Power(1, 3) == 1 && Power(1, 4) == 1 && Power(1, 5) == 1
          && Power(1, 6) == 1;
    } else {
      assert Power(0, 1) == 0 && Power(0, 2) == 0 && Power(0, 3) == 0 && Power(0, 4) == 0 && Power(0, 5) == 0
          && Power(0, 6) == 0;
    }
  }

  lemma WeightsNonNegative(s: State)
    ensures Sum(CopyWeight, s.work) >= 0 && Sum(DeadWeight, s.dlq) >= 0
  {
    SumNonNegative(CopyWeight, s.work);
    SumNonNegative(DeadWeight, s.dlq);
  }

  // Every run, whatever fails and in whatever order: the deliveries stay within the budget of the
  // publications, and the handler calls within four times that.
  lemma DeliveriesBounded(steps: seq<Step>)
    ensures Exec(EMPTY, steps).deliveries <= Budget(Exec(EMPTY, steps))
    ensures Exec(EMPTY, steps).handlerCalls <= MAX_HANDLER_CALLS * Budget(Exec(EMPTY, steps))
  {
    RunSpends(steps);
    RunConsistent(steps);
    WeightsNonNegative(Exec(EMPTY, steps));
  }

  // The bound is met exactly by every drained run in which nothing succeeds and no broker publish
  // fails.
  lemma RelentlessRunIsExact(steps: seq<Step>)
    requires forall st :: st in steps ==> Relentless(st)
    requires Exec(EMPTY, steps).work == [] && Exec(EMPTY, steps).dlq == []
    ensures Exec(EMPTY, steps).deliveries == Budget(Exec(EMPTY, steps))
  {
    RunSpends(steps);
  }

  // ---- The number of steps ----

  // Steps that do something, other than publications; a dead letter put back does nothing.
  ghost function Progress(s: State, steps: seq<Step>): nat {
    if steps == [] then 0
    else
      var before := Exec(s, steps[..|steps| - 1]);
      var step := steps[|steps| - 1];
      Progress(s, steps[..|steps| - 1]) + if !step.Publish? && Apply(before, step) != before then 1 else 0
  }

  function RankOfCopy(c: Copy): int { 2 * CopyWeight(c) }
  function RankOfDead(c: Copy): int { 2 * DeadWeight(c) + 1 }

  ghost function Rank(s: State): int {
    Sum(RankOfCopy, s.work) + Sum(RankOfDead, s.dlq)
  }

  lemma {:induction false} RankDoubles(xs: seq<Copy>)
    ensures Sum(RankOfCopy, xs) == 2 * Sum(CopyWeight, xs)
    ensures Sum(RankOfDead, xs) == 2 * Sum(DeadWeight, xs) + |xs|
  {
    if xs != [] {
      RankDoubles(xs[1..]);
    }
  }

  lemma StepCounts(s: State, step: Step)
    ensures var s' := Apply(s, step);
            && (s' != s && step.Deliver? ==> s'.deliveries == s.deliveries + 1 && |s'.dlq| <= |s.dlq| + 1)
            && (s' != s && step.Drain? ==> s'.deliveries == s.deliveries && |s'.dlq| == |s.dlq| - 1)
            && (step.Publish? ==> s'.deliveries == s.deliveries && s'.dlq == s.dlq)
  {
  }

  lemma RankOfState(s: State)
    ensures Rank(s) == 2 * (Spent(s) - s.deliveries) + |s.dlq|
  {
    RankDoubles(s.work);
    RankDoubles(s.dlq);
  }

  lemma StepRanks(s: State, step: Step)
    requires Consistent(s)
    ensures var s' := Apply(s, step);
            Rank(s') - 2 * Budget(s') + (if !step.Publish? && s' != s then 1 else 0) <= Rank(s) - 2 * Budget(s)
  {
    var s' := Apply(s, step);
    RankOfState(s);
    RankOfState(s');
    StepSpends(s, step);
    StepCounts(s, step);
  }

  // After a bounded number of steps nothing is left to do: runs terminate once publishing stops
  // and republishing works.
  lemma {:induction false} StepsBounded(steps: seq<Step>)
    ensures Progress(EMPTY, steps) + Rank(Exec(EMPTY, steps)) <= 2 * Budget(Exec(EMPTY, steps))
    ensures Progress(EMPTY, steps) <= 2 * Budget(Exec(EMPTY, steps))
  {
    if steps != [] {
      StepsBounded(steps[..|steps| - 1]);
      RunConsistent(steps[..|steps| - 1]);
      StepRanks(Exec(EMPTY, steps[..|steps| - 1]), steps[|steps| - 1]);
    }
    var s := Exec(EMPTY, steps);
    SumNonNegative(RankOfCopy, s.work);
    SumNonNegative(RankOfDead, s.dlq);
  }
}
