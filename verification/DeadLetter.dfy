// shared/messaging/rabbitmq.go: consuming with retries, dead-lettering a failed message with its
// origin in the headers, and the worker that republishes dead letters to their exchange.
//
// Broker state is the multiset of copies in the work queues and in the dead letter queue. Every
// copy carries its lineage (which publication it descends from, how often it was republished, how
// often a consumer published it to the dead letter exchange), which the code does not store: it
// is what the headers are compared with.
module DeadLetter {
  import opened Numbers
  import opened Options
  import opened Sums
  import opened Routing
  import Retry

  datatype HeaderValue = Int32(i: int) | Int64(i: int) | Float64(x: real) | OtherValue

  datatype Headers = Headers(
    originExchange: Option<string>,
    originalRoutingKey: Option<Key>,
    deathReason: Option<string>,
    retryCount: Option<int>,
    brokerRetryCount: Option<HeaderValue>)

  const NO_HEADERS := Headers(None, None, None, None, None)

  datatype Message = Message(body: string, exchange: string, routingKey: Key, headers: Headers)

  datatype Lineage = Lineage(publication: nat, republishes: nat, dlqPublishes: nat)

  datatype Copy = Copy(queue: string, msg: Message, lineage: Lineage)

  datatype Publication = Publication(body: string, routingKey: Key)

  // How a copy stopped existing.
  datatype Ending = Handled(copy: Copy) | Discarded(copy: Copy) | Dropped(copy: Copy)

  datatype State = State(
    work: seq<Copy>,
    dlq: seq<Copy>,
    publications: seq<Publication>,
    endings: seq<Ending>,
    deliveries: nat,
    handlerCalls: nat)

  const EMPTY := State([], [], [], [], 0, 0)

  const MAX_BROKER_RETRIES := 5
  const MAX_HANDLER_CALLS := Retry.DEFAULT_CONFIG.maxRetries + 1

  // ---- The consumer ----

  // The headers a failed delivery is dead-lettered with.
  function FailureHeaders(d: Message, reason: string): Headers {
    d.headers.(originExchange := Some(if d.exchange == "" then TRIP_EXCHANGE else d.exchange),
               originalRoutingKey := Some(d.routingKey),
               deathReason := Some(reason),
               retryCount := Some(Retry.DEFAULT_CONFIG.maxRetries))
  }

  // The copy that reaches the dead letter queue. An explicit publish carries the failure headers;
  // when that publish fails the delivery is rejected and the broker dead-letters it with the
  // headers it arrived with.
  function DeadCopy(c: Copy, reason: string, publishOk: bool): Copy {
    var headers := if publishOk then FailureHeaders(c.msg, reason) else c.msg.headers;
    Copy(DEAD_LETTER_QUEUE,
         Message(c.msg.body, DEAD_LETTER_EXCHANGE, c.msg.routingKey, headers),
         if publishOk then c.lineage.(dlqPublishes := c.lineage.dlqPublishes + 1) else c.lineage)
  }

  // ---- The dead letter worker ----

  // The retry counter after its increment, as an int32.
  function NextRetry(h: Headers): int {
    var seen := match h.brokerRetryCount
      case None => 0
      case Some(Int32(v)) => v
      case Some(Int64(v)) => Wrap32(v)
      case Some(Float64(x)) => Wrap32(Truncate(x))
      case Some(OtherValue) => 0;
    Wrap32(seen + 1)
  }

  datatype Verdict = Discard | Drop | Republish(exchange: string, key: Key, headers: Headers)

  function Judge(m: Message): Verdict {
    if m.headers.originExchange in {None, Some("")} || m.headers.originalRoutingKey in {None, Some([])} then Discard
    else if NextRetry(m.headers) > MAX_BROKER_RETRIES then Drop
    else Republish(m.headers.originExchange.value, m.headers.originalRoutingKey.value,
                   m.headers.(brokerRetryCount := Some(Int32(NextRetry(m.headers)))))
  }

  // The counter is read from any of the integer types a header may come back as.
  lemma NextRetryReads(h: Headers, v: int)
    requires -TWO_31 <= v < TWO_31
    ensures NextRetry(h.(brokerRetryCount := Some(Int32(v)))) == Wrap32(v + 1)
    ensures NextRetry(h.(brokerRetryCount := Some(Int64(v)))) == Wrap32(v + 1)
    ensures NextRetry(h.(brokerRetryCount := Some(Float64(v as real)))) == Wrap32(v + 1)
    ensures NextRetry(h.(brokerRetryCount := None)) == NextRetry(h.(brokerRetryCount := Some(OtherValue))) == 1
  {
    assert Truncate(v as real) == v;
  }

  // One copy for every queue the exchange routes the message to.
  function Spread(m: Message, lineage: Lineage): (cs: seq<Copy>)
    ensures |cs| == |QueuesFor(m.exchange, m.routingKey)|
    ensures forall c :: c in cs ==> c.msg == m && c.lineage == lineage
  {
    var queues := QueuesFor(m.exchange, m.routingKey);
    seq(|queues|, i requires 0 <= i < |queues| => Copy(queues[i], m, lineage))
  }

  ghost predicate HasCopy(cs: seq<Copy>, queue: string) {
    exists c :: c in cs && c.queue == queue
  }

  // Every queue declared with the key, and no other, got exactly one new copy of this message.
  ghost predicate Fanned(before: seq<Copy>, after: seq<Copy>, body: string, key: Key, lineage: Lineage) {
    && before <= after
    && (forall c :: c in after[|before|..] ==>
          c.msg.body == body && c.msg.routingKey == key && c.msg.exchange == "trip" && c.lineage == lineage)
    && (forall q :: HasCopy(after[|before|..], q) <==> Declares(q, key))
    && (forall i, j :: |before| <= i < j < |after| ==> after[i].queue != after[j].queue)
  }

  lemma SpreadReaches(m: Message, l: Lineage, queue: string)
    requires m.exchange == TRIP_EXCHANGE
    ensures HasCopy(Spread(m, l), queue) <==> Declares(queue, m.routingKey)
  {
    var qs, cs := QueuesFor(m.exchange, m.routingKey), Spread(m, l);
    RoutedToDeclared(m.routingKey, queue);
    if queue in qs {
      var i :| 0 <= i < |qs| && qs[i] == queue;
      assert cs[i] in cs;
    }
    if HasCopy(cs, queue) {
      var c :| c in cs && c.queue == queue;
      var i :| 0 <= i < |cs| && cs[i] == c;
      assert qs[i] == queue;
    }
  }

  lemma SpreadOnce(m: Message, l: Lineage, i: nat, j: nat)
    requires m.exchange == TRIP_EXCHANGE && i < j < |Spread(m, l)|
    ensures Spread(m, l)[i].queue != Spread(m, l)[j].queue
  {
    NoQueueTwice(m.routingKey, i, j);
  }

  lemma SpreadFans(before: seq<Copy>, m: Message, l: Lineage)
    requires m.exchange == TRIP_EXCHANGE
    ensures Fanned(before, before + Spread(m, l), m.body, m.routingKey, l)
  {
    var cs := Spread(m, l);
    var after := before + cs;
    assert after[|before|..] == cs;
    forall q ensures HasCopy(cs, q) <==> Declares(q, m.routingKey) {
      SpreadReaches(m, l, q);
    }
    forall i, j | |before| <= i < j < |after| ensures after[i].queue != after[j].queue {
      SpreadOnce(m, l, i - |before|, j - |before|);
    }
  }

  // ---- Steps ----

  datatype Handling = Succeeds | Fails(reason: string, publishOk: bool)

  datatype Step =
    | Publish(p: Publication)
    | Deliver(i: nat, calls: nat, handling: Handling)
    | Drain(i: nat, publishOk: bool)

  // The chat command queue has a consumer of its own, which requeues on error; its copies take no
  // part in this pipeline.
  predicate Enabled(s: State, step: Step) {
    match step
    case Publish(_) => true
    case Deliver(i, calls, _) =>
      i < |s.work| && s.work[i].queue != CHAT_CMD_SEND_QUEUE && 1 <= calls <= MAX_HANDLER_CALLS
    case Drain(i, _) => i < |s.dlq|
  }

  // A step that is not enabled changes nothing. A failed republish puts the dead letter back.
  function Apply(s: State, step: Step): State {
    if !Enabled(s, step) then s else
      match step
      case Publish(p) =>
        s.(work := s.work + Spread(Message(p.body, TRIP_EXCHANGE, p.routingKey, NO_HEADERS),
                                   Lineage(|s.publications|, 0, 0)),
           publications := s.publications + [p])
      case Deliver(i, calls, handling) =>
        var c := s.work[i];
        var taken := s.(work := RemoveAt(s.work, i), deliveries := s.deliveries + 1,
                        handlerCalls := s.handlerCalls + calls);
        (match handling
         case Succeeds => taken.(endings := s.endings + [Handled(c)])
         case Fails(reason, publishOk) => taken.(dlq := s.dlq + [DeadCopy(c, reason, publishOk)]))
      case Drain(i, publishOk) =>
        var c := s.dlq[i];
        var taken := s.(dlq := RemoveAt(s.dlq, i));
        (match Judge(c.msg)
         case Discard => taken.(endings := s.endings + [Discarded(c)])
         case Drop => taken.(endings := s.endings + [Dropped(c)])
         case Republish(exchange, key, headers) =>
           if !publishOk then s
           else taken.(work := s.work + Spread(Message(c.msg.body, exchange, key, headers),
                                               c.lineage.(republishes := c.lineage.republishes + 1))))
  }

  function Exec(s: State, steps: seq<Step>): State {
    if steps == [] then s else Apply(Exec(s, steps[..|steps| - 1]), steps[|steps| - 1])
  }

  // ---- The running system ----

  class Broker {
    var work: seq<Copy>
    var dlq: seq<Copy>
    var publications: seq<Publication>
    var endings: seq<Ending>
    var deliveries: nat
    var handlerCalls: nat

    constructor ()
      ensures View() == EMPTY
    {
      work, dlq, publications, endings, deliveries, handlerCalls := [], [], [], [], 0, 0;
    }

    function View(): State
      reads this
    {
      State(work, dlq, publications, endings, deliveries, handlerCalls)
    }

    method PublishMessage(body: string, routingKey: Key)
      modifies this
      ensures View() == Apply(old(View()), Publish(Publication(body, routingKey)))
      ensures Fanned(old(work), work, body, routingKey, Lineage(|old(publications)|, 0, 0))
      ensures forall c :: c in work[|old(work)|..] ==> c.msg.headers == Headers(None, None, None, None, None)
    {
      var msg := Message(body, TRIP_EXCHANGE, routingKey, NO_HEADERS);
      SpreadFans(work, msg, Lineage(|publications|, 0, 0));
      work := work + Spread(msg, Lineage(|publications|, 0, 0));
      publications := publications + [Publication(body, routingKey)];
    }

    // One turn of the loop in ConsumeMessages; `handler(j)` is the error of call `j`. The context
    // of a delivery is never cancelled.
    method ConsumeOne(i: nat, handler: nat -> Option<string>, publishOk: bool)
      returns (err: Option<string>, calls: nat)
      requires i < |work| && work[i].queue != CHAT_CMD_SEND_QUEUE
      modifies this
      ensures err.None? <==> exists j: nat :: j < 4 && handler(j).None?
      ensures err.Some? ==> err == handler(3)
      ensures 1 <= calls <= 4
      ensures View() == Apply(old(View()),
                              Deliver(i, calls, if err.None? then Succeeds else Fails(err.value, publishOk)))
    {
      var result, sleeps;
      result, calls, sleeps := Retry.WithBackoff(Retry.DEFAULT_CONFIG, handler, _ => false);
      var d := work[i];
      deliveries, handlerCalls := deliveries + 1, handlerCalls + calls;
      work := RemoveAt(work, i);
      if result.Failed? {
        err := Some(result.error);
        if publishOk {
          var msg := Message(d.msg.body, DEAD_LETTER_EXCHANGE, d.msg.routingKey, FailureHeaders(d.msg, result.error));
          dlq := dlq + [Copy(DEAD_LETTER_QUEUE, msg, d.lineage.(dlqPublishes := d.lineage.dlqPublishes + 1))];
        } else {
          dlq := dlq + [Copy(DEAD_LETTER_QUEUE, d.msg.(exchange := DEAD_LETTER_EXCHANGE), d.lineage)];
        }
      } else {
        err := None;
        endings := endings + [Handled(d)];
      }
    }

    // One turn of the loop in StartDLQConsumer.
    method DrainOne(i: nat, publishOk: bool)
      requires i < |dlq|
      modifies this
      ensures View() == Apply(old(View()), Drain(i, publishOk))
    {
      var d := dlq[i];
      var headers := d.msg.headers;
      var originExchange := if headers.originExchange.Some? then headers.originExchange.value else "";
      var originalRoutingKey := if headers.originalRoutingKey.Some? then headers.originalRoutingKey.value else [];
      if originExchange == "" || originalRoutingKey == [] {
        dlq := RemoveAt(dlq, i);
        endings := endings + [Discarded(d)];
        return;
      }
      var brokerRetryCount := 0;
      match headers.brokerRetryCount {
        case Some(Int32(v)) => brokerRetryCount := v;
        case Some(Int64(v)) => brokerRetryCount := Wrap32(v);
        case Some(Float64(x)) => brokerRetryCount := Wrap32(Truncate(x));
        case _ =>
      }
      brokerRetryCount := Wrap32(brokerRetryCount + 1);
      headers := headers.(brokerRetryCount := Some(Int32(brokerRetryCount)));
      if brokerRetryCount > 5 {
        dlq := RemoveAt(dlq, i);
        endings := endings + [Dropped(d)];
        return;
      }
      if publishOk {
        work := work + Spread(Message(d.msg.body, originExchange, originalRoutingKey, headers),
                              d.lineage.(republishes := d.lineage.republishes + 1));
        dlq := RemoveAt(dlq, i);
      }
    }
  }

  // ---- Content and headers over every generation ----

  // What the headers of a message say agrees with its lineage.
  ghost predicate HeadersAgree(m: Message, l: Lineage) {
    && (l.dlqPublishes == 0 ==> l.republishes == 0)
    && l.republishes <= MAX_BROKER_RETRIES
    && m.headers.originExchange == (if l.dlqPublishes == 0 then None else Some(TRIP_EXCHANGE))
    && m.headers.originalRoutingKey == (if l.dlqPublishes == 0 then None else Some(m.routingKey))
    && m.headers.brokerRetryCount == (if l.republishes == 0 then None else Some(Int32(l.republishes)))
  }

  ghost predicate Traces(s: State, c: Copy) {
    && c.lineage.publication < |s.publications|
    && s.publications[c.lineage.publication] == Publication(c.msg.body, c.msg.routingKey)
    && c.msg.routingKey != []
    && HeadersAgree(c.msg, c.lineage)
  }

  ghost predicate Consistent(s: State) {
    && (forall c :: c in s.work ==> Traces(s, c) && c.msg.exchange == TRIP_EXCHANGE)
    && (forall c :: c in s.dlq ==> Traces(s, c) && c.msg.exchange == DEAD_LETTER_EXCHANGE)
    && (forall e :: e in s.endings ==> Traces(s, e.copy))
    && s.handlerCalls <= MAX_HANDLER_CALLS * s.deliveries
  }

  lemma PublishConsistent(s: State, p: Publication)
    requires Consistent(s)
    ensures Consistent(Apply(s, Publish(p)))
  {
    EmptyKeyUnrouted();
    var s' := Apply(s, Publish(p));
    assert forall c :: Traces(s, c) ==> Traces(s', c);
  }

  lemma DeliverConsistent(s: State, i: nat, calls: nat, handling: Handling)
    requires Consistent(s) && Enabled(s, Deliver(i, calls, handling))
    ensures Consistent(Apply(s, Deliver(i, calls, handling)))
  {
    var s' := Apply(s, Deliver(i, calls, handling));
    assert s.work[i] in s.work;
    assert forall c :: Traces(s, c) <==> Traces(s', c);
    if handling.Fails? {
      assert Traces(s, DeadCopy(s.work[i], handling.reason, handling.publishOk));
    }
  }

  lemma RepublishAgrees(m: Message, l: Lineage)
    requires HeadersAgree(m, l) && Judge(m).Republish?
    ensures Judge(m).exchange == TRIP_EXCHANGE && Judge(m).key == m.routingKey
    ensures HeadersAgree(Message(m.body, TRIP_EXCHANGE, m.routingKey, Judge(m).headers),
                         l.(republishes := l.republishes + 1))
  {
  }

  // Draining only adds copies of the dead letter to the work queues, or ends it.
  lemma AddingKeepsConsistent(s: State, s': State, d: Copy, added: seq<Copy>)
    requires Consistent(s) && d in s.dlq
    requires s'.publications == s.publications && s'.work == s.work + added
    requires s'.handlerCalls == s.handlerCalls && s'.deliveries == s.deliveries
    requires forall c :: c in s'.dlq ==> c in s.dlq
    requires forall e :: e in s'.endings ==> e in s.endings || e.copy == d
    requires forall c :: c in added ==>
               c.msg.body == d.msg.body && c.msg.routingKey == d.msg.routingKey && c.msg.exchange == TRIP_EXCHANGE
               && c.lineage.publication == d.lineage.publication && HeadersAgree(c.msg, c.lineage)
    ensures Consistent(s')
  {
    assert forall c :: Traces(s, c) <==> Traces(s', c);
  }

  // What a republish sends.
  lemma Republished(s: State, i: nat) returns (m: Message, l: Lineage)
    requires Consistent(s) && i < |s.dlq| && Judge(s.dlq[i].msg).Republish?
    ensures var c := s.dlq[i];
            && Apply(s, Drain(i, true)) == s.(dlq := RemoveAt(s.dlq, i), work := s.work + Spread(m, l))
            && m.exchange == TRIP_EXCHANGE && m.routingKey == c.msg.routingKey && m.body == c.msg.body
            && l == c.lineage.(republishes := c.lineage.republishes + 1) && l.republishes <= MAX_BROKER_RETRIES
            && HeadersAgree(m, l)
            && l.publication < |s.publications| && s.publications[l.publication].routingKey == m.routingKey
  {
    var c := s.dlq[i];
    assert c in s.dlq && Traces(s, c);
    RepublishAgrees(c.msg, c.lineage);
    m := Message(c.msg.body, TRIP_EXCHANGE, c.msg.routingKey, Judge(c.msg).headers);
    l := c.lineage.(republishes := c.lineage.republishes + 1);
  }

  lemma EndConsistent(s: State, i: nat, publishOk: bool)
    requires Consistent(s) && i < |s.dlq| && !(Judge(s.dlq[i].msg).Republish? && publishOk)
    ensures Consistent(Apply(s, Drain(i, publishOk)))
  {
    var d := s.dlq[i];
    assert d in s.dlq;
    AddingKeepsConsistent(s, Apply(s, Drain(i, publishOk)), d, []);
  }

  lemma DrainConsistent(s: State, i: nat, publishOk: bool)
    requires Consistent(s) && i < |s.dlq|
    ensures Consistent(Apply(s, Drain(i, publishOk)))
  {
    if Judge(s.dlq[i].msg).Republish? && publishOk {
      var m, l := Republished(s, i);
      AddingKeepsConsistent(s, s.(dlq := RemoveAt(s.dlq, i), work := s.work + Spread(m, l)), s.dlq[i], Spread(m, l));
    } else {
      EndConsistent(s, i, publishOk);
    }
  }

  lemma StepConsistent(s: State, step: Step)
    requires Consistent(s)
    ensures Consistent(Apply(s, step))
  {
    if Enabled(s, step) {
      match step
      case Publish(p) => PublishConsistent(s, p);
      case Deliver(i, calls, handling) => DeliverConsistent(s, i, calls, handling);
      case Drain(i, publishOk) => DrainConsistent(s, i, publishOk);
    }
  }

  lemma {:induction false} RunConsistent(steps: seq<Step>)
    ensures Consistent(Exec(EMPTY, steps))
  {
    if steps != [] {
      RunConsistent(steps[..|steps| - 1]);
      StepConsistent(Exec(EMPTY, steps[..|steps| - 1]), steps[|steps| - 1]);
    }
  }

  // Over every run, a copy still carries the body, key and exchange of its publication, and its
  // retry counter is the number of times it was republished.
  lemma ContentNeverChanges(steps: seq<Step>, c: Copy)
    requires c in Exec(EMPTY, steps).work + Exec(EMPTY, steps).dlq
    ensures c.lineage.publication < |Exec(EMPTY, steps).publications|
    ensures Exec(EMPTY, steps).publications[c.lineage.publication] == Publication(c.msg.body, c.msg.routingKey)
    ensures NextRetry(c.msg.headers) == c.lineage.republishes + 1 <= MAX_BROKER_RETRIES + 1
    ensures c.lineage.dlqPublishes > 0 ==> c.msg.headers.originExchange == Some(TRIP_EXCHANGE)
    ensures c in Exec(EMPTY, steps).work ==> c.msg.exchange == TRIP_EXCHANGE
  {
    RunConsistent(steps);
  }

  // A copy leaves its work queue only into the hands of a handler that succeeded, or with the same
  // body, key and origin into the dead letter queue.
  lemma LeavingIsHandledOrDead(s: State, i: nat, calls: nat, handling: Handling)
    requires Enabled(s, Deliver(i, calls, handling))
    ensures var s' := Apply(s, Deliver(i, calls, handling));
            var c := s.work[i];
            && multiset(s'.work) == multiset(s.work) - multiset{c}
            && (handling.Succeeds? ==> s'.endings == s.endings + [Handled(c)] && s'.dlq == s.dlq)
            && (handling.Fails? ==>
                  && s'.endings == s.endings
                  && |s'.dlq| == |s.dlq| + 1 && s'.dlq[..|s.dlq|] == s.dlq
                  && var d := s'.dlq[|s.dlq|];
                     && d.msg.body == c.msg.body && d.msg.routingKey == c.msg.routingKey
                     && d.lineage.publication == c.lineage.publication
                     && d.queue == "dead_letter_queue" && QueuesFor(d.msg.exchange, d.msg.routingKey) == [d.queue]
                     // An explicit publish says where the copy came from and why; a reject says nothing.
                     && (handling.publishOk ==>
                           && d.msg.headers.originExchange
                              == Some(if c.msg.exchange == "" then "trip" else c.msg.exchange)
                           && d.msg.headers.originalRoutingKey == Some(c.msg.routingKey)
                           && d.msg.headers.deathReason == Some(handling.reason)
                           && d.msg.headers.retryCount == Some(3)
                           && d.msg.headers.brokerRetryCount == c.msg.headers.brokerRetryCount)
                     && (!handling.publishOk ==> d.msg.headers == c.msg.headers))
  {
    DeadLetterCatchesAll(s.work[i].msg.routingKey);
    assert s.work == s.work[..i] + [s.work[i]] + s.work[i + 1..];
  }

  // The worker throws a dead letter away for want of an origin exactly when no consumer ever
  // managed to publish it to the dead letter exchange, which only a rejected first delivery is.
  lemma DiscardedIffNeverPublished(steps: seq<Step>, c: Copy)
    requires c in Exec(EMPTY, steps).dlq
    ensures Judge(c.msg).Discard? <==> c.lineage.dlqPublishes == 0
    ensures c.lineage.dlqPublishes == 0 ==> c.lineage.republishes == 0
    ensures Judge(c.msg).Drop? <==> c.lineage.republishes == MAX_BROKER_RETRIES
    ensures Judge(c.msg).Republish? ==> Judge(c.msg).exchange == TRIP_EXCHANGE && Judge(c.msg).key == c.msg.routingKey
  {
    RunConsistent(steps);
  }

  ghost predicate EndedAs(s: State, s': State, e: Ending) {
    s'.work == s.work && multiset(s'.dlq) == multiset(s.dlq) - multiset{e.copy} && s'.endings == s.endings + [e]
  }

  // One copy with the body, key and publication of `c` in every queue bound to its own key.
  ghost predicate Replaced(s: State, s': State, c: Copy) {
    && multiset(s'.dlq) == multiset(s.dlq) - multiset{c} && s'.endings == s.endings
    && Fanned(s.work, s'.work, c.msg.body, c.msg.routingKey, c.lineage.(republishes := c.lineage.republishes + 1))
  }

  lemma MultisetRemoveAt(xs: seq<Copy>, i: nat)
    requires i < |xs|
    ensures multiset(RemoveAt(xs, i)) == multiset(xs) - multiset{xs[i]}
  {
    assert xs == xs[..i] + [xs[i]] + xs[i + 1..];
  }

  lemma DrainReplaces(s: State, i: nat)
    requires Consistent(s) && i < |s.dlq| && Judge(s.dlq[i].msg).Republish?
    ensures Replaced(s, Apply(s, Drain(i, true)), s.dlq[i])
  {
    var m, l := Republished(s, i);
    ReplacedBy(s, i, m, l);
  }

  lemma ReplacedBy(s: State, i: nat, m: Message, l: Lineage)
    requires i < |s.dlq| && m.exchange == TRIP_EXCHANGE
    requires m.routingKey == s.dlq[i].msg.routingKey && m.body == s.dlq[i].msg.body
    requires l == s.dlq[i].lineage.(republishes := s.dlq[i].lineage.republishes + 1)
    ensures Replaced(s, s.(dlq := RemoveAt(s.dlq, i), work := s.work + Spread(m, l)), s.dlq[i])
  {
    SpreadFans(s.work, m, l);
    MultisetRemoveAt(s.dlq, i);
  }

  // What becomes of a dead letter, in every reachable state: it is discarded if no consumer ever
  // published it, dropped after five republishes, and otherwise stays or goes back to its queues.
  lemma LeavingTheDeadLetters(steps: seq<Step>, i: nat, publishOk: bool)
    requires i < |Exec(EMPTY, steps).dlq|
    ensures var s := Exec(EMPTY, steps);
            var s' := Apply(s, Drain(i, publishOk));
            var c := s.dlq[i];
            if c.lineage.dlqPublishes == 0 then EndedAs(s, s', Discarded(c))
            else if c.lineage.republishes == MAX_BROKER_RETRIES then EndedAs(s, s', Dropped(c))
            else if publishOk then Replaced(s, s', c) else s' == s
  {
    RunConsistent(steps);
    var s := Exec(EMPTY, steps);
    var c := s.dlq[i];
    DiscardedIffNeverPublished(steps, c);
    MultisetRemoveAt(s.dlq, i);
    match Judge(c.msg)
    case Discard =>
    case Drop =>
    case Republish(_, _, _) =>
      if publishOk {
        DrainReplaces(s, i);
      }
  }

  // One failed dead-letter publish is enough to lose a message that was never retried by the
  // broker: it is rejected, arrives without an origin and is discarded.
  lemma RejectLosesFirstGeneration(s: State, i: nat, calls: nat, reason: string)
    requires Consistent(s) && Enabled(s, Deliver(i, calls, Fails(reason, false)))
    requires s.work[i].lineage.dlqPublishes == 0
    ensures var s1 := Apply(s, Deliver(i, calls, Fails(reason, false)));
            var s2 := Apply(s1, Drain(|s.dlq|, true));
            && s2.work == s1.work && s2.dlq == s.dlq
            && s2.endings == s.endings + [Discarded(DeadCopy(s.work[i], reason, false))]
  {
    assert s.work[i] in s.work;
    var d := DeadCopy(s.work[i], reason, false);
    assert RemoveAt(s.dlq + [d], |s.dlq|) == s.dlq;
  }

  // ---- Nothing vanishes ----

  function Power(k: nat, n: nat): nat {
    if n == 0 then 1 else k * Power(k, n - 1)
  }

  // The share of publication `p`, which `k` queues receive, that a copy stands for: each republish
  // splits a share into `k` equal ones.
  function Share(p: nat, k: nat, l: Lineage): int {
    if l.publication != p || l.republishes > MAX_BROKER_RETRIES then 0
    else Power(k, MAX_BROKER_RETRIES - l.republishes)
  }

  ghost function ShareOf(p: nat, k: nat): Copy -> int {
    (c: Copy) => Share(p, k, c.lineage)
  }

  ghost function EndedShareOf(p: nat, k: nat): Ending -> int {
    (e: Ending) => Share(p, k, e.copy.lineage)
  }

  // Everything of publication `p` that is queued, dead-lettered or ended.
  ghost function Account(s: State, p: nat, k: nat): int {
    Sum(ShareOf(p, k), s.work) + Sum(ShareOf(p, k), s.dlq) + Sum(EndedShareOf(p, k), s.endings)
  }

  ghost predicate Whole(s: State, p: nat)
    requires p < |s.publications|
  {
    var k := FanOut(s.publications[p].routingKey);
    Account(s, p, k) == Power(k, MAX_BROKER_RETRIES + 1)
  }

  ghost predicate Conserved(s: State) {
    forall p: nat :: p < |s.publications| ==> Whole(s, p)
  }

  // The copies of one publish; those that descend from other publications have no share.
  lemma SpreadShare(m: Message, l: Lineage, p: nat, k: nat)
    requires m.exchange == TRIP_EXCHANGE && (l.publication == p ==> k == FanOut(m.routingKey))
    ensures Sum(ShareOf(p, k), Spread(m, l)) == if l.publication == p then k * Share(p, k, l) else 0
  {
    SumConstant(ShareOf(p, k), Spread(m, l), Share(p, k, l));
  }

  lemma NoShareYet(s: State, p: nat, k: nat)
    requires Consistent(s) && p >= |s.publications|
    ensures Account(s, p, k) == 0
  {
    forall e | e in s.endings ensures EndedShareOf(p, k)(e) == 0 {
      assert Traces(s, e.copy);
    }
    SumConstant(ShareOf(p, k), s.work, 0);
    SumConstant(ShareOf(p, k), s.dlq, 0);
    SumConstant(EndedShareOf(p, k), s.endings, 0);
  }

  lemma PublishConserves(s: State, pub: Publication)
    requires Consistent(s) && Conserved(s)
    ensures Conserved(Apply(s, Publish(pub)))
  {
    var s' := Apply(s, Publish(pub));
    var m := Message(pub.body, TRIP_EXCHANGE, pub.routingKey, NO_HEADERS);
    var l := Lineage(|s.publications|, 0, 0);
    forall p: nat | p < |s'.publications| ensures Whole(s', p) {
      var k := FanOut(s'.publications[p].routingKey);
      SumAppend(ShareOf(p, k), s.work, Spread(m, l));
      SpreadShare(m, l, p, k);
      if p < |s.publications| {
        assert Whole(s, p);
      } else {
        NoShareYet(s, p, k);
      }
    }
  }

  lemma DeliverConserves(s: State, i: nat, calls: nat, handling: Handling, p: nat, k: nat)
    requires Enabled(s, Deliver(i, calls, handling))
    ensures Account(Apply(s, Deliver(i, calls, handling)), p, k) == Account(s, p, k)
  {
    var c := s.work[i];
    SumRemoveAt(ShareOf(p, k), s.work, i);
    match handling
    case Succeeds => SumAppend(EndedShareOf(p, k), s.endings, [Handled(c)]);
    case Fails(reason, publishOk) => SumAppend(ShareOf(p, k), s.dlq, [DeadCopy(c, reason, publishOk)]);
  }

  lemma EndConserves(s: State, i: nat, e: Ending, p: nat, k: nat)
    requires i < |s.dlq| && e.copy == s.dlq[i]
    ensures Account(s.(dlq := RemoveAt(s.dlq, i), endings := s.endings + [e]), p, k) == Account(s, p, k)
  {
    SumRemoveAt(ShareOf(p, k), s.dlq, i);
    SumAppend(EndedShareOf(p, k), s.endings, [e]);
  }

  // A dead letter's share is split among the copies of its republish.
  lemma RepublishedShare(work: seq<Copy>, dlq: seq<Copy>, i: nat, m: Message, l: Lineage, p: nat, k: nat)
    requires i < |dlq| && dlq[i].lineage.republishes < MAX_BROKER_RETRIES
    requires l == dlq[i].lineage.(republishes := dlq[i].lineage.republishes + 1)
    requires m.exchange == TRIP_EXCHANGE && (l.publication == p ==> k == FanOut(m.routingKey))
    ensures Sum(ShareOf(p, k), work + Spread(m, l)) + Sum(ShareOf(p, k), RemoveAt(dlq, i))
         == Sum(ShareOf(p, k), work) + Sum(ShareOf(p, k), dlq)
  {
    SumAppend(ShareOf(p, k), work, Spread(m, l));
    SpreadShare(m, l, p, k);
    SumRemoveAt(ShareOf(p, k), dlq, i);
  }

  lemma RepublishConserves(s: State, i: nat, p: nat, k: nat)
    requires Consistent(s) && i < |s.dlq| && Judge(s.dlq[i].msg).Republish?
    requires p < |s.publications| && k == FanOut(s.publications[p].routingKey)
    ensures Account(Apply(s, Drain(i, true)), p, k) == Account(s, p, k)
  {
    var m, l := Republished(s, i);
    RepublishedShare(s.work, s.dlq, i, m, l, p, k);
  }

  lemma StepConserves(s: State, step: Step)
    requires Consistent(s) && Conserved(s)
    ensures Conserved(Apply(s, step))
  {
    var s' := Apply(s, step);
    if Enabled(s, step) && s' != s {
      if step.Publish? {
        PublishConserves(s, step.p);
      } else {
        assert s'.publications == s.publications;
        forall p: nat | p < |s.publications| ensures Whole(s', p) {
          assert Whole(s, p);
          AccountKept(s, step, p);
        }
      }
    }
  }

  lemma AccountKept(s: State, step: Step, p: nat)
    requires Consistent(s) && Enabled(s, step) && !step.Publish? && p < |s.publications|
    ensures var k := FanOut(s.publications[p].routingKey); Account(Apply(s, step), p, k) == Account(s, p, k)
  {
    var k := FanOut(s.publications[p].routingKey);
    if step.Deliver? {
      DeliverConserves(s, step.i, step.calls, step.handling, p, k);
    } else {
      match Judge(s.dlq[step.i].msg)
      case Discard => EndConserves(s, step.i, Discarded(s.dlq[step.i]), p, k);
      case Drop => EndConserves(s, step.i, Dropped(s.dlq[step.i]), p, k);
      case Republish(_, _, _) =>
        if step.publishOk {
          RepublishConserves(s, step.i, p, k);
        }
    }
  }

  lemma {:induction false} RunConserves(steps: seq<Step>)
    ensures Conserved(Exec(EMPTY, steps))
  {
    if steps != [] {
      RunConserves(steps[..|steps| - 1]);
      RunConsistent(steps[..|steps| - 1]);
      StepConserves(Exec(EMPTY, steps[..|steps| - 1]), steps[|steps| - 1]);
    }
  }

  // In every run, every copy of every publication is accounted for: with k queues bound to its key,
  // the copies queued, dead-lettered and ended, each weighing k^(5 - republishes), weigh k^6.
  lemma NothingVanishes(steps: seq<Step>, p: nat)
    requires p < |Exec(EMPTY, steps).publications|
    ensures var s := Exec(EMPTY, steps);
            var k := FanOut(s.publications[p].routingKey);
            Sum(ShareOf(p, k), s.work) + Sum(ShareOf(p, k), s.dlq) + Sum(EndedShareOf(p, k), s.endings) == Power(k, 6)
  {
    RunConserves(steps);
    assert Whole(Exec(EMPTY, steps), p);
  }

  lemma {:induction false} PowerPositive(k: nat, n: nat)
    requires k > 0
    ensures Power(k, n) > 0
  {
    if n > 0 {
      PowerPositive(k, n - 1);
    }
  }

  lemma {:induction false} PositiveSum<T>(weight: T -> int, xs: seq<T>) returns (x: T)
    requires Sum(weight, xs) > 0
    ensures x in xs && weight(x) > 0
  {
    if weight(xs[0]) > 0 {
      x := xs[0];
    } else {
      x := PositiveSum(weight, xs[1..]);
    }
  }

  // In particular a publication that was routed is still queued, dead-lettered or ended; and once
  // nothing of it is left in the queues, the copies that ended make up the whole of it.
  lemma RoutedIsPresent(steps: seq<Step>, p: nat)
    requires p < |Exec(EMPTY, steps).publications|
    ensures var s := Exec(EMPTY, steps);
            var k := FanOut(s.publications[p].routingKey);
            && (k > 0 ==> || (exists c :: c in s.work + s.dlq && c.lineage.publication == p)
                          || (exists e :: e in s.endings && e.copy.lineage.publication == p))
            && ((forall c :: c in s.work + s.dlq ==> c.lineage.publication != p) ==>
                  Sum(EndedShareOf(p, k), s.endings) == Power(k, 6))
  {
    NothingVanishes(steps, p);
    var s := Exec(EMPTY, steps);
    var k := FanOut(s.publications[p].routingKey);
    if forall c :: c in s.work + s.dlq ==> c.lineage.publication != p {
      forall c | c in s.work ensures ShareOf(p, k)(c) == 0 { assert c in s.work + s.dlq; }
      forall c | c in s.dlq ensures ShareOf(p, k)(c) == 0 { assert c in s.work + s.dlq; }
      SumConstant(ShareOf(p, k), s.work, 0);
      SumConstant(ShareOf(p, k), s.dlq, 0);
      if k > 0 {
        PowerPositive(k, 6);
        var e := PositiveSum(EndedShareOf(p, k), s.endings);
      }
    }
  }
}
