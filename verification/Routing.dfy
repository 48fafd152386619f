// The exchanges and bindings declared in shared/messaging/rabbitmq.go, with the topic
// matching of section 3.1.3.3 of the AMQP 0-9-1 specification. A routing key is held as its
// words, the parts between its dots.
module Routing {
  type Key = seq<string>

  datatype Binding = Binding(queue: string, keys: seq<Key>)

  const TRIP_EXCHANGE := "trip"
  const DEAD_LETTER_EXCHANGE := "dlx"
  const DEAD_LETTER_QUEUE := "dead_letter_queue"
  const CHAT_CMD_SEND_QUEUE := "chat_cmd_send"

  const TRIP_CREATED: Key := ["trip", "event", "created"]
  const DRIVER_ASSIGNED: Key := ["trip", "event", "driver_assigned"]

  // Every queue bound to the trip exchange, in the order of declaration.
  const TRIP_BINDINGS: seq<Binding> := [
    Binding("find_available_drivers", [TRIP_CREATED, ["trip", "event", "driver_not_interested"]]),
    Binding("notify_trip_created", [TRIP_CREATED]),
    Binding("driver_cmd_trip_request", [["driver", "cmd", "trip_request"]]),
    Binding("driver_trip_response", [["driver", "cmd", "trip_accept"], ["driver", "cmd", "trip_decline"]]),
    Binding("notify_driver_no_drivers_found", [["trip", "event", "no_drivers_found"]]),
    Binding("notify_driver_assign", [DRIVER_ASSIGNED]),
    Binding("notify_trip_completed", [["trip", "event", "completed"]]),
    Binding("payment_trip_response", [["payment", "cmd", "create_session"]]),
    Binding("notify_payment_session_created", [["payment", "event", "session_created"]]),
    Binding("payment_success", [["payment", "event", "success"]]),
    Binding("driver_location_update", [["driver", "cmd", "location"]]),
    Binding("driver_trip_assigned", [DRIVER_ASSIGNED]),
    Binding("notify_rider_driver_location", [["driver", "event", "location"]]),
    Binding(CHAT_CMD_SEND_QUEUE, [["chat", "cmd", "send"]]),
    Binding("chat_event_delivered", [["chat", "event", "delivered"]]),
    Binding("notify_trip_cancelled", [["trip", "event", "cancelled"]])
  ]

  // `*` stands for exactly one word and `#` for any number of them.
  predicate Matches(pattern: Key, key: Key)
    decreases |pattern| + |key|
  {
    if pattern == [] then key == []
    else if pattern[0] == "#" then Matches(pattern[1..], key) || (key != [] && Matches(pattern, key[1..]))
    else key != [] && (pattern[0] == "*" || pattern[0] == key[0]) && Matches(pattern[1..], key[1..])
  }

  predicate Bound(b: Binding, key: Key) {
    exists p :: p in b.keys && Matches(p, key)
  }

  // The queues among the bindings from `i` on that get a copy: one copy for each queue,
  // however many of its bindings match.
  function QueuesFrom(table: seq<Binding>, i: nat, key: Key): (qs: seq<string>)
    requires i <= |table|
    decreases |table| - i
  {
    if i == |table| then []
    else (if Bound(table[i], key) then [table[i].queue] else []) + QueuesFrom(table, i + 1, key)
  }

  function QueuesFor(exchange: string, key: Key): seq<string> {
    if exchange == TRIP_EXCHANGE then QueuesFrom(TRIP_BINDINGS, 0, key)
    else if exchange == DEAD_LETTER_EXCHANGE then QueuesFrom([Binding(DEAD_LETTER_QUEUE, [["#"]])], 0, key)
    else []
  }

  // The number of work queues that get a copy of a message published under `key`.
  function FanOut(key: Key): nat {
    |QueuesFor(TRIP_EXCHANGE, key)|
  }

  lemma {:induction false} HashMatches(key: Key)
    ensures Matches(["#"], key)
  {
    if key != [] {
      HashMatches(key[1..]);
    }
  }

  // Everything sent to the dead letter exchange reaches the dead letter queue, once.
  lemma DeadLetterCatchesAll(key: Key)
    ensures QueuesFor(DEAD_LETTER_EXCHANGE, key) == [DEAD_LETTER_QUEUE]
  {
    var b := Binding(DEAD_LETTER_QUEUE, [["#"]]);
    HashMatches(key);
    assert ["#"] in b.keys;
    assert Bound(b, key);
    assert QueuesFrom([b], 1, key) == [];
  }

  // ---- Fan-out of the declared keys ----

  predicate Literal(p: Key) {
    forall w :: w in p ==> w != "#" && w != "*"
  }

  // A pattern without wildcards matches its own key and no other.
  lemma {:induction false} LiteralMatch(pattern: Key, key: Key)
    requires Literal(pattern)
    ensures Matches(pattern, key) <==> pattern == key
  {
    if pattern != [] {
      assert pattern[0] in pattern;
      if key != [] {
        assert forall w :: w in pattern[1..] ==> w in pattern;
        LiteralMatch(pattern[1..], key[1..]);
        assert pattern == [pattern[0]] + pattern[1..] && key == [key[0]] + key[1..];
      }
    }
  }

  lemma BoundLiteral(b: Binding, key: Key)
    requires forall p :: p in b.keys ==> Literal(p)
    ensures Bound(b, key) <==> key in b.keys
  {
    forall p | p in b.keys ensures Matches(p, key) <==> p == key {
      LiteralMatch(p, key);
    }
  }

  // No declared binding uses a wildcard.
  lemma TableIsLiteral(i: nat)
    requires i < |TRIP_BINDINGS|
    ensures forall p :: p in TRIP_BINDINGS[i].keys ==> Literal(p)
  {
  }

  predicate Lists(table: seq<Binding>, i: nat, key: Key) {
    i < |table| && key in table[i].keys
  }

  ghost function RowsFrom(table: seq<Binding>, i: nat, key: Key): set<nat> {
    set j: nat | i <= j < |table| && Lists(table, j, key)
  }

  // Topic matching against literal bindings counts the rows that list the key.
  lemma {:induction false} TopicIsEquality(table: seq<Binding>, i: nat, key: Key)
    requires i <= |table|
    requires forall j, p :: 0 <= j < |table| && p in table[j].keys ==> Literal(p)
    ensures |QueuesFrom(table, i, key)| == |RowsFrom(table, i, key)|
    decreases |table| - i
  {
    if i < |table| {
      BoundLiteral(table[i], key);
      TopicIsEquality(table, i + 1, key);
      assert RowsFrom(table, i, key) == (if Lists(table, i, key) then {i} else {}) + RowsFrom(table, i + 1, key);
    }
  }

  // Only two keys are listed by more than one row.
  lemma SharedKeys(i: nat, j: nat, key: Key)
    requires i < j && Lists(TRIP_BINDINGS, i, key) && Lists(TRIP_BINDINGS, j, key)
    ensures (i == 0 && j == 1 && key == TRIP_CREATED) || (i == 5 && j == 11 && key == DRIVER_ASSIGNED)
  {
  }

  lemma SharedRows()
    ensures Lists(TRIP_BINDINGS, 0, TRIP_CREATED) && Lists(TRIP_BINDINGS, 1, TRIP_CREATED)
    ensures Lists(TRIP_BINDINGS, 5, DRIVER_ASSIGNED) && Lists(TRIP_BINDINGS, 11, DRIVER_ASSIGNED)
  {
    assert TRIP_BINDINGS[1].keys[0] == TRIP_CREATED == TRIP_BINDINGS[0].keys[0];
    assert TRIP_BINDINGS[5].keys[0] == DRIVER_ASSIGNED == TRIP_BINDINGS[11].keys[0];
  }

  ghost predicate Declared(key: Key) {
    exists i: nat :: Lists(TRIP_BINDINGS, i, key)
  }

  lemma OneOrTwoRows(key: Key, i: nat, rows: set<nat>)
    requires rows == RowsFrom(TRIP_BINDINGS, 0, key) && Lists(TRIP_BINDINGS, i, key)
    ensures |rows| == if key == TRIP_CREATED || key == DRIVER_ASSIGNED then 2 else 1
  {
    SharedRows();
    if j: nat :| j in rows && j != i {
      SharedKeys(if i < j then i else j, if i < j then j else i, key);
      forall l | l in rows ensures l == i || l == j {
        if l != i {
          SharedKeys(if i < l then i else l, if i < l then l else i, key);
        }
      }
      assert rows == {i, j};
    } else {
      assert key == TRIP_CREATED ==> 0 in rows && 1 in rows;
      assert key == DRIVER_ASSIGNED ==> 5 in rows && 11 in rows;
      assert rows == {i};
    }
  }

  // What every publish costs: two copies for the two shared keys, one for every other declared
  // key, none for a key that no queue is bound to.
  lemma FanOutOf(key: Key)
    ensures FanOut(key) == if key == TRIP_CREATED || key == DRIVER_ASSIGNED then 2
                           else if Declared(key) then 1 else 0
    ensures FanOut(key) <= 2
  {
    forall j, p | 0 <= j < |TRIP_BINDINGS| && p in TRIP_BINDINGS[j].keys ensures Literal(p) {
      TableIsLiteral(j);
    }
    TopicIsEquality(TRIP_BINDINGS, 0, key);
    var rows := RowsFrom(TRIP_BINDINGS, 0, key);
    if i: nat :| Lists(TRIP_BINDINGS, i, key) {
      OneOrTwoRows(key, i, rows);
    } else {
      SharedRows();
      assert rows == {};
    }
  }

  // A message published under the empty key reaches no queue.
  lemma EmptyKeyUnrouted()
    ensures QueuesFor(TRIP_EXCHANGE, []) == []
  {
    forall i: nat ensures !Lists(TRIP_BINDINGS, i, []) {
    }
    FanOutOf([]);
  }

  // ---- Which queues get the copies ----

  // Some row from `i` on names this queue and lists the key.
  ghost predicate Binds(table: seq<Binding>, i: nat, key: Key, queue: string) {
    exists j: nat :: i <= j && Lists(table, j, key) && table[j].queue == queue
  }

  ghost predicate DistinctQueues(table: seq<Binding>) {
    forall i, j :: 0 <= i < j < |table| ==> table[i].queue != table[j].queue
  }

  // A queue gets exactly one copy if one of its rows lists the key, and none otherwise.
  lemma {:induction false} OneCopyEach(table: seq<Binding>, i: nat, key: Key, queue: string)
    requires i <= |table| && DistinctQueues(table)
    requires forall j, p :: 0 <= j < |table| && p in table[j].keys ==> Literal(p)
    ensures multiset(QueuesFrom(table, i, key))[queue] == if Binds(table, i, key, queue) then 1 else 0
    decreases |table| - i
  {
    if i < |table| {
      BoundLiteral(table[i], key);
      OneCopyEach(table, i + 1, key, queue);
      var first := if Bound(table[i], key) then [table[i].queue] else [];
      assert multiset(QueuesFrom(table, i, key)) == multiset(first) + multiset(QueuesFrom(table, i + 1, key));
      if table[i].queue == queue {
        assert !Binds(table, i + 1, key, queue);
        assert Binds(table, i, key, queue) <==> Lists(table, i, key);
      } else {
        assert Binds(table, i, key, queue) <==> Binds(table, i + 1, key, queue);
      }
    }
  }

  lemma TripQueuesDiffer()
    ensures DistinctQueues(TRIP_BINDINGS)
  {
  }

  // The queue is declared with the key.
  ghost predicate Declares(queue: string, key: Key) {
    exists i: nat :: Lists(TRIP_BINDINGS, i, key) && TRIP_BINDINGS[i].queue == queue
  }

  // A message published under a key reaches every queue declared with that key, once, and no other.
  lemma RoutedToDeclared(key: Key, queue: string)
    ensures multiset(QueuesFor(TRIP_EXCHANGE, key))[queue] == if Binds(TRIP_BINDINGS, 0, key, queue) then 1 else 0
    ensures queue in QueuesFor(TRIP_EXCHANGE, key) <==> Declares(queue, key)
  {
    forall j, p | 0 <= j < |TRIP_BINDINGS| && p in TRIP_BINDINGS[j].keys ensures Literal(p) {
      TableIsLiteral(j);
    }
    TripQueuesDiffer();
    OneCopyEach(TRIP_BINDINGS, 0, key, queue);
    assert queue in multiset(QueuesFor(TRIP_EXCHANGE, key)) <==> queue in QueuesFor(TRIP_EXCHANGE, key);
  }

  lemma NoneTwice(qs: seq<string>, i: nat, j: nat)
    requires i < j < |qs| && multiset(qs)[qs[i]] <= 1
    ensures qs[i] != qs[j]
  {
    assert qs == qs[..i] + [qs[i]] + qs[i + 1..];
    assert qs[i + 1..][j - i - 1] == qs[j];
  }

  lemma NoQueueTwice(key: Key, i: nat, j: nat)
    requires i < j < |QueuesFor(TRIP_EXCHANGE, key)|
    ensures QueuesFor(TRIP_EXCHANGE, key)[i] != QueuesFor(TRIP_EXCHANGE, key)[j]
  {
    RoutedToDeclared(key, QueuesFor(TRIP_EXCHANGE, key)[i]);
    NoneTwice(QueuesFor(TRIP_EXCHANGE, key), i, j);
  }

  ghost function QueuesOf(key: Key): set<string> {
    set q | q in QueuesFor(TRIP_EXCHANGE, key)
  }

  lemma OneQueue(key: Key, i: nat)
    requires Lists(TRIP_BINDINGS, i, key) && key != TRIP_CREATED && key != DRIVER_ASSIGNED
    ensures QueuesOf(key) == {TRIP_BINDINGS[i].queue}
  {
    forall q ensures q in QueuesOf(key) <==> q == TRIP_BINDINGS[i].queue {
      RoutedToDeclared(key, q);
      if j: nat :| Lists(TRIP_BINDINGS, j, key) && j != i {
        SharedKeys(if i < j then i else j, if i < j then j else i, key);
      }
    }
  }

  lemma TwoRows(key: Key, i: nat, j: nat, l: nat)
    requires i < j && Lists(TRIP_BINDINGS, i, key) && Lists(TRIP_BINDINGS, j, key) && Lists(TRIP_BINDINGS, l, key)
    ensures l == i || l == j
  {
    SharedKeys(i, j, key);
    if l != i {
      SharedKeys(if i < l then i else l, if i < l then l else i, key);
    }
  }

  lemma TwoQueues(key: Key, i: nat, j: nat, q: string)
    requires i < j && Lists(TRIP_BINDINGS, i, key) && Lists(TRIP_BINDINGS, j, key)
    ensures q in QueuesFor(TRIP_EXCHANGE, key) <==> q in {TRIP_BINDINGS[i].queue, TRIP_BINDINGS[j].queue}
  {
    RoutedToDeclared(key, q);
    if l: nat :| Lists(TRIP_BINDINGS, l, key) && TRIP_BINDINGS[l].queue == q {
      TwoRows(key, i, j, l);
    }
  }

  lemma At(i: nat, n: nat, key: Key)
    requires i < |TRIP_BINDINGS| && n < |TRIP_BINDINGS[i].keys| && TRIP_BINDINGS[i].keys[n] == key
    ensures Lists(TRIP_BINDINGS, i, key)
  {
  }

  // The two shared keys.
  lemma CreatedKey()
    ensures QueuesOf(["trip", "event", "created"]) == {"find_available_drivers", "notify_trip_created"}
  {
    SharedRows();
    forall q ensures q in QueuesOf(TRIP_CREATED) <==> q in {"find_available_drivers", "notify_trip_created"} {
      TwoQueues(TRIP_CREATED, 0, 1, q);
    }
  }

  lemma DriverAssignedKey()
    ensures QueuesOf(["trip", "event", "driver_assigned"]) == {"notify_driver_assign", "driver_trip_assigned"}
  {
    SharedRows();
    forall q ensures q in QueuesOf(DRIVER_ASSIGNED) <==> q in {"notify_driver_assign", "driver_trip_assigned"} {
      TwoQueues(DRIVER_ASSIGNED, 5, 11, q);
    }
  }

  // Where the other messages about trips go.
  lemma TripKeys()
    ensures QueuesOf(["trip", "event", "driver_not_interested"]) == {"find_available_drivers"}
    ensures QueuesOf(["trip", "event", "no_drivers_found"]) == {"notify_driver_no_drivers_found"}
    ensures QueuesOf(["trip", "event", "completed"]) == {"notify_trip_completed"}
    ensures QueuesOf(["trip", "event", "cancelled"]) == {"notify_trip_cancelled"}
  {
    At(0, 1, ["trip", "event", "driver_not_interested"]);
    OneQueue(["trip", "event", "driver_not_interested"], 0);
    At(4, 0, ["trip", "event", "no_drivers_found"]);
    OneQueue(["trip", "event", "no_drivers_found"], 4);
    At(6, 0, ["trip", "event", "completed"]);
    OneQueue(["trip", "event", "completed"], 6);
    At(15, 0, ["trip", "event", "cancelled"]);
    OneQueue(["trip", "event", "cancelled"], 15);
  }

  // Where the messages about drivers go.
  lemma DriverKeys()
    ensures QueuesOf(["driver", "cmd", "trip_request"]) == {"driver_cmd_trip_request"}
    ensures QueuesOf(["driver", "cmd", "trip_accept"]) == {"driver_trip_response"}
    ensures QueuesOf(["driver", "cmd", "trip_decline"]) == {"driver_trip_response"}
    ensures QueuesOf(["driver", "cmd", "location"]) == {"driver_location_update"}
    ensures QueuesOf(["driver", "event", "location"]) == {"notify_rider_driver_location"}
  {
    At(2, 0, ["driver", "cmd", "trip_request"]);
    OneQueue(["driver", "cmd", "trip_request"], 2);
    At(3, 0, ["driver", "cmd", "trip_accept"]);
    OneQueue(["driver", "cmd", "trip_accept"], 3);
    At(3, 1, ["driver", "cmd", "trip_decline"]);
    OneQueue(["driver", "cmd", "trip_decline"], 3);
    At(10, 0, ["driver", "cmd", "location"]);
    OneQueue(["driver", "cmd", "location"], 10);
    At(12, 0, ["driver", "event", "location"]);
    OneQueue(["driver", "event", "location"], 12);
  }

  // Where the messages about payments and chat go.
  lemma PaymentAndChatKeys()
    ensures QueuesOf(["payment", "cmd", "create_session"]) == {"payment_trip_response"}
    ensures QueuesOf(["payment", "event", "session_created"]) == {"notify_payment_session_created"}
    ensures QueuesOf(["payment", "event", "success"]) == {"payment_success"}
    ensures QueuesOf(["chat", "cmd", "send"]) == {"chat_cmd_send"}
    ensures QueuesOf(["chat", "event", "delivered"]) == {"chat_event_delivered"}
  {
    At(7, 0, ["payment", "cmd", "create_session"]);
    OneQueue(["payment", "cmd", "create_session"], 7);
    At(8, 0, ["payment", "event", "session_created"]);
    OneQueue(["payment", "event", "session_created"], 8);
    At(9, 0, ["payment", "event", "success"]);
    OneQueue(["payment", "event", "success"], 9);
    At(13, 0, ["chat", "cmd", "send"]);
    OneQueue(["chat", "cmd", "send"], 13);
    At(14, 0, ["chat", "event", "delivered"]);
    OneQueue(["chat", "event", "delivered"], 14);
  }

  // ---- Wildcards ----

  // `#` in front stands for any number of words.
  lemma {:induction false} HashTakesAny(pattern: Key, key: Key)
    ensures Matches(["#"] + pattern, key) <==> exists i :: 0 <= i <= |key| && Matches(pattern, key[i..])
  {
    assert (["#"] + pattern)[1..] == pattern && key[0..] == key;
    if key != [] {
      HashTakesAny(pattern, key[1..]);
      if i :| 0 <= i <= |key| && Matches(pattern, key[i..]) {
        assert i > 0 ==> key[1..][i - 1..] == key[i..];
      }
      if i :| 0 <= i <= |key[1..]| && Matches(pattern, key[1..][i..]) {
        assert key[1..][i..] == key[i + 1..];
      }
    }
  }

  // `*` in front stands for exactly one word.
  lemma StarTakesOne(pattern: Key, key: Key)
    ensures Matches(["*"] + pattern, key) <==>
            exists w :: w in key && key == [w] + key[1..] && Matches(pattern, key[1..])
  {
    assert (["*"] + pattern)[1..] == pattern;
    if key != [] {
      assert key == [key[0]] + key[1..];
    }
  }
}
