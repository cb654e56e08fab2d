/** Notes on the traffic through named exchanges, and the subscriptions that a publish is owed to
    because of them. How a topic pattern matches a routing key is a parameter. */
module LiveRoutes {
  datatype Kind = Direct | Topic | Fanout | Headers | Custom(name: string)

  const CONSISTENT_HASH: string := "x-consistent-hash"

  predicate IsConsistentHash(kind: Kind) {
    kind.Custom? && kind.name == CONSISTENT_HASH
  }

  /** A binding as a queue declares it, and as it is noted. */
  datatype Binding = Binding(exchange: string, kind: Kind, routingKey: string)

  datatype Bound = Bound(queue: string, binding: Binding)

  datatype Seen = Seen(
    bindings: seq<Bound>, published: set<(string, string)>, delivered: set<(string, string, string)>)

  type Matching = (string, string) -> bool

  /** The binding passes `key` on, by the kind of its exchange. */
  predicate Passes(matches: Matching, binding: Binding, key: string) {
    match binding.kind
    case Direct => binding.routingKey == key
    case Topic => matches(binding.routingKey, key)
    case Fanout => true
    case Headers => false
    case Custom(_) => false
  }

  predicate Hashes(seen: Seen, exchange: string) {
    exists b | b in seen.bindings :: b.binding.exchange == exchange && IsConsistentHash(b.binding.kind)
  }

  predicate IsBound(seen: Seen, exchange: string, queue: string) {
    exists b | b in seen.bindings :: b.binding.exchange == exchange && b.queue == queue
  }

  ghost predicate IsDelivered(seen: Seen, exchange: string, key: string) {
    exists q :: (exchange, key, q) in seen.delivered
  }

  /** A publish of `key` through `exchange` reaches `queue`: the queue the server's hash was seen to
      pick, any bound queue before that, and elsewhere any queue a binding passes the key to. */
  ghost predicate Reaches(matches: Matching, seen: Seen, exchange: string, key: string, queue: string) {
    if Hashes(seen, exchange) then
      if IsDelivered(seen, exchange, key) then (exchange, key, queue) in seen.delivered
      else IsBound(seen, exchange, queue)
    else exists b | b in seen.bindings ::
        b.binding.exchange == exchange && b.queue == queue && Passes(matches, b.binding, key)
  }

  /** Some publish of `key` through a named exchange reaches `queue`. */
  ghost predicate IsOwed(matches: Matching, seen: Seen, key: string, queue: string) {
    exists exchange :: (exchange, key) in seen.published && Reaches(matches, seen, exchange, key, queue)
  }

  predicate Distinct(owed: seq<nat>) {
    forall i, j | 0 <= i < j < |owed| :: owed[i] != owed[j]
  }

  // What the notes amount to.

  datatype Note =
    | BoundTo(queue: string, bindings: seq<Binding>)
    | PublishedTo(exchange: string, key: string)
    | DeliveredTo(exchange: string, key: string, queue: string)

  function AllBound(queue: string, bindings: seq<Binding>): seq<Bound> {
    seq(|bindings|, i requires 0 <= i < |bindings| => Bound(queue, bindings[i]))
  }

  function Noted(seen: Seen, note: Note): Seen {
    match note
    case BoundTo(queue, bindings) => seen.(bindings := seen.bindings + AllBound(queue, bindings))
    case PublishedTo(exchange, key) =>
      if exchange == "" then seen else seen.(published := seen.published + {(exchange, key)})
    case DeliveredTo(exchange, key, queue) =>
      if exchange == "" then seen else seen.(delivered := seen.delivered + {(exchange, key, queue)})
  }

  function After(notes: seq<Note>): Seen {
    if notes == [] then Seen([], {}, {}) else Noted(After(notes[..|notes| - 1]), notes[|notes| - 1])
  }

  class LiveRoutes {
    var bindings: seq<Bound>
    var published: set<(string, string)>
    var delivered: set<(string, string, string)>

    constructor ()
      ensures View() == After([])
    {
      bindings, published, delivered := [], {}, {};
    }

    function View(): Seen
      reads this
    {
      Seen(bindings, published, delivered)
    }

    method NoteBound(queue: string, declared: seq<Binding>)
      modifies `bindings
      ensures View() == Noted(old(View()), BoundTo(queue, declared))
    {
      ghost var before := bindings;
      for i := 0 to |declared|
        invariant bindings == before + AllBound(queue, declared)[..i]
      {
        bindings := bindings + [Bound(queue, declared[i])];
        assert AllBound(queue, declared)[..i + 1] == AllBound(queue, declared)[..i] + [Bound(queue, declared[i])];
      }
    }

    method NotePublished(exchange: string, key: string)
      modifies `published
      ensures View() == Noted(old(View()), PublishedTo(exchange, key))
    {
      if exchange != "" {
        published := published + {(exchange, key)};
      }
    }

    method NoteDelivered(exchange: string, key: string, queue: string)
      modifies `delivered
      ensures View() == Noted(old(View()), DeliveredTo(exchange, key, queue))
    {
      if exchange != "" {
        delivered := delivered + {(exchange, key, queue)};
      }
    }

    /** The queues a publish of `key` through one exchange reaches. */
    method Queues(matches: Matching, exchange: string, key: string) returns (queues: set<string>)
      ensures forall q :: q in queues <==> Reaches(matches, View(), exchange, key, q)
    {
      if Hashes(View(), exchange) {
        var picked := set d | d in delivered && d.0 == exchange && d.1 == key :: d.2;
        forall q ensures q in picked <==> (exchange, key, q) in delivered {
          assert (exchange, key, q) in delivered ==> (exchange, key, q).2 in picked;
        }
        queues := if picked == {} then set b | b in bindings && b.binding.exchange == exchange :: b.queue else picked;
        if picked != {} {
          ghost var q :| q in picked;
          assert (exchange, key, q) in delivered;
        }
      } else {
        queues := set b | b in bindings && b.binding.exchange == exchange && Passes(matches, b.binding, key) :: b.queue;
      }
    }

    /** The positions of the subscriptions a publish under `key` is owed to, each once, whatever order
        the exchanges come in. */
    method ThroughExchanges(matches: Matching, key: string, subscriptions: seq<string>) returns (owed: seq<nat>)
      ensures Distinct(owed)
      ensures forall p: nat :: p in owed <==> p < |subscriptions| && IsOwed(matches, View(), key, subscriptions[p])
    {
      owed := [];
      var todo := published;
      while todo != {}
        invariant todo <= published
        invariant Distinct(owed)
        invariant forall p: nat ::
            p in owed <==> p < |subscriptions| && OwedBy(matches, published - todo, key, subscriptions[p])
      {
        var publish :| publish in todo;
        if publish.1 == key {
          var queues := Queues(matches, publish.0, key);
          owed := Owing(queues, subscriptions, owed);
        }
        todo := todo - {publish};
      }
    }

    ghost predicate OwedBy(matches: Matching, publishes: set<(string, string)>, key: string, queue: string)
      reads this
    {
      exists exchange :: (exchange, key) in publishes && Reaches(matches, View(), exchange, key, queue)
    }
  }

  /** Adds the positions of the subscriptions among `queues`, once each. */
  method Owing(queues: set<string>, subscriptions: seq<string>, before: seq<nat>) returns (owed: seq<nat>)
    requires Distinct(before)
    ensures Distinct(owed)
    ensures forall p: nat :: p in owed <==> p in before || (p < |subscriptions| && subscriptions[p] in queues)
  {
    owed := before;
    for position := 0 to |subscriptions|
      invariant Distinct(owed)
      invariant forall p: nat :: p in owed <==> p in before || (p < position && subscriptions[p] in queues)
    {
      if subscriptions[position] in queues && position !in owed {
        owed := owed + [position];
      }
    }
  }

  // Every history of notes.

  lemma {:induction false} PublishesAreNotes(notes: seq<Note>, exchange: string, key: string)
    ensures (exchange, key) in After(notes).published <==> exchange != "" && PublishedTo(exchange, key) in notes
  {
    if notes != [] {
      PublishesAreNotes(notes[..|notes| - 1], exchange, key);
      assert notes == notes[..|notes| - 1] + [notes[|notes| - 1]];
    }
  }

  lemma {:induction false} DeliveriesAreNotes(notes: seq<Note>, exchange: string, key: string, queue: string)
    ensures (exchange, key, queue) in After(notes).delivered <==>
            exchange != "" && DeliveredTo(exchange, key, queue) in notes
  {
    if notes != [] {
      DeliveriesAreNotes(notes[..|notes| - 1], exchange, key, queue);
      assert notes == notes[..|notes| - 1] + [notes[|notes| - 1]];
    }
  }

  /** The binding of `b` was among those a note gave its queue. */
  ghost predicate WasBound(notes: seq<Note>, b: Bound) {
    exists i | 0 <= i < |notes| :: notes[i].BoundTo? && notes[i].queue == b.queue && b.binding in notes[i].bindings
  }

  lemma {:induction false} BindingsAreNotes(notes: seq<Note>, b: Bound)
    ensures b in After(notes).bindings <==> WasBound(notes, b)
  {
    if notes != [] {
      var before, last := notes[..|notes| - 1], notes[|notes| - 1];
      BindingsAreNotes(before, b);
      assert WasBound(before, b) ==> WasBound(notes, b);
      if last.BoundTo? {
        AllBoundHas(last.queue, last.bindings, b);
        assert last.queue == b.queue && b.binding in last.bindings ==> WasBound(notes, b);
      }
    }
  }

  lemma AllBoundHas(queue: string, bindings: seq<Binding>, b: Bound)
    ensures b in AllBound(queue, bindings) <==> b.queue == queue && b.binding in bindings
  {
    if b.queue == queue && b.binding in bindings {
      var i :| 0 <= i < |bindings| && bindings[i] == b.binding;
      assert AllBound(queue, bindings)[i] == b;
    }
  }

  /** A note bound a queue to the exchange as one that hashes. */
  ghost predicate WasHashing(notes: seq<Note>, exchange: string) {
    exists b | WasBound(notes, b) :: b.binding.exchange == exchange && b.binding.kind == Custom("x-consistent-hash")
  }

  ghost predicate WasDelivered(notes: seq<Note>, exchange: string, key: string) {
    exists q :: DeliveredTo(exchange, key, q) in notes
  }

  /** What the notes alone say of a publish of `key` through a named exchange. A direct exchange passes
      the key it is bound under, a topic exchange those its pattern matches, and a fanout every key;
      nothing is known to come through a headers exchange or another plugin's. */
  ghost predicate ReachesByNotes(
    matches: Matching, notes: seq<Note>, exchange: string, key: string, queue: string)
  {
    if WasHashing(notes, exchange) && WasDelivered(notes, exchange, key) then DeliveredTo(exchange, key, queue) in notes
    else exists b | WasBound(notes, b) ::
        && b.binding.exchange == exchange && b.queue == queue
        && (|| WasHashing(notes, exchange)
            || (b.binding.kind == Direct && b.binding.routingKey == key)
            || (b.binding.kind == Topic && matches(b.binding.routingKey, key))
            || b.binding.kind == Fanout)
  }

  /** Over every history of notes a publish reaches exactly the queues the notes themselves name. */
  lemma ReachesWhatWasNoted(matches: Matching, notes: seq<Note>, exchange: string, key: string, queue: string)
    requires exchange != ""
    ensures Reaches(matches, After(notes), exchange, key, queue) <==>
            ReachesByNotes(matches, notes, exchange, key, queue)
  {
    var seen := After(notes);
    forall b ensures b in seen.bindings <==> WasBound(notes, b) {
      BindingsAreNotes(notes, b);
    }
    forall q ensures (exchange, key, q) in seen.delivered <==> DeliveredTo(exchange, key, q) in notes {
      DeliveriesAreNotes(notes, exchange, key, q);
    }
    hide After, WasBound;
    assert Hashes(seen, exchange) <==> WasHashing(notes, exchange);
    assert IsDelivered(seen, exchange, key) <==> WasDelivered(notes, exchange, key);
  }

  /** And a subscription is owed a key exactly when a noted publish of it reaches its queue so. */
  lemma OwedWhatWasNoted(matches: Matching, notes: seq<Note>, key: string, queue: string)
    ensures IsOwed(matches, After(notes), key, queue) <==>
            exists exchange ::
              exchange != "" && PublishedTo(exchange, key) in notes &&
                  ReachesByNotes(matches, notes, exchange, key, queue)
  {
    hide After, Reaches, ReachesByNotes;
    forall exchange
      ensures (exchange, key) in After(notes).published <==> exchange != "" && PublishedTo(exchange, key) in notes
    {
      PublishesAreNotes(notes, exchange, key);
    }
    forall exchange | exchange != ""
      ensures Reaches(matches, After(notes), exchange, key, queue) <==>
              ReachesByNotes(matches, notes, exchange, key, queue)
    {
      ReachesWhatWasNoted(matches, notes, exchange, key, queue);
    }
  }

  /** A server whose hash sends a key to one bound queue keeps that queue's subscription owed, before
      the key was first delivered and ever after; and once it was delivered, that exchange owes the key
      to no other queue. */
  lemma HashedQueueIsOwed(matches: Matching, notes: seq<Note>, exchange: string, key: string, b: Bound)
    requires exchange != "" && PublishedTo(exchange, key) in notes
    requires WasBound(notes, b) && b.binding.exchange == exchange && IsConsistentHash(b.binding.kind)
    requires forall q | DeliveredTo(exchange, key, q) in notes :: q == b.queue
    ensures IsOwed(matches, After(notes), key, b.queue)
    ensures DeliveredTo(exchange, key, b.queue) in notes ==>
              forall q :: Reaches(matches, After(notes), exchange, key, q) <==> q == b.queue
  {
    var seen := After(notes);
    PublishesAreNotes(notes, exchange, key);
    BindingsAreNotes(notes, b);
    assert Hashes(seen, exchange) && IsBound(seen, exchange, b.queue);
    forall q ensures (exchange, key, q) in seen.delivered <==> DeliveredTo(exchange, key, q) in notes {
      DeliveriesAreNotes(notes, exchange, key, q);
    }
    assert Reaches(matches, seen, exchange, key, b.queue);
  }
}
