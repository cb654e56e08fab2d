/** A consumer that outlives reconnects, against the connection it polls: items, errors and recoveries
    arrive, the terminal notice and shutdown may come between any two of its steps, and a call to
    `next` may be dropped wherever it waits. */
module Recovery {
  import opened Wrappers

  datatype Item = Delivery(number: nat) | Error | End

  /** What one call to `next` returned: a delivery, the error that ends the stream, or nothing. */
  datatype Out = Got(number: nat) | Failure | Nothing

  /** Shutdown stores the closed flag first and bumps the watch second. */
  datatype Shutdown = Running | Stored | Announced

  /** Where the call to `next` stands, in `next` itself or in the `recover` it runs. */
  datatype Pc =
    | Idle
    | AskEnded
    | AskTerminal
    | PollWatch
    | PollItem
    | Blocked
    | RecoverAskClosed
    | RecoverAskFailed
    | RecoverPollWatch
    | RecoverPollResult
    | RecoverBlocked

  datatype State = State(
    shutdown: Shutdown,
    terminal: bool,
    version: nat,
    broken: bool,
    feed: seq<Item>,
    fed: nat,
    recovered: Option<bool>,
    seen: nat,
    ended: bool,
    pc: Pc,
    log: seq<Out>)
  {
    predicate Closed() {
      !shutdown.Running?
    }

    predicate Failed() {
      terminal || broken
    }
  }

  /** A consumer just wrapped, on a connection in whatever state. */
  predicate Initial(s: State) {
    && s.feed == [] && s.fed == 0 && s.recovered.None?
    && s.seen == s.version && !s.ended && s.pc.Idle? && s.log == []
  }

  datatype Event =
    | Call
    | Own
    | Drop
    | Feed(item: Item)
    | Recover(ok: bool)
    | Reconnect
    | Terminal
    | Break
    | Store
    | Announce

  function Goes(s: State, pc: Pc): State {
    s.(pc := pc)
  }

  function Returns(s: State, out: Out, ends: bool): State {
    s.(pc := Idle, log := s.log + [out], ended := s.ended || ends)
  }

  /** Whether the watch has news; reading the news marks it seen. */
  function Watch(s: State, changed: Pc, unchanged_: Pc): State {
    if s.version != s.seen then s.(seen := s.version, pc := changed) else Goes(s, unchanged_)
  }

  predicate CanOwn(s: State) {
    match s.pc
    case Idle => false
    // A blocked call is woken by the watch or by what it waits for.
    case Blocked => s.version != s.seen || s.feed != []
    case RecoverBlocked => s.version != s.seen || s.recovered.Some?
    case _ => true
  }

  /** The consumer's own next step. */
  function Advance(s: State): State
    requires CanOwn(s)
  {
    match s.pc
    case AskEnded => if s.ended || s.Closed() then Returns(s, Nothing, false) else Goes(s, AskTerminal)
    case AskTerminal => if s.terminal then Returns(s, Failure, true) else Goes(s, PollWatch)
    case PollWatch => Watch(s, AskEnded, PollItem)
    case PollItem =>
      if s.feed == [] then Goes(s, Blocked)
      else
        var rest := s.(feed := s.feed[1..]);
        (match s.feed[0]
         case Delivery(n) => Returns(rest, Got(n), false)
         case Error => Goes(rest.(recovered := None), RecoverAskClosed)
         case End => Returns(rest, Nothing, true))
    case Blocked => Goes(s, PollWatch)
    case RecoverAskClosed => if s.Closed() then Returns(s, Failure, true) else Goes(s, RecoverAskFailed)
    case RecoverAskFailed => if s.Failed() then Returns(s, Failure, true) else Goes(s, RecoverPollWatch)
    case RecoverPollWatch => Watch(s, RecoverAskClosed, RecoverPollResult)
    case RecoverPollResult =>
      (match s.recovered
       case None => Goes(s, RecoverBlocked)
       case Some(ok) => if ok then Goes(s, AskEnded) else Returns(s, Failure, true))
    case RecoverBlocked => Goes(s, RecoverPollWatch)
  }

  predicate Recovering(pc: Pc) {
    pc.RecoverAskClosed? || pc.RecoverAskFailed? || pc.RecoverPollWatch? || pc.RecoverPollResult? || pc.RecoverBlocked?
  }

  predicate Enabled(s: State, e: Event) {
    match e
    case Call => s.pc.Idle?
    case Own => CanOwn(s)
    case Drop => s.pc.Blocked? || s.pc.RecoverBlocked?
    case Feed(item) => item.Delivery? ==> item.number == s.fed
    case Recover(_) => Recovering(s.pc) && s.recovered.None?
    case Reconnect => true
    case Terminal => true
    case Break => true
    case Store => s.shutdown.Running?
    case Announce => s.shutdown.Stored?
  }

  function Apply(s: State, e: Event): State
    requires Enabled(s, e)
  {
    match e
    case Call => Goes(s, AskEnded)
    case Own => Advance(s)
    case Drop => Goes(s, Idle)
    case Feed(item) => s.(feed := s.feed + [item], fed := if item.Delivery? then s.fed + 1 else s.fed)
    case Recover(ok) => s.(recovered := Some(ok))
    case Reconnect => s.(version := s.version + 1)
    // The terminal value and its version change together.
    case Terminal => s.(terminal := true, version := s.version + 1)
    case Break => s.(broken := true)
    case Store => s.(shutdown := Stored)
    case Announce => s.(shutdown := Announced, version := s.version + 1)
  }

  function Step(s: State, e: Event): State {
    if Enabled(s, e) then Apply(s, e) else s
  }

  /** The state after `events`, whatever they are: one that cannot happen where it stands does not. */
  function After(s: State, events: seq<Event>): State {
    if events == [] then s else Step(After(s, events[..|events| - 1]), events[|events| - 1])
  }

  // The shape of a trace.

  /** Deliveries 0 to `k - 1`, then `failures` errors, then `nothings` times nothing. */
  function Trace(k: nat, failures: nat, nothings: nat): seq<Out> {
    seq(k, (i: nat) => Got(i)) + seq(failures, i => Failure) + seq(nothings, i => Nothing)
  }

  function Numbers(items: seq<Item>): seq<nat> {
    if items == [] then []
    else (if items[0].Delivery? then [items[0].number] else []) + Numbers(items[1..])
  }

  lemma {:induction false} NumbersOneMore(items: seq<Item>, item: Item)
    ensures Numbers(items + [item]) == Numbers(items) + if item.Delivery? then [item.number] else []
  {
    if items != [] {
      NumbersOneMore(items[1..], item);
      assert (items + [item])[1..] == items[1..] + [item];
    }
  }

  function From(k: nat, end: nat): seq<nat>
    decreases end - k
  {
    if k >= end then [] else [k] + From(k + 1, end)
  }

  lemma {:induction false} FromOneMore(k: nat, end: nat)
    requires k <= end
    ensures From(k, end + 1) == From(k, end) + [end]
    decreases end - k
  {
    if k < end {
      FromOneMore(k + 1, end);
    }
  }

  /** `k` deliveries are out; the rest of those fed wait in order. */
  ghost predicate Shape(s: State, k: nat, failures: nat, nothings: nat) {
    && k <= s.fed && Numbers(s.feed) == From(k, s.fed)
    && failures <= 1
    && s.log == Trace(k, failures, nothings)
    && (failures + nothings > 0 ==> (s.ended || s.Closed()) && (s.pc.Idle? || s.pc.AskEnded?))
    && (s.ended ==> s.pc.Idle? || s.pc.AskEnded?)
    && (s.ended ==> failures + nothings > 0)
  }

  lemma TraceGot(k: nat)
    ensures Trace(k, 0, 0) + [Got(k)] == Trace(k + 1, 0, 0)
  {
  }

  lemma TraceFailure(k: nat)
    ensures Trace(k, 0, 0) + [Failure] == Trace(k, 1, 0)
  {
  }

  lemma TraceNothing(k: nat, failures: nat, nothings: nat)
    ensures Trace(k, failures, nothings) + [Nothing] == Trace(k, failures, nothings + 1)
  {
  }

  lemma TakesFirst(s: State, k: nat)
    requires k <= s.fed && Numbers(s.feed) == From(k, s.fed) && s.feed != []
    ensures s.feed[0].Delivery? ==> s.feed[0].number == k < s.fed && Numbers(s.feed[1..]) == From(k + 1, s.fed)
    ensures !s.feed[0].Delivery? ==> Numbers(s.feed[1..]) == From(k, s.fed)
  {
    var rest := Numbers(s.feed[1..]);
    if s.feed[0].Delivery? {
      assert Numbers(s.feed) == [s.feed[0].number] + rest;
      assert Numbers(s.feed)[1..] == rest;
      assert From(k, s.fed)[1..] == From(k + 1, s.fed);
    } else {
      assert [] + rest == rest;
    }
  }

  lemma OwnShape(s: State, k: nat, failures: nat, nothings: nat) returns (k': nat, failures': nat, nothings': nat)
    requires Shape(s, k, failures, nothings) && CanOwn(s)
    ensures Shape(Advance(s), k', failures', nothings')
  {
    hide Trace, Numbers, From;
    k', failures', nothings' := k, failures, nothings;
    var t := Advance(s);
    if t.log != s.log {
      var out := t.log[|s.log|];
      assert t.log == s.log + [out];
      if out.Got? {
        TakesFirst(s, k);
        TraceGot(k);
        k' := k + 1;
      } else if out.Failure? {
        TraceFailure(k);
        failures' := 1;
      } else {
        if s.pc.PollItem? {
          TakesFirst(s, k);
        }
        TraceNothing(k, failures, nothings);
        nothings' := nothings + 1;
      }
    } else if s.pc.PollItem? && s.feed != [] {
      TakesFirst(s, k);
    }
  }

  lemma ShapeStep(s: State, e: Event, k: nat, failures: nat, nothings: nat)
    returns (k': nat, failures': nat, nothings': nat)
    requires Shape(s, k, failures, nothings) && Enabled(s, e)
    ensures Shape(Apply(s, e), k', failures', nothings')
  {
    hide Trace, Advance;
    k', failures', nothings' := k, failures, nothings;
    if e.Own? {
      k', failures', nothings' := OwnShape(s, k, failures, nothings);
    } else if e.Feed? {
      NumbersOneMore(s.feed, e.item);
      FromOneMore(k, s.fed);
    }
  }

  lemma {:induction false} RunShape(s: State, events: seq<Event>) returns (k: nat, failures: nat, nothings: nat)
    requires Initial(s)
    ensures Shape(After(s, events), k, failures, nothings)
  {
    if events == [] {
      k, failures, nothings := 0, 0, 0;
      assert Trace(0, 0, 0) == [];
    } else {
      hide Shape, Apply, Enabled;
      k, failures, nothings := RunShape(s, events[..|events| - 1]);
      if Enabled(After(s, events[..|events| - 1]), events[|events| - 1]) {
        k, failures, nothings :=
            ShapeStep(After(s, events[..|events| - 1]), events[|events| - 1], k, failures, nothings);
      }
    }
  }

  /** Whatever happens and whichever calls are dropped, what `next` returned so far is the consumer's
      deliveries in order with none left out, then at most one error, then nothing for good. */
  lemma ReturnsInOrder(s: State, events: seq<Event>)
    requires Initial(s)
    ensures exists k: nat, failures: nat, nothings: nat ::
              failures <= 1 && k <= After(s, events).fed && After(s, events).log == Trace(k, failures, nothings)
  {
    var k, failures, nothings := RunShape(s, events);
  }

  // Reasons.

  /** Nothing is lost for good without one: an error comes out only where the connection is closed or
      has failed, or a recovery was refused; and the stream ends only there or where the server ended it. */
  ghost predicate Reasoned(s: State, events: seq<Event>) {
    && (s.recovered == Some(false) ==> Recover(false) in events)
    && (End in s.feed ==> Feed(End) in events)
    && (Failure in s.log ==> s.Closed() || s.Failed() || Recover(false) in events)
    && (s.ended ==> Failure in s.log || Feed(End) in events)
    && (Nothing in s.log ==> s.Closed() || Failure in s.log || Feed(End) in events)
  }

  lemma ReasonedPoll(s: State, events: seq<Event>)
    requires Reasoned(s, events) && s.pc.PollItem?
    ensures Reasoned(Advance(s), events)
  {
  }

  lemma ReasonedOwn(s: State, events: seq<Event>)
    requires Reasoned(s, events) && CanOwn(s)
    ensures Reasoned(Advance(s), events)
  {
    if s.pc.PollItem? {
      hide Advance;
      ReasonedPoll(s, events);
    } else {
      ReasonedElsewhere(s, events);
    }
  }

  lemma ReasonedElsewhere(s: State, events: seq<Event>)
    requires Reasoned(s, events) && CanOwn(s) && !s.pc.PollItem?
    ensures Reasoned(Advance(s), events)
  {
  }

  lemma ReasonedStep(s: State, events: seq<Event>, e: Event)
    requires Reasoned(s, events)
    ensures Reasoned(Step(s, e), events + [e])
  {
    hide Advance;
    if e.Own? && CanOwn(s) {
      ReasonedOwn(s, events);
    }
  }

  lemma {:induction false} AlwaysReasoned(s: State, events: seq<Event>)
    requires Initial(s)
    ensures Reasoned(After(s, events), events)
  {
    if events != [] {
      AlwaysReasoned(s, events[..|events| - 1]);
      ReasonedStep(After(s, events[..|events| - 1]), events[..|events| - 1], events[|events| - 1]);
      assert events == events[..|events| - 1] + [events[|events| - 1]];
    }
  }

  /** A consumer error alone never reaches the caller and never ends the stream: whatever happens, an
      error that comes out has another reason, and so has the first end. */
  lemma EndsForAReason(s: State, events: seq<Event>)
    requires Initial(s)
    ensures Failure in After(s, events).log ==>
              After(s, events).Closed() || After(s, events).Failed() || Recover(false) in events
    ensures Nothing in After(s, events).log ==>
              || After(s, events).Closed() || After(s, events).Failed()
              || Recover(false) in events || Feed(End) in events
  {
    AlwaysReasoned(s, events);
  }

  // Progress.

  /** A call that is under way on a healthy connection, with a delivery first in the feed and any
      recovery it waits for done. */
  ghost predicate CanDeliver(s: State, number: nat) {
    && !s.pc.Idle? && !s.ended && !s.Closed() && !s.Failed()
    && s.feed != [] && s.feed[0] == Delivery(number)
    && (Recovering(s.pc) ==> s.recovered == Some(true))
  }

  /** The steps such a call still takes; news costs it another round. */
  function StepsLeft(pc: Pc, news: bool): nat {
    match pc
    case Idle => 0
    case AskEnded => if news then 7 else 4
    case AskTerminal => if news then 6 else 3
    case PollWatch => if news then 5 else 2
    case PollItem => 1
    case Blocked => if news then 6 else 3
    case RecoverAskClosed => if news then 11 else 8
    case RecoverAskFailed => if news then 10 else 7
    case RecoverPollWatch => if news then 9 else 6
    case RecoverPollResult => if news then 8 else 5
    case RecoverBlocked => if news then 10 else 7
  }

  lemma DeliversNext(s: State, number: nat)
    requires CanDeliver(s, number)
    ensures CanOwn(s)
    ensures s.pc.PollItem? ==> Advance(s).pc.Idle? && Advance(s).log == s.log + [Got(number)]
    ensures !s.pc.PollItem? ==>
              && CanDeliver(Advance(s), number) && Advance(s).log == s.log
              && StepsLeft(Advance(s).pc, Advance(s).version != Advance(s).seen) < StepsLeft(s.pc, s.version != s.seen)
  {
  }

  lemma {:induction false} Delivers(s: State, number: nat, n: nat)
    requires CanDeliver(s, number) && StepsLeft(s.pc, s.version != s.seen) <= n
    ensures Advances(s, n).pc.Idle? && Advances(s, n).log == s.log + [Got(number)]
    decreases n
  {
    DeliversNext(s, number);
    if !s.pc.PollItem? {
      Delivers(Advance(s), number, n - 1);
    }
  }

  /** A call that waits, in the poll or in a recovery that has succeeded, returns the next delivery
      within eleven of its own steps, news or no news. */
  lemma ReturnsTheDelivery(s: State, number: nat)
    requires CanDeliver(s, number)
    ensures Advances(s, 11).pc.Idle? && Advances(s, 11).log == s.log + [Got(number)]
  {
    Delivers(s, number, 11);
  }

  /** A consumer error on a healthy connection is waited out: the call goes into a recovery, and once
      that has succeeded returns the delivery that follows the error. */
  lemma RecoversFromError(s: State, number: nat)
    requires s.pc.Idle? && !s.ended && !s.Closed() && !s.Failed() && s.version == s.seen
    requires |s.feed| > 1 && s.feed[0] == Error && s.feed[1] == Delivery(number)
    ensures var polled := Advances(Apply(s, Call), 4);
            && Enabled(polled, Recover(true))
            && Advances(Apply(polled, Recover(true)), 11).pc.Idle?
            && Advances(Apply(polled, Recover(true)), 11).log == s.log + [Got(number)]
  {
    hide Advances;
    var a := Apply(s, Call);
    Unrolls(a, 4);
    Unrolls(Advance(a), 3);
    var b := Advance(Advance(a));
    Unrolls(b, 2);
    Unrolls(Advance(b), 1);
    var polled := Advance(Advance(b));
    StaysAt(polled);
    Delivers(Apply(polled, Recover(true)), number, 11);
  }

  lemma StaysAt(s: State)
    ensures Advances(s, 0) == s
  {
  }

  // Wakeups.

  /** Past its look at the terminal value. */
  predicate PastTerminal(pc: Pc) {
    pc.PollWatch? || pc.PollItem? || pc.Blocked? || pc.RecoverPollWatch? || pc.RecoverPollResult? || pc.RecoverBlocked?
  }

  /** Past its look at the closed flag. */
  predicate PastClosed(pc: Pc) {
    PastTerminal(pc) || pc.AskTerminal? || pc.RecoverAskFailed?
  }

  /** News the call has not looked at is news the watch still has for it. */
  ghost predicate Notified(s: State) {
    && s.seen <= s.version
    && (s.terminal && PastTerminal(s.pc) ==> s.seen < s.version)
    && (s.shutdown.Announced? && PastClosed(s.pc) ==> s.seen < s.version)
  }

  lemma NotifiedOwn(s: State)
    requires Notified(s) && CanOwn(s)
    ensures Notified(Advance(s))
  {
  }

  lemma NotifiedStep(s: State, e: Event)
    requires Notified(s) && Enabled(s, e)
    ensures Notified(Apply(s, e))
  {
    hide Advance;
    if e.Own? {
      NotifiedOwn(s);
    }
  }

  lemma {:induction false} AlwaysNotified(s: State, events: seq<Event>)
    requires Initial(s)
    ensures Notified(After(s, events))
  {
    if events != [] {
      AlwaysNotified(s, events[..|events| - 1]);
      if Enabled(After(s, events[..|events| - 1]), events[|events| - 1]) {
        NotifiedStep(After(s, events[..|events| - 1]), events[|events| - 1]);
      }
    }
  }

  function Advances(s: State, n: nat): State
    decreases n
  {
    if n == 0 || !CanOwn(s) then s else Advances(Advance(s), n - 1)
  }

  /** No wakeup is lost: once the terminal value is set, or shutdown has announced itself, a waiting
      call can move, and with nothing more from outside is back after five of its own steps with the
      error or with nothing. */
  lemma WakesUp(s: State, events: seq<Event>)
    requires Initial(s) && (After(s, events).pc.Blocked? || After(s, events).pc.RecoverBlocked?)
    requires After(s, events).terminal || After(s, events).shutdown.Announced?
    ensures CanOwn(After(s, events))
    ensures var back := Advances(After(s, events), 5);
            && back.pc.Idle?
            && (back.log == After(s, events).log + [Failure] || back.log == After(s, events).log + [Nothing])
  {
    AlwaysNotified(s, events);
    Returning(After(s, events));
  }

  lemma Returning(t: State)
    requires Notified(t) && (t.pc.Blocked? || t.pc.RecoverBlocked?) && (t.terminal || t.shutdown.Announced?)
    ensures CanOwn(t)
    ensures Advances(t, 5).pc.Idle?
    ensures Advances(t, 5).log == t.log + [Failure] || Advances(t, 5).log == t.log + [Nothing]
  {
    hide Advances;
    var b := Advance(Advance(t));
    Unrolls(t, 5);
    Unrolls(Advance(t), 4);
    Unrolls(b, 3);
    var c := Advance(b);
    Unrolls(c, 2);
    if c.pc != Idle {
      Unrolls(Advance(c), 1);
    }
  }

  lemma Unrolls(s: State, n: nat)
    requires n > 0
    ensures Advances(s, n) == if CanOwn(s) then Advances(Advance(s), n - 1) else s
  {
  }
}
