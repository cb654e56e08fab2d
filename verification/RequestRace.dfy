/** Any number of requests racing with timeouts, cancellations and the dispatchers of every reply
    consumer ever opened, over one table of waiting senders and one counter of ids. A request is known
    by its place in the order the ids were handed out; the correlation id it sends wraps at 64 bits. */
module RequestRace {
  import opened Wrappers
  import opened Errors
  import Decimal

  const WRAP: nat := 0x1_0000_0000_0000_0000

  /** The correlation id of the n-th request. */
  function Cid(n: nat): string {
    "rs-" + Decimal.ToText(n % WRAP)
  }

  lemma PrefixOff(text: string)
    ensures ("rs-" + text)[3..] == text
  {
  }

  lemma CidsDiffer(m: nat, n: nat)
    requires m < WRAP && n < WRAP && m != n
    ensures Cid(m) != Cid(n)
  {
    hide Decimal.ToText;
    PrefixOff(Decimal.ToText(m));
    PrefixOff(Decimal.ToText(n));
    if Cid(m) == Cid(n) {
      Decimal.TextIsInjective(m, n);
    }
  }

  /** A reply, with the request its responder means to answer. */
  datatype Reply = Reply(correlation: Option<string>, answers: nat)

  /** Where a request stands. Waiting, it is for a reply to the consumer of the generation it published
      under; `Failing` is on its way to clean up its slot; a cancelled one never does. */
  datatype Pc =
    | Numbered
    | Registered
    | Waiting(generation: nat)
    | Failing(error: AmqpError)
    | Returned(result: Result<Reply, AmqpError>)
    | Cancelled

  /** A sender a dispatcher has taken out of the table, and the reply it is about to send. */
  datatype Holding = Holding(request: nat, reply: Reply)

  datatype State = State(
    issued: nat,
    pcs: map<nat, Pc>,
    pending: map<string, nat>,
    dispatchers: map<nat, Option<Holding>>,
    started: set<nat>,
    taken: set<nat>,
    sends: multiset<nat>,
    inbox: map<nat, Reply>,
    dropped: set<nat>)

  const INIT: State := State(0, map[], map[], map[], {}, {}, multiset{}, map[], {})

  datatype Event =
    | Number
    | Register(n: nat)
    | PublishFails(n: nat, error: AmqpError)
    | Publish(n: nat, generation: nat)
    | Receive(n: nat)
    | Stop(n: nat)
    | Elapse(n: nat)
    | Cleanup(n: nat)
    | Cancel(n: nat)
    | Start(g: nat)
    | Take(g: nat, reply: Reply)
    | Send(g: nat)
    | Die(g: nat)

  predicate At(s: State, n: nat, pc: Pc) {
    n in s.pcs && s.pcs[n] == pc
  }

  predicate Waits(s: State, n: nat) {
    n in s.pcs && s.pcs[n].Waiting?
  }

  predicate Idle(s: State, g: nat) {
    g in s.dispatchers && s.dispatchers[g].None?
  }

  predicate Enabled(s: State, e: Event) {
    match e
    case Number => true
    case Register(n) => At(s, n, Numbered)
    case PublishFails(n, error) => At(s, n, Registered)
    case Publish(n, generation) => At(s, n, Registered) && generation in s.started
    case Receive(n) => Waits(s, n) && n in s.inbox
    // The sender is gone and sent nothing.
    case Stop(n) => Waits(s, n) && n in s.dropped && n !in s.inbox
    case Elapse(n) => Waits(s, n)
    case Cleanup(n) => n in s.pcs && s.pcs[n].Failing?
    // Where the future awaits: publishing, and waiting for the reply.
    case Cancel(n) => At(s, n, Registered) || Waits(s, n)
    case Start(g) => g !in s.started
    case Take(g, _) => Idle(s, g)
    case Send(g) => g in s.dispatchers && s.dispatchers[g].Some?
    // Between taking a sender and using it a dispatcher awaits nothing, so it does not die there.
    case Die(g) => Idle(s, g)
  }

  function Goes(s: State, n: nat, pc: Pc): State {
    s.(pcs := s.pcs[n := pc])
  }

  /** A sender in the table goes, unused, when its slot is overwritten or cleaned up. */
  function DropSlot(s: State, cid: string): State {
    if cid in s.pending then s.(dropped := s.dropped + {s.pending[cid]}, pending := s.pending - {cid}) else s
  }

  function Apply(s: State, e: Event): State
    requires Enabled(s, e)
  {
    match e
    case Number => Goes(s.(issued := s.issued + 1), s.issued, Numbered)
    case Register(n) =>
      var t := DropSlot(s, Cid(n));
      Goes(t.(pending := t.pending[Cid(n) := n]), n, Registered)
    case PublishFails(n, error) => Goes(s, n, Failing(error))
    case Publish(n, generation) => Goes(s, n, Waiting(generation))
    case Receive(n) => Goes(s, n, Returned(Ok(s.inbox[n])))
    case Stop(n) => Goes(s, n, Failing(AmqpError.Request))
    case Elapse(n) => Goes(s, n, Failing(RequestTimeout))
    case Cleanup(n) => Goes(DropSlot(s, Cid(n)), n, Returned(Err(s.pcs[n].error)))
    case Cancel(n) => Goes(s, n, Cancelled)
    case Start(g) => s.(dispatchers := s.dispatchers[g := None], started := s.started + {g})
    case Take(g, reply) =>
      if reply.correlation.Some? && reply.correlation.value in s.pending then
        var cid := reply.correlation.value;
        var n := s.pending[cid];
        s.(pending := s.pending - {cid},
           taken := s.taken + {n},
           dispatchers := s.dispatchers[g := Some(Holding(n, reply))])
      else s
    case Send(g) =>
      var h := s.dispatchers[g].value;
      // A receiver that timed out or was cancelled is gone, and the reply with it.
      var listens := At(s, h.request, Registered) || Waits(s, h.request);
      s.(dispatchers := s.dispatchers[g := None],
         sends := s.sends + multiset{h.request},
         inbox := if listens then s.inbox[h.request := h.reply] else s.inbox)
    case Die(g) => s.(dispatchers := s.dispatchers - {g})
  }

  function Step(s: State, e: Event): State {
    if Enabled(s, e) then Apply(s, e) else s
  }

  /** The state after `events`, whatever they are: one that cannot happen where it stands does not. */
  function RunFrom(s: State, events: seq<Event>): State
    decreases events
  {
    if events == [] then s else RunFrom(Step(s, events[0]), events[1..])
  }

  function After(events: seq<Event>): State {
    RunFrom(INIT, events)
  }

  // What every step keeps, some of it only while no id has come round again.

  /** Registered, and neither cleaned up nor answered with a return. */
  predicate HasSlot(pc: Pc) {
    pc.Registered? || pc.Waiting? || pc.Failing? || pc.Cancelled?
  }

  predicate Answers(reply: Reply, n: nat) {
    reply.correlation == Some(Cid(n))
  }

  predicate RequestOk(s: State, n: nat) {
    && n in s.pcs
    && var pc := s.pcs[n];
    && (Cid(n) in s.pending <==> HasSlot(pc) && n !in s.taken)
    && (Cid(n) in s.pending ==> s.pending[Cid(n)] == n)
    && (pc.Numbered? ==> n !in s.taken)
    && (n in s.dropped ==> pc.Returned?)
    && (pc.Waiting? ==> pc.generation in s.started)
  }

  ghost predicate Requests(s: State) {
    && s.issued <= WRAP
    && (forall n: nat :: n in s.pcs <==> n < s.issued)
    && (forall n | n in s.pcs :: RequestOk(s, n))
    && s.dropped <= s.pcs.Keys
  }

  /** Each slot is under its request's own id, and each of those requests still to be answered. */
  ghost predicate Slots(s: State) {
    && (forall n | n in s.pcs :: n < s.issued)
    && (forall cid | cid in s.pending ::
          && cid == Cid(s.pending[cid]) && s.pending[cid] !in s.taken
          && s.pending[cid] in s.pcs && !s.pcs[s.pending[cid]].Numbered?)
    && (forall n | n in s.taken :: n in s.pcs && !s.pcs[n].Numbered?)
    && (forall n | n in s.pcs && s.pcs[n].Returned? && s.pcs[n].result.Ok? :: Answers(s.pcs[n].result.value, n))
  }

  predicate HoldsFor(s: State, g: nat, n: nat) {
    g in s.dispatchers && s.dispatchers[g].Some? && s.dispatchers[g].value.request == n
  }

  ghost predicate Dispatching(s: State) {
    && (forall g | g in s.dispatchers && s.dispatchers[g].Some? ::
          && s.dispatchers[g].value.request in s.taken
          && Answers(s.dispatchers[g].value.reply, s.dispatchers[g].value.request))
    && (forall g, h, n | HoldsFor(s, g, n) && HoldsFor(s, h, n) :: g == h)
    && (forall n | n in s.sends :: n in s.taken && s.sends[n] == 1)
    && (forall g, n | HoldsFor(s, g, n) :: n !in s.sends)
    && (forall n | n in s.inbox :: n in s.sends && Answers(s.inbox[n], n))
  }

  /** What holds however many ids were handed out. */
  ghost predicate Answering(s: State) {
    Slots(s) && Dispatching(s)
  }

  ghost predicate Inv(s: State) {
    Requests(s) && Answering(s)
  }

  lemma NewRequestOk(s: State)
    requires Inv(s) && s.issued < WRAP
    ensures RequestOk(Apply(s, Number), s.issued)
  {
    hide Cid;
    var n := s.issued;
    if Cid(n) in s.pending {
      CidsDiffer(s.pending[Cid(n)], n);
    }
  }

  /** Its own step keeps a request as it should be. */
  lemma OwnStepKeeps(s: State, e: Event, n: nat)
    requires Enabled(s, e) && n in s.pcs && RequestOk(s, n)
    requires n in s.inbox ==> n in s.taken
    requires e in {Register(n), Receive(n), Stop(n), Elapse(n), Cleanup(n), Cancel(n)} ||
             ((e.PublishFails? || e.Publish?) && e.n == n)
    ensures RequestOk(Apply(s, e), n)
  {
    hide Cid;
  }

  /** So does a step on another request's slot. */
  lemma OtherSlotKeeps(s: State, m: nat, n: nat)
    requires n in s.pcs && m in s.pcs && RequestOk(s, n) && RequestOk(s, m) && m != n && Cid(m) != Cid(n)
    ensures Enabled(s, Register(m)) ==> RequestOk(Apply(s, Register(m)), n)
    ensures Enabled(s, Cleanup(m)) ==> RequestOk(Apply(s, Cleanup(m)), n)
  {
    hide Cid;
  }

  lemma TakeKeeps(s: State, g: nat, reply: Reply, n: nat)
    requires Enabled(s, Take(g, reply)) && n in s.pcs && RequestOk(s, n)
    requires reply.correlation.Some? && reply.correlation.value in s.pending ==>
               (s.pending[reply.correlation.value] == n <==> reply.correlation.value == Cid(n))
    ensures RequestOk(Apply(s, Take(g, reply)), n)
  {
    hide Cid;
  }

  lemma ElsewhereKeeps(s: State, e: Event, n: nat)
    requires Enabled(s, e) && n in s.pcs && RequestOk(s, n)
    requires !e.Register? && !e.Cleanup? && !e.Take?
    requires e.Number? ==> s.issued != n
    requires e.PublishFails? || e.Publish? || e.Receive? || e.Stop? || e.Elapse? || e.Cancel? ==> e.n != n
    ensures RequestOk(Apply(s, e), n)
  {
    hide Cid;
  }

  lemma RequestKept(s: State, e: Event, n: nat)
    requires Inv(s) && Enabled(s, e) && n in s.pcs
    ensures RequestOk(Apply(s, e), n)
  {
    hide Cid, Apply;
    match e {
      case Take(g, reply) =>
        if reply.correlation.Some? && reply.correlation.value in s.pending && s.pending[reply.correlation.value] != n {
          CidsDiffer(s.pending[reply.correlation.value], n);
        }
        TakeKeeps(s, g, reply, n);
      case Register(m) =>
        if m == n {
          OwnStepKeeps(s, e, n);
        } else {
          CidsDiffer(m, n);
          OtherSlotKeeps(s, m, n);
        }
      case Cleanup(m) =>
        if m == n {
          OwnStepKeeps(s, e, n);
        } else {
          CidsDiffer(m, n);
          OtherSlotKeeps(s, m, n);
        }
      case PublishFails(m, _) => OwnOrElsewhere(s, e, m, n);
      case Publish(m, _) => OwnOrElsewhere(s, e, m, n);
      case Receive(m) => OwnOrElsewhere(s, e, m, n);
      case Stop(m) => OwnOrElsewhere(s, e, m, n);
      case Elapse(m) => OwnOrElsewhere(s, e, m, n);
      case Cancel(m) => OwnOrElsewhere(s, e, m, n);
      case _ => ElsewhereKeeps(s, e, n);
    }
  }

  lemma OwnOrElsewhere(s: State, e: Event, m: nat, n: nat)
    requires Inv(s) && Enabled(s, e) && n in s.pcs
    requires e in {Receive(m), Stop(m), Elapse(m), Cancel(m)} || ((e.PublishFails? || e.Publish?) && e.n == m)
    ensures RequestOk(Apply(s, e), n)
  {
    hide Cid, Apply, Enabled;
    if m == n {
      OwnStepKeeps(s, e, n);
    } else {
      ElsewhereKeeps(s, e, n);
    }
  }

  lemma KeysKept(s: State, e: Event)
    requires Inv(s) && Enabled(s, e)
    ensures forall n: nat :: n in Apply(s, e).pcs <==> n < Apply(s, e).issued
    ensures Apply(s, e).dropped <= Apply(s, e).pcs.Keys
  {
    hide Cid, RequestOk, Dispatching;
  }

  lemma RequestsKept(s: State, e: Event)
    requires Inv(s) && Enabled(s, e) && Apply(s, e).issued <= WRAP
    ensures Requests(Apply(s, e))
  {
    hide Cid, RequestOk;
    KeysKept(s, e);
    forall n | n in Apply(s, e).pcs ensures RequestOk(Apply(s, e), n) {
      if n in s.pcs {
        RequestKept(s, e, n);
      } else {
        NewRequestOk(s);
      }
    }
  }

  lemma SlotKept(s: State, e: Event, cid: string)
    requires Slots(s) && Enabled(s, e) && cid in Apply(s, e).pending
    ensures var t := Apply(s, e);
            && cid == Cid(t.pending[cid]) && t.pending[cid] !in t.taken
            && t.pending[cid] in t.pcs && !t.pcs[t.pending[cid]].Numbered?
  {
    hide Cid, Answers;
  }

  lemma TakenKept(s: State, e: Event, n: nat)
    requires Slots(s) && Enabled(s, e) && n in Apply(s, e).taken
    ensures n in Apply(s, e).pcs && !Apply(s, e).pcs[n].Numbered?
  {
    hide Cid, Answers;
  }

  lemma ReturnedKept(s: State, e: Event, n: nat)
    requires n in s.pcs ==> n < s.issued
    requires n in s.pcs && s.pcs[n].Returned? && s.pcs[n].result.Ok? ==> Answers(s.pcs[n].result.value, n)
    requires n in s.inbox ==> Answers(s.inbox[n], n)
    requires Enabled(s, e) && n in Apply(s, e).pcs
    ensures n < Apply(s, e).issued
    ensures Apply(s, e).pcs[n].Returned? && Apply(s, e).pcs[n].result.Ok? ==>
              Answers(Apply(s, e).pcs[n].result.value, n)
  {
    hide Cid, Answers;
  }

  lemma SlotsKept(s: State, e: Event)
    requires Answering(s) && Enabled(s, e)
    ensures Slots(Apply(s, e))
  {
    var t := Apply(s, e);
    hide Cid, HoldsFor, Apply, Enabled, Answers, Answering;
    forall cid | cid in t.pending
      ensures && cid == Cid(t.pending[cid]) && t.pending[cid] !in t.taken
              && t.pending[cid] in t.pcs && !t.pcs[t.pending[cid]].Numbered?
    {
      SlotKept(s, e, cid) by {
        AnswersHasSlots(s);
      }
    }
    forall n | n in t.taken ensures n in t.pcs && !t.pcs[n].Numbered? {
      TakenKept(s, e, n) by {
        AnswersHasSlots(s);
      }
    }
    forall n | n in t.pcs
      ensures n < t.issued && (t.pcs[n].Returned? && t.pcs[n].result.Ok? ==> Answers(t.pcs[n].result.value, n))
    {
      AnswersHasSlots(s);
      ReturnedKept(s, e, n);
    }
  }

  lemma AnswersHasSlots(s: State)
    requires Answering(s)
    ensures Slots(s) && forall n | n in s.inbox :: Answers(s.inbox[n], n)
  {
  }

  lemma TakeDispatches(s: State, g: nat, reply: Reply)
    requires Answering(s) && Enabled(s, Take(g, reply))
    ensures Dispatching(Apply(s, Take(g, reply)))
  {
    hide Cid;
    var cid := reply.correlation;
    if cid.Some? && cid.value in s.pending {
      var n := s.pending[cid.value];
      var t := Apply(s, Take(g, reply));
      forall h, m | HoldsFor(t, h, m) ensures if h == g then m == n else HoldsFor(s, h, m) && m in s.taken {
      }
    }
  }

  lemma SendDispatches(s: State, g: nat)
    requires Dispatching(s) && Enabled(s, Send(g))
    ensures Dispatching(Apply(s, Send(g)))
  {
    hide Cid;
    var n := s.dispatchers[g].value.request;
    assert HoldsFor(s, g, n);
    var t := Apply(s, Send(g));
    forall h, m | HoldsFor(t, h, m) ensures HoldsFor(s, h, m) && m != n {
      assert HoldsFor(s, h, m);
    }
  }

  /** Nobody holds or was sent anything that was not so before. */
  ghost predicate NothingNew(s: State, t: State) {
    && t.inbox == s.inbox && t.sends == s.sends && t.taken == s.taken
    && forall g | g in t.dispatchers && t.dispatchers[g].Some? ::
         g in s.dispatchers && s.dispatchers[g] == t.dispatchers[g]
  }

  lemma ElsewhereIsNothingNew(s: State, e: Event)
    requires Enabled(s, e) && !e.Take? && !e.Send?
    ensures NothingNew(s, Apply(s, e))
  {
    hide Cid;
  }

  lemma NothingNewDispatches(s: State, t: State)
    requires Dispatching(s) && NothingNew(s, t)
    ensures Dispatching(t)
  {
    hide Answers;
    forall h, m | HoldsFor(t, h, m) ensures HoldsFor(s, h, m) {
    }
  }

  lemma DispatchingKept(s: State, e: Event)
    requires Answering(s) && Enabled(s, e)
    ensures Dispatching(Apply(s, e))
  {
    hide Cid, Apply, Slots, Dispatching;
    match e {
      case Take(g, reply) => TakeDispatches(s, g, reply);
      case Send(g) => SendDispatches(s, g);
      case _ =>
        ElsewhereIsNothingNew(s, e);
        NothingNewDispatches(s, Apply(s, e));
    }
  }

  lemma AnsweringKept(s: State, e: Event)
    requires Answering(s)
    ensures Answering(Step(s, e))
  {
    hide Cid, Apply, Slots, Dispatching, Enabled;
    if Enabled(s, e) {
      SlotsKept(s, e);
      DispatchingKept(s, e);
    }
  }

  lemma {:induction false} StepKeeps(s: State, e: Event)
    requires Inv(s) && Step(s, e).issued <= WRAP
    ensures Inv(Step(s, e))
  {
    hide RequestOk, Cid, Requests, Answering, Apply, Enabled;
    AnsweringKept(s, e);
    if Enabled(s, e) {
      RequestsKept(s, e);
    }
  }

  // Every run.

  lemma {:induction false} IdsOnlyGrow(s: State, events: seq<Event>)
    ensures s.issued <= RunFrom(s, events).issued
    decreases events
  {
    if events != [] {
      IdsOnlyGrow(Step(s, events[0]), events[1..]);
    }
  }

  lemma {:induction false} RunKeeps(s: State, events: seq<Event>)
    requires Inv(s) && RunFrom(s, events).issued <= WRAP
    ensures Inv(RunFrom(s, events))
    decreases events
  {
    if events != [] {
      hide Inv;
      IdsOnlyGrow(Step(s, events[0]), events[1..]);
      StepKeeps(s, events[0]);
      RunKeeps(Step(s, events[0]), events[1..]);
    }
  }

  lemma {:induction false} RunAnswers(s: State, events: seq<Event>)
    requires Answering(s)
    ensures Answering(RunFrom(s, events))
    decreases events
  {
    if events != [] {
      hide Answering;
      AnsweringKept(s, events[0]);
      RunAnswers(Step(s, events[0]), events[1..]);
    }
  }

  /** However many ids were handed out, a reply a request returns carries the request's own correlation
      id, and no request is sent a second one. */
  lemma ReplyIsOwn(events: seq<Event>, n: nat)
    ensures n in After(events).pcs && After(events).pcs[n].Returned? && After(events).pcs[n].result.Ok? ==>
              After(events).pcs[n].result.value.correlation == Some(Cid(n))
    ensures After(events).sends[n] <= 1
  {
    RunAnswers(INIT, events);
  }

  // A request that nobody disturbs.

  /** The next request, in the table and out to a consumer of generation `g`. */
  function InFlight(s: State, g: nat): State {
    Step(Step(Step(s, Number), Register(s.issued)), Event.Publish(s.issued, g))
  }

  lemma NoSlotYet(s: State)
    requires Inv(s) && s.issued < WRAP
    ensures Cid(s.issued) !in s.pending
  {
    hide Cid, Dispatching;
    if Cid(s.issued) in s.pending {
      CidsDiffer(s.pending[Cid(s.issued)], s.issued);
    }
  }

  lemma NoSlotAfter(events: seq<Event>)
    requires After(events).issued < WRAP
    ensures Cid(After(events).issued) !in After(events).pending
  {
    hide Cid;
    RunKeeps(INIT, events);
    NoSlotYet(After(events));
  }

  lemma GoesOut(s: State, g: nat)
    requires Cid(s.issued) !in s.pending && g in s.started
    ensures var registered := Step(Step(s, Number), Register(s.issued));
            registered == s.(issued := s.issued + 1, pcs := s.pcs[s.issued := Registered],
                             pending := s.pending[Cid(s.issued) := s.issued])
    ensures InFlight(s, g) ==
            s.(issued := s.issued + 1, pcs := s.pcs[s.issued := Waiting(g)],
               pending := s.pending[Cid(s.issued) := s.issued])
  {
    hide Cid;
    var n := s.issued;
    assert Step(s, Number) == s.(issued := n + 1, pcs := s.pcs[n := Numbered]);
    assert s.pcs[n := Numbered][n := Registered] == s.pcs[n := Registered];
    assert s.pcs[n := Registered][n := Waiting(g)] == s.pcs[n := Waiting(g)];
  }

  lemma SlotBack(pending: map<string, nat>, cid: string, n: nat)
    requires cid !in pending
    ensures pending[cid := n] - {cid} == pending
  {
  }

  /** What becomes of the slot of `n` under way: a dispatcher takes it and sends what it has. */
  lemma Dispatched(s: State, g: nat, reply: Reply, n: nat)
    requires Idle(s, g) && Waits(s, n) && Cid(n) in s.pending && s.pending[Cid(n)] == n
    requires reply.correlation == Some(Cid(n))
    ensures var t := Step(Step(Step(s, Take(g, reply)), Send(g)), Receive(n));
            && t.pcs == s.pcs[n := Returned(Ok(reply))]
            && t.pending == s.pending - {Cid(n)} && t.dispatchers == s.dispatchers
  {
    hide Cid;
    var a := Step(s, Take(g, reply));
    assert a.dispatchers == s.dispatchers[g := Some(Holding(n, reply))] && a.pcs == s.pcs;
    assert s.dispatchers[g := Some(Holding(n, reply))][g := None] == s.dispatchers;
    var b := Step(a, Send(g));
    assert b.inbox == s.inbox[n := reply] && b.pcs == s.pcs && b.pending == s.pending - {Cid(n)};
  }

  /** A reply under its id reaches a request and is what the request returns; no slot stays behind, and
      the dispatcher is free again. */
  lemma ReplyIsReturned(events: seq<Event>, g: nat, reply: Reply)
    requires After(events).issued < WRAP && g in After(events).started && Idle(After(events), g)
    requires reply.correlation == Some(Cid(After(events).issued))
    ensures var s := After(events);
            var t := Step(Step(Step(InFlight(s, g), Take(g, reply)), Send(g)), Receive(s.issued));
            && t.pcs == s.pcs[s.issued := Returned(Ok(reply))]
            && t.pending == s.pending && t.dispatchers == s.dispatchers
  {
    hide Cid, Inv, Step, InFlight;
    NoSlotAfter(events);
    var s := After(events);
    var n := s.issued;
    GoesOut(s, g);
    Dispatched(InFlight(s, g), g, reply, n);
    SlotBack(s.pending, Cid(n), n);
    Overwritten(s.pcs, n, Waiting(g), Returned(Ok(reply)));
  }

  lemma CleanedUp(s: State, n: nat, error: AmqpError)
    requires At(s, n, Failing(error))
    ensures var t := Step(s, Cleanup(n));
            t.pcs == s.pcs[n := Returned(Err(error))] && t.pending == s.pending - {Cid(n)}
  {
    hide Cid;
  }

  lemma TimesOut(s: State, n: nat)
    requires Waits(s, n)
    ensures var t := Step(Step(s, Elapse(n)), Cleanup(n));
            t.pcs == s.pcs[n := Returned(Err(RequestTimeout))] && t.pending == s.pending - {Cid(n)}
  {
    hide Cid;
    var a := Step(s, Elapse(n));
    assert a.pcs == s.pcs[n := Failing(RequestTimeout)] && a.pending == s.pending;
    CleanedUp(a, n, RequestTimeout);
    assert s.pcs[n := Failing(RequestTimeout)][n := Returned(Err(RequestTimeout))] ==
           s.pcs[n := Returned(Err(RequestTimeout))];
  }

  lemma FailsToPublish(s: State, n: nat, error: AmqpError)
    requires At(s, n, Registered)
    ensures var t := Step(Step(s, PublishFails(n, error)), Cleanup(n));
            t.pcs == s.pcs[n := Returned(Err(error))] && t.pending == s.pending - {Cid(n)}
  {
    hide Cid;
    var a := Step(s, PublishFails(n, error));
    assert a.pcs == s.pcs[n := Failing(error)] && a.pending == s.pending;
    CleanedUp(a, n, error);
    assert s.pcs[n := Failing(error)][n := Returned(Err(error))] == s.pcs[n := Returned(Err(error))];
  }

  lemma Overwritten(pcs: map<nat, Pc>, n: nat, from: Pc, to: Pc)
    ensures pcs[n := from][n := to] == pcs[n := to]
  {
  }

  /** Left unanswered it returns the timeout, and if its publish fails that error; no slot stays behind. */
  lemma FailureIsReturned(events: seq<Event>, g: nat, error: AmqpError)
    requires After(events).issued < WRAP && g in After(events).started
    ensures var s := After(events);
            var t := Step(Step(InFlight(s, g), Elapse(s.issued)), Cleanup(s.issued));
            t.pcs == s.pcs[s.issued := Returned(Err(RequestTimeout))] && t.pending == s.pending
    ensures var s := After(events);
            var registered := Step(Step(s, Number), Register(s.issued));
            var t := Step(Step(registered, PublishFails(s.issued, error)), Cleanup(s.issued));
            t.pcs == s.pcs[s.issued := Returned(Err(error))] && t.pending == s.pending
  {
    hide Cid, Inv, InFlight, Step;
    NoSlotAfter(events);
    var s := After(events);
    var n := s.issued;
    GoesOut(s, g);
    SlotBack(s.pending, Cid(n), n);
    TimesOut(InFlight(s, g), n);
    FailsToPublish(Step(Step(s, Number), Register(n)), n, error);
    Overwritten(s.pcs, n, Waiting(g), Returned(Err(RequestTimeout)));
    Overwritten(s.pcs, n, Registered, Returned(Err(error)));
  }

  /** Responders echo the correlation id of the request they answer, one of those handed out. */
  predicate Echoes(reply: Reply, ids: nat) {
    reply.answers < ids && reply.correlation == Some(Cid(reply.answers))
  }

  predicate Honest(events: seq<Event>) {
    forall i | 0 <= i < |events| && events[i].Take? :: Echoes(events[i].reply, After(events).issued)
  }

  predicate Misdelivered(s: State, n: nat) {
    n in s.pcs && s.pcs[n].Returned? && s.pcs[n].result.Ok? && s.pcs[n].result.value.answers != n
  }

  ghost predicate Genuine(s: State, ids: nat) {
    && (forall g | g in s.dispatchers && s.dispatchers[g].Some? :: Echoes(s.dispatchers[g].value.reply, ids))
    && (forall n | n in s.inbox :: Echoes(s.inbox[n], ids))
    && (forall n | n in s.pcs && s.pcs[n].Returned? && s.pcs[n].result.Ok? :: Echoes(s.pcs[n].result.value, ids))
  }

  lemma GenuineStep(s: State, e: Event, ids: nat)
    requires Genuine(s, ids) && (e.Take? ==> Echoes(e.reply, ids))
    ensures Genuine(Step(s, e), ids)
  {
    hide Cid, Echoes;
  }

  lemma {:induction false} GenuineRun(s: State, events: seq<Event>, ids: nat)
    requires Genuine(s, ids) && forall i | 0 <= i < |events| && events[i].Take? :: Echoes(events[i].reply, ids)
    ensures Genuine(RunFrom(s, events), ids)
    decreases events
  {
    if events != [] {
      hide Genuine, Echoes;
      GenuineStep(s, events[0], ids);
      GenuineRun(Step(s, events[0]), events[1..], ids);
    }
  }

  /** Up to 2^64 ids a returned reply answers the very request that returns it. */
  lemma ReplyAnswersItsRequest(events: seq<Event>, n: nat)
    requires After(events).issued <= WRAP && Honest(events)
    ensures !Misdelivered(After(events), n)
  {
    var s := After(events);
    RunAnswers(INIT, events);
    GenuineRun(INIT, events, s.issued);
    hide Cid;
    if Misdelivered(s, n) {
      assert Echoes(s.pcs[n].result.value, s.issued);
      CidsDiffer(s.pcs[n].result.value.answers, n);
    }
  }

  /** The table holds exactly the requests that registered and have neither been answered nor cleaned
      up - a cancelled one among them until its reply comes - and so none that returned. */
  lemma TableIsTheUnanswered(events: seq<Event>, cid: string)
    requires After(events).issued <= WRAP
    ensures cid in After(events).pending <==>
            exists n :: n in After(events).pcs && cid == Cid(n) && HasSlot(After(events).pcs[n]) &&
                n !in After(events).taken
    ensures cid in After(events).pending ==> cid == Cid(After(events).pending[cid])
  {
    RunKeeps(INIT, events);
    var s := After(events);
    if cid in s.pending {
      assert RequestOk(s, s.pending[cid]);
    }
  }

  lemma ReturnedHasNoSlot(events: seq<Event>, n: nat)
    requires After(events).issued <= WRAP && n in After(events).pcs && After(events).pcs[n].Returned?
    ensures Cid(n) !in After(events).pending
  {
    RunKeeps(INIT, events);
    assert RequestOk(After(events), n);
  }

  /** The branch for a reply consumer that stopped is never taken: a sender is used by a dispatcher or
      dropped by its own request's cleanup, never while the request waits. */
  lemma NeverStopped(events: seq<Event>, n: nat)
    requires After(events).issued <= WRAP
    ensures !Enabled(After(events), Stop(n))
  {
    RunKeeps(INIT, events);
    assert n in After(events).pcs ==> RequestOk(After(events), n);
  }

  /** What is left to a request whose reply consumer died under it. */
  predicate OnlyTimeout(pc: Pc) {
    pc.Waiting? || pc == Failing(RequestTimeout) || pc == Returned(Err(RequestTimeout)) || pc == Cancelled
  }

  /** The server brings replies to a request to the consumer it asked under: no other dispatcher is
      handed one. */
  predicate Routed(events: seq<Event>, n: nat, g: nat) {
    forall i | 0 <= i < |events| :: events[i].Take? && Answers(events[i].reply, n) ==> events[i].g == g
  }

  ghost predicate HeldOnlyBy(s: State, n: nat, g: nat) {
    forall h | HoldsFor(s, h, n) :: h == g
  }

  lemma HeldOnlyStep(s: State, e: Event, n: nat, g: nat)
    requires Slots(s) && HeldOnlyBy(s, n, g) && Routed([e], n, g)
    ensures HeldOnlyBy(Step(s, e), n, g)
  {
    hide Cid, RequestOk;
    assert [e][0] == e;
    var t := Step(s, e);
    forall h | HoldsFor(t, h, n) ensures h == g {
      if !HoldsFor(s, h, n) {
        assert e.Take? && Answers(e.reply, n);
      }
    }
  }

  lemma {:induction false} HeldOnly(s: State, events: seq<Event>, n: nat, g: nat)
    requires Inv(s) && RunFrom(s, events).issued <= WRAP && HeldOnlyBy(s, n, g) && Routed(events, n, g)
    ensures HeldOnlyBy(RunFrom(s, events), n, g)
    decreases events
  {
    if events != [] {
      hide Inv, HeldOnlyBy;
      IdsOnlyGrow(Step(s, events[0]), events[1..]);
      HeldOnlyStep(s, events[0], n, g) by {
        assert Slots(s);
      }
      StepKeeps(s, events[0]);
      HeldOnly(Step(s, events[0]), events[1..], n, g);
    }
  }

  /** The request has no reply, and the dispatcher that might bring one is gone. */
  ghost predicate Stranded(s: State, n: nat, g: nat) {
    && n in s.pcs && OnlyTimeout(s.pcs[n]) && n !in s.inbox
    && g in s.started && g !in s.dispatchers
    && forall h :: !HoldsFor(s, h, n)
  }

  lemma StrandedStep(s: State, e: Event, n: nat, g: nat)
    requires RequestOk(s, n) && Slots(s) && Stranded(s, n, g) && n < s.issued && Routed([e], n, g)
    ensures Stranded(Step(s, e), n, g)
  {
    hide Cid;
    assert [e][0] == e;
    assert n !in s.dropped || s.pcs[n].Returned?;
    hide RequestOk;
    var t := Step(s, e);
    forall h ensures !HoldsFor(t, h, n) {
      assert !HoldsFor(s, h, n);
    }
    if e.Send? && Enabled(s, e) {
      assert HoldsFor(s, e.g, s.dispatchers[e.g].value.request);
    }
  }

  lemma {:induction false} StrandedFrom(s: State, more: seq<Event>, n: nat, g: nat)
    requires Inv(s) && RunFrom(s, more).issued <= WRAP && Stranded(s, n, g) && Routed(more, n, g)
    ensures Stranded(RunFrom(s, more), n, g)
    decreases more
  {
    if more != [] {
      hide Cid, Stranded, Step, RequestOk, Dispatching, Slots;
      IdsOnlyGrow(Step(s, more[0]), more[1..]);
      StepKeeps(s, more[0]);
      Present(s, n, g);
      StrandedStep(s, more[0], n, g);
      StrandedFrom(Step(s, more[0]), more[1..], n, g);
    }
  }

  lemma Present(s: State, n: nat, g: nat)
    requires Inv(s) && Stranded(s, n, g)
    ensures RequestOk(s, n) && Slots(s) && n < s.issued
  {
    hide RequestOk, Dispatching;
  }

  /** Every waiter of a dispatcher that died ends by its timeout or by being cancelled, and no other way,
      whatever other dispatchers are running or are started later. */
  lemma StrandedTimesOut(events: seq<Event>, more: seq<Event>, n: nat, g: nat)
    requires RunFrom(After(events), more).issued <= WRAP
    requires At(After(events), n, Waiting(g)) && g !in After(events).dispatchers && n !in After(events).inbox
    requires Routed(events, n, g) && Routed(more, n, g)
    ensures n in RunFrom(After(events), more).pcs && OnlyTimeout(RunFrom(After(events), more).pcs[n])
  {
    IdsOnlyGrow(After(events), more);
    RunKeeps(INIT, events);
    HeldOnly(INIT, events, n, g);
    assert RequestOk(After(events), n);
    StrandedFrom(After(events), more, n, g);
  }

  // Past the wrap.

  lemma {:induction false} RunOn(s: State, first: seq<Event>, rest: seq<Event>)
    ensures RunFrom(s, first + rest) == RunFrom(RunFrom(s, first), rest)
    decreases first
  {
    if first == [] {
      assert first + rest == rest;
    } else {
      RunOn(Step(s, first[0]), first[1..], rest);
      assert (first + rest)[1..] == first[1..] + rest;
    }
  }

  function Numbers(k: nat): seq<Event> {
    seq(k, i => Number)
  }

  lemma {:induction false} AfterNumbers(s: State, k: nat)
    ensures RunFrom(s, Numbers(k)).issued == s.issued + k
    ensures RunFrom(s, Numbers(k)).pending == s.pending && RunFrom(s, Numbers(k)).inbox == s.inbox
    ensures RunFrom(s, Numbers(k)).dropped == s.dropped && RunFrom(s, Numbers(k)).started == s.started
    ensures RunFrom(s, Numbers(k)).dispatchers == s.dispatchers
    ensures forall n | n in s.pcs && n < s.issued :: At(RunFrom(s, Numbers(k)), n, s.pcs[n])
    ensures k > 0 ==> At(RunFrom(s, Numbers(k)), s.issued + k - 1, Numbered)
    decreases k
  {
    if k > 0 {
      assert Numbers(k)[1..] == Numbers(k - 1);
      var t := Step(s, Number);
      AfterNumbers(t, k - 1);
      assert At(t, s.issued, Numbered);
      forall n | n in s.pcs && n < s.issued ensures At(RunFrom(s, Numbers(k)), n, s.pcs[n]) {
        assert n in t.pcs;
      }
    }
  }

  predicate TakesNothing(events: seq<Event>) {
    forall i | 0 <= i < |events| :: !events[i].Take?
  }

  /** A newcomer has the slot of the first request, which still waits, and is about to publish. */
  ghost predicate Usurped(s: State) {
    && s.issued == WRAP + 1 && Waits(s, 0) && At(s, WRAP, Registered)
    && s.pending == map[Cid(0) := WRAP] && 0 in s.dropped && s.inbox == map[]
    && s.dispatchers == map[7 := None] && 7 in s.started
  }

  /** The first request waits, and 2^64 ids are handed out after it. */
  lemma AllNumbered() returns (events: seq<Event>)
    ensures AtTheWrap(After(events)) && TakesNothing(events)
  {
    hide Cid, Apply, Enabled;
    var first, numbers := [Start(7), Number, Register(0), Event.Publish(0, 7)], Numbers(WRAP);
    var s := RunFrom(INIT, first);
    RunOfFour(first);
    AfterNumbers(s, WRAP);
    RunOn(INIT, first, numbers);
    var t := RunFrom(s, numbers);
    assert At(s, 0, Waiting(7)) && At(t, 0, s.pcs[0]) && At(t, s.issued + WRAP - 1, Numbered);
    events := first + numbers;
  }

  ghost predicate AtTheWrap(t: State) {
    && t.issued == WRAP + 1 && Waits(t, 0) && At(t, WRAP, Numbered)
    && t.pending == map[Cid(0) := 0] && t.inbox == map[] && t.dispatchers == map[7 := None] && 7 in t.started
  }

  /** With 2^64 ids handed out after it, a request still waiting loses its sender to a newcomer. */
  lemma WrapOverwrites() returns (events: seq<Event>)
    ensures Usurped(After(events)) && TakesNothing(events)
  {
    var before := AllNumbered();
    RunOn(INIT, before, [Register(WRAP)]);
    RunOfOne(After(before), Register(WRAP));
    Overwrites(After(before));
    events := before + [Register(WRAP)];
  }

  lemma Overwrites(t: State)
    requires AtTheWrap(t)
    ensures Usurped(Step(t, Register(WRAP)))
  {
    assert Cid(WRAP) == Cid(0);
    hide Cid;
    assert Step(t, Register(WRAP)).pending == map[Cid(0) := WRAP];
  }

  /** For any count past 2^64 there is a run of that many ids in which a request is told its reply
      consumer stopped. */
  lemma WrapStrands(k: nat)
    requires k > WRAP
    ensures exists events :: After(events).issued == k && Enabled(After(events), Stop(0))
  {
    var events := WrapOverwrites();
    var s := After(events);
    RunOn(INIT, events, Numbers(k - WRAP - 1));
    AfterNumbers(s, k - WRAP - 1);
    assert At(After(events + Numbers(k - WRAP - 1)), 0, s.pcs[0]);
  }

  /** The bound is exact: a run in which `k` ids were handed out may take the branch for a stopped reply
      consumer if and only if `k` is past 2^64. */
  lemma StopsOnlyPastTheWrap(k: nat)
    ensures (exists events, n: nat :: After(events).issued == k && Enabled(After(events), Stop(n))) <==> k > WRAP
  {
    if k > WRAP {
      WrapStrands(k);
    }
    forall events, n: nat | After(events).issued == k && Enabled(After(events), Stop(n)) ensures k > WRAP {
      if k <= WRAP {
        NeverStopped(events, n);
      }
    }
  }

  const LATE: Reply := Reply(Some(Cid(0)), 0)

  /** The newcomer publishes, and the reply to the first request, coming late, is what it returns. */
  lemma LateReplyGoesAstray(s: State)
    requires Usurped(s)
    ensures var astray := [Event.Publish(WRAP, 7), Take(7, LATE), Send(7), Receive(WRAP)];
            RunFrom(s, astray).issued == s.issued && At(RunFrom(s, astray), WRAP, Returned(Ok(LATE)))
  {
    hide Cid;
    var astray := [Event.Publish(WRAP, 7), Take(7, LATE), Send(7), Receive(WRAP)];
    var a := Step(s, Event.Publish(WRAP, 7));
    var b := Step(a, Take(7, LATE));
    assert b.dispatchers[7] == Some(Holding(WRAP, LATE));
    var c := Step(b, Send(7));
    assert Waits(b, WRAP) && c.inbox[WRAP] == LATE;
    assert astray[1..] == [Take(7, LATE), Send(7), Receive(WRAP)];
    assert astray[1..][1..] == [Send(7), Receive(WRAP)];
    assert astray[1..][1..][1..] == [Receive(WRAP)];
    assert RunFrom(s, astray) == RunFrom(a, astray[1..]);
    assert RunFrom(a, astray[1..]) == RunFrom(b, astray[1..][1..]);
    assert RunFrom(b, astray[1..][1..]) == RunFrom(c, [Receive(WRAP)]);
    RunOfOne(c, Receive(WRAP));
  }

  lemma WrapMisdelivers(k: nat)
    requires k > WRAP
    ensures exists events :: After(events).issued == k && Honest(events) && Misdelivered(After(events), WRAP)
  {
    var base := WrapOverwrites();
    var astray := [Event.Publish(WRAP, 7), Take(7, LATE), Send(7), Receive(WRAP)];
    var s := After(base);
    LateReplyGoesAstray(s);
    RunOn(INIT, base, astray);
    var t := RunFrom(s, astray);
    var numbers := Numbers(k - WRAP - 1);
    RunOn(INIT, base + astray, numbers);
    AfterNumbers(t, k - WRAP - 1);
    var events := base + astray + numbers;
    assert At(After(events), WRAP, t.pcs[WRAP]);
    hide Cid, After;
    assert forall i | 0 <= i < |base| :: events[i] == base[i];
    assert forall i | 0 <= i < |numbers| :: events[|base| + 4 + i] == numbers[i];
    assert forall i | 0 <= i < |events| && events[i].Take? :: events[i].reply == LATE;
    assert Honest(events);
  }

  /** Here too the bound is exact: with responders that echo the id of the request they answer, a run in
      which `k` ids were handed out may return a request the reply to another if and only if `k` is past
      2^64. */
  lemma MisdeliversOnlyPastTheWrap(k: nat)
    ensures (exists events, n: nat ::
               After(events).issued == k && Honest(events) && Misdelivered(After(events), n)) <==> k > WRAP
  {
    if k > WRAP {
      WrapMisdelivers(k);
    }
    forall events, n: nat | After(events).issued == k && Honest(events) && Misdelivered(After(events), n)
      ensures k > WRAP
    {
      if k <= WRAP {
        ReplyAnswersItsRequest(events, n);
      }
    }
  }

  lemma RunOfOne(s: State, e: Event)
    ensures RunFrom(s, [e]) == Step(s, e)
  {
    assert RunFrom(Step(s, e), []) == Step(s, e);
  }

  lemma RunOfFour(first: seq<Event>)
    requires first == [Start(7), Number, Register(0), Event.Publish(0, 7)]
    ensures RunFrom(INIT, first) ==
            State(1, map[0 := Waiting(7)], map[Cid(0) := 0], map[7 := None], {7}, {}, multiset{}, map[], {})
  {
    hide Cid;
    assert first[1..] == [Number, Register(0), Event.Publish(0, 7)];
    assert first[1..][1..] == [Register(0), Event.Publish(0, 7)];
    assert first[1..][1..][1..] == [Event.Publish(0, 7)];
    var z := Step(INIT, Start(7));
    assert z.dispatchers == map[7 := None] && z.started == {7};
    var a := Step(z, Number);
    assert a.pcs == map[0 := Numbered];
    var b := Step(a, Register(0));
    assert b.pcs == map[0 := Registered] && b.pending == map[Cid(0) := 0];
    assert RunFrom(INIT, first) == RunFrom(z, first[1..]);
    assert RunFrom(z, first[1..]) == RunFrom(a, first[1..][1..]);
    assert RunFrom(a, first[1..][1..]) == RunFrom(b, [Event.Publish(0, 7)]);
    RunOfOne(b, Event.Publish(0, 7));
    assert Step(b, Event.Publish(0, 7)).pcs == map[0 := Waiting(7)];
  }
}
