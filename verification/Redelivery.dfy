/** Delayed redelivery against a server, over any number of subscription channels that may fail at
    any moment. The client's frames queue on the delivery's channel in the order it sent them; the
    server takes them one at a time, and a failing channel loses the rest and gives its
    unacknowledged deliveries back to the queue. */
module Redelivery {
  datatype Place = Ready | Waiting | Unacked(chan: nat)

  /** A copy of a message on the server. */
  datatype Copy = Copy(msg: nat, place: Place)

  datatype Frame =
    | CopyOf(delivery: nat)
    | AckOf(delivery: nat, delayed: bool)
    | RejectOf(delivery: nat, requeue: bool)

  /** A delivery in its handler's hands: what it has sent so far, and whether it is done with. */
  datatype Handle = Handle(msg: nat, chan: nat, copySent: bool, done: bool)

  /** Copies, deliveries and channels draw their ids from one counter. A delivery is the id its copy
      has while it is unacknowledged. */
  datatype State = State(
    next: nat,
    copies: map<nat, Copy>,
    wires: map<nat, seq<Frame>>,
    handles: map<nat, Handle>,
    messages: set<nat>,
    settled: set<nat>,
    copied: set<nat>,
    acked: set<nat>)

  const INIT: State := State(0, map[], map[], map[], {}, {}, {}, {})

  datatype Event =
    | Arrive(msg: nat)
    | Open
    | Deliver(id: nat, chan: nat)
    | SendCopy(delivery: nat, chan: nat)
    | SendAck(delivery: nat)
    | Settle(delivery: nat, frame: Frame)
    | Abandon(delivery: nat)
    | Take(chan: nat)
    | Fail(chan: nat)
    | Release(id: nat)

  /** The handler still has the delivery, with its copy sent or not. */
  predicate Holds(s: State, d: nat, copySent: bool) {
    d in s.handles && !s.handles[d].done && s.handles[d].copySent == copySent
  }

  predicate Enabled(s: State, e: Event) {
    match e
    case Arrive(msg) => msg !in s.messages
    case Open => true
    case Deliver(id, chan) => id in s.copies && s.copies[id].place == Ready && chan in s.wires
    // A copy leaves on the delivery's own channel; once that one is gone, on whichever took its place.
    case SendCopy(d, chan) =>
      Holds(s, d, false) && chan in s.wires && (s.handles[d].chan in s.wires ==> chan == s.handles[d].chan)
    case SendAck(d) => Holds(s, d, true) && s.handles[d].chan in s.wires
    case Settle(d, frame) =>
      && Holds(s, d, false) && s.handles[d].chan in s.wires
      && (frame == AckOf(d, false) || frame == RejectOf(d, true) || frame == RejectOf(d, false))
    case Abandon(d) => d in s.handles
    case Take(chan) => chan in s.wires && s.wires[chan] != []
    case Fail(chan) => chan in s.wires
    case Release(id) => id in s.copies && s.copies[id].place == Waiting
  }

  /** What the server does with a frame. */
  function Process(s: State, f: Frame): State {
    if f.delivery !in s.handles then s
    else
      var d := f.delivery;
      var m := s.handles[d].msg;
      match f
      case CopyOf(_) =>
        s.(next := s.next + 1, copies := s.copies[s.next := Copy(m, Waiting)], copied := s.copied + {d})
      case AckOf(_, delayed) =>
        s.(copies := s.copies - {d},
           settled := s.settled + (if delayed then {} else {m}),
           acked := s.acked + (if delayed then {d} else {}))
      case RejectOf(_, requeue) =>
        if requeue then s.(copies := s.copies[d := Copy(m, Ready)])
        else s.(copies := s.copies - {d}, settled := s.settled + {m})
  }

  function Append(s: State, chan: nat, f: Frame): map<nat, seq<Frame>>
    requires chan in s.wires
  {
    s.wires[chan := s.wires[chan] + [f]]
  }

  function Apply(s: State, e: Event): State
    requires Enabled(s, e)
  {
    match e
    case Arrive(msg) =>
      s.(next := s.next + 1, copies := s.copies[s.next := Copy(msg, Ready)], messages := s.messages + {msg})
    case Open => s.(next := s.next + 1, wires := s.wires[s.next := []])
    case Deliver(id, chan) =>
      var m := s.copies[id].msg;
      s.(next := s.next + 1,
         copies := (s.copies - {id})[s.next := Copy(m, Unacked(chan))],
         handles := s.handles[s.next := Handle(m, chan, false, false)])
    case SendCopy(d, chan) =>
      s.(wires := Append(s, chan, CopyOf(d)), handles := s.handles[d := s.handles[d].(copySent := true)])
    case SendAck(d) =>
      s.(wires := Append(s, s.handles[d].chan, AckOf(d, true)), handles := s.handles[d := s.handles[d].(done := true)])
    case Settle(d, frame) =>
      s.(wires := Append(s, s.handles[d].chan, frame), handles := s.handles[d := s.handles[d].(done := true)])
    case Abandon(d) => s.(handles := s.handles[d := s.handles[d].(done := true)])
    case Take(chan) =>
      Process(s.(wires := s.wires[chan := s.wires[chan][1..]]), s.wires[chan][0])
    case Fail(chan) =>
      s.(wires := s.wires - {chan},
         copies := map id | id in s.copies ::
           if s.copies[id].place == Unacked(chan) then Copy(s.copies[id].msg, Ready) else s.copies[id])
    case Release(id) => s.(copies := s.copies[id := Copy(s.copies[id].msg, Ready)])
  }

  // What every step keeps.

  /** The delivery is unacknowledged on the channel it came on, and that channel is alive. */
  predicate Unsettled(s: State, d: nat) {
    d in s.handles && d in s.copies && s.copies[d].place == Unacked(s.handles[d].chan) && s.handles[d].chan in s.wires
  }

  ghost predicate Ids(s: State) {
    && (forall id | id in s.copies :: id < s.next)
    && s.settled <= s.messages
    && (forall c | c in s.wires :: c < s.next)
    && (forall d | d in s.handles :: d < s.next && s.handles[d].chan < s.next && s.handles[d].msg in s.messages)
    && (forall i | i in s.copies :: s.copies[i].msg in s.messages)
    && (forall d | d in s.copied :: d in s.handles && s.handles[d].copySent)
  }

  ghost predicate Owners(s: State) {
    && (forall id | id in s.copies && id in s.handles :: s.copies[id].msg == s.handles[id].msg)
    && (forall id | id in s.copies && s.copies[id].place.Unacked? :: Unsettled(s, id))
    && (forall id | id in s.copies && s.copies[id].place == Waiting :: id !in s.handles)
    && (forall d | d in s.acked :: d !in s.copies)
    && (forall d | d in s.copied && d !in s.acked && d in s.handles && s.handles[d].chan in s.wires :: Unsettled(s, d))
  }

  ghost predicate Queued(w: seq<Frame>, f: Frame, end: nat)
    requires end <= |w|
  {
    exists j | 0 <= j < end :: w[j] == f
  }

  ghost predicate HandlerOk(s: State, d: nat)
    requires d in s.handles
  {
    var h := s.handles[d];
    !h.done && h.chan in s.wires ==>
      && Unsettled(s, d)
      && (h.copySent ==> d in s.copied || Queued(s.wires[h.chan], CopyOf(d), |s.wires[h.chan]|))
  }

  /** A handler that has not finished still has its delivery, as long as its channel lives. */
  ghost predicate Handlers(s: State) {
    forall d | d in s.handles :: HandlerOk(s, d)
  }

  /** The frame settles a delivery that is still to settle, and is the only one to. */
  ghost predicate Settling(s: State, c: nat, w: seq<Frame>, i: nat)
    requires i < |w| && w[i].delivery in s.handles
  {
    var d := w[i].delivery;
    && Unsettled(s, d)
    && s.handles[d].chan == c && s.handles[d].done
    && (forall j | 0 <= j < i :: w[j].CopyOf? || w[j].delivery != d)
  }

  ghost predicate FrameOk(s: State, c: nat, w: seq<Frame>, i: nat)
    requires i < |w|
  {
    var d := w[i].delivery;
    && d in s.handles
    && match w[i]
       case CopyOf(_) =>
         && s.handles[d].copySent && d !in s.acked
         && (s.handles[d].chan in s.wires ==>
               s.handles[d].chan == c && d !in s.copied && Unsettled(s, d) && !Queued(w, CopyOf(d), i))
       case AckOf(_, delayed) =>
         && Settling(s, c, w, i) && s.handles[d].copySent == delayed
         && (delayed ==> d in s.copied || Queued(w, CopyOf(d), i))
       case RejectOf(_, _) => Settling(s, c, w, i) && !s.handles[d].copySent
  }

  ghost predicate Frames(s: State) {
    forall c, i | c in s.wires && 0 <= i < |s.wires[c]| :: FrameOk(s, c, s.wires[c], i)
  }

  /** Not a delivery whose delayed copy the server already has, and which is about to go. */
  predicate Stays(s: State, id: nat) {
    id in s.copies && !(s.copies[id].place.Unacked? && id in s.copied)
  }

  ghost predicate HasCopy(s: State, m: nat) {
    exists id | id in s.copies :: s.copies[id].msg == m && Stays(s, id)
  }

  /** Every message not settled for good has a copy that stays. */
  ghost predicate NothingLost(s: State) {
    forall m | m in s.messages && m !in s.settled :: HasCopy(s, m)
  }

  /** The channel of a delivery failed with its delayed copy taken, now or before, and its
      acknowledgement not. */
  predicate CutShort(s: State, d: nat) {
    d in s.handles && s.handles[d].chan !in s.wires && d in s.copied && d !in s.acked
  }

  ghost predicate AtRisk(s: State, m: nat) {
    exists d :: CutShort(s, d) && s.handles[d].msg == m
  }

  predicate CopyStays(s: State, id: nat, m: nat) {
    Stays(s, id) && s.copies[id].msg == m
  }

  /** The message is there twice, or is there though it was settled for good. */
  ghost predicate Doubled(s: State, m: nat) {
    || (exists i, j :: CopyStays(s, i, m) && CopyStays(s, j, m) && i != j)
    || (m in s.settled && exists i :: CopyStays(s, i, m))
  }

  ghost predicate NothingDoubled(s: State) {
    forall m :: Doubled(s, m) ==> AtRisk(s, m)
  }

  /** The server has taken the delayed copy of every delivery whose delayed acknowledgement it took. */
  ghost predicate CopyBeforeAck(s: State) {
    s.acked <= s.copied
  }

  ghost predicate Inv(s: State) {
    && Ids(s) && Owners(s) && Handlers(s) && Frames(s)
    && NothingLost(s) && NothingDoubled(s) && CopyBeforeAck(s)
  }

  // Each predicate over each kind of step.

  lemma IdsKeptByTaking(s: State, c: nat)
    requires Inv(s) && Enabled(s, Take(c))
    ensures Ids(Apply(s, Take(c))) && CopyBeforeAck(Apply(s, Take(c)))
  {
    hide HasCopy, Stays, NothingLost, NothingDoubled, HandlerOk;
    assert FrameOk(s, c, s.wires[c], 0);
  }

  lemma IdsKept(s: State, e: Event)
    requires Inv(s) && Enabled(s, e)
    ensures Ids(Apply(s, e)) && CopyBeforeAck(Apply(s, e))
  {
    hide HasCopy, Stays, NothingLost, NothingDoubled, HandlerOk, FrameOk, Process;
    if e.Take? {
      IdsKeptByTaking(s, e.chan);
    }
  }

  lemma OwnersKeptByTaking(s: State, c: nat)
    requires Inv(s) && Enabled(s, Take(c))
    ensures Owners(Apply(s, Take(c)))
  {
    hide HasCopy, Stays, NothingLost, NothingDoubled, HandlerOk;
    assert FrameOk(s, c, s.wires[c], 0);
  }

  lemma OwnersKept(s: State, e: Event)
    requires Inv(s) && Enabled(s, e)
    ensures Owners(Apply(s, e))
  {
    hide HasCopy, Stays, NothingLost, NothingDoubled, HandlerOk, FrameOk, Process;
    if e.Take? {
      OwnersKeptByTaking(s, e.chan);
    }
  }

  lemma LostKept(s: State, e: Event)
    requires Inv(s) && Enabled(s, e)
    ensures NothingLost(Apply(s, e))
  {
    hide HandlerOk, NothingDoubled;
    var t := Apply(s, e);
    if e.Take? {
      assert FrameOk(s, e.chan, s.wires[e.chan], 0);
    }
    forall m | m in t.messages && m !in t.settled ensures HasCopy(t, m) {
      if m in s.messages {
        assert HasCopy(s, m);
        var id :| id in s.copies && s.copies[id].msg == m && Stays(s, id);
        if id in t.copies && Stays(t, id) {
          assert t.copies[id].msg == m;
        } else {
          assert s.next in t.copies && t.copies[s.next].msg == m && Stays(t, s.next);
        }
      } else {
        assert s.next in t.copies && t.copies[s.next].msg == m && Stays(t, s.next);
      }
    }
  }

  lemma RiskStays(s: State, e: Event, m: nat)
    requires Inv(s) && Enabled(s, e) && AtRisk(s, m)
    ensures AtRisk(Apply(s, e), m)
  {
    hide HandlerOk, NothingLost, NothingDoubled, HasCopy, Stays, Handlers;
    var d :| CutShort(s, d) && s.handles[d].msg == m;
    if e.Take? {
      assert FrameOk(s, e.chan, s.wires[e.chan], 0);
    }
    assert CutShort(Apply(s, e), d);
  }

  lemma StayedBefore(s: State, e: Event, i: nat, m: nat)
    requires Inv(s) && Enabled(s, e) && !AtRisk(Apply(s, e), m)
    requires CopyStays(Apply(s, e), i, m) && i != s.next
    ensures CopyStays(s, i, m)
  {
    hide HandlerOk, NothingLost, NothingDoubled, HasCopy, Handlers, Doubled;
    var t := Apply(s, e);
    if e.Take? {
      assert FrameOk(s, e.chan, s.wires[e.chan], 0);
    }
    assert e.Fail? && !Stays(s, i) ==> CutShort(t, i);
  }

  /** A copy that appears takes the place of one, unless it is the first of its message. */
  lemma AppearsFor(s: State, e: Event, m: nat) returns (was: nat)
    requires Inv(s) && Enabled(s, e) && !AtRisk(Apply(s, e), m) && CopyStays(Apply(s, e), s.next, m)
    ensures e.Arrive? || (CopyStays(s, was, m) && !Stays(Apply(s, e), was))
    ensures e.Arrive? ==> m !in s.messages
    ensures Apply(s, e).settled == s.settled
  {
    hide HandlerOk, NothingLost, NothingDoubled, HasCopy, Handlers, Doubled;
    var t := Apply(s, e);
    was := 0;
    if e.Take? {
      was := s.wires[e.chan][0].delivery;
      assert FrameOk(s, e.chan, s.wires[e.chan], 0);
      assert s.handles[was].chan !in s.wires ==> CutShort(t, was);
    } else if e.Deliver? {
      was := e.id;
    }
  }

  lemma SettlingTakesTheCopy(s: State, e: Event, m: nat, i: nat)
    requires Inv(s) && Enabled(s, e) && m in Apply(s, e).settled && m !in s.settled
    requires CopyStays(Apply(s, e), i, m)
    ensures e.Take? && s.wires[e.chan] != []
    ensures CopyStays(s, s.wires[e.chan][0].delivery, m) && CopyStays(s, i, m)
    ensures i != s.wires[e.chan][0].delivery
  {
    hide HandlerOk, NothingLost, NothingDoubled, HasCopy, Handlers, Doubled;
    assert FrameOk(s, e.chan, s.wires[e.chan], 0);
  }

  lemma OneStays(s: State, e: Event, m: nat, i: nat, j: nat)
    requires Inv(s) && Enabled(s, e) && !AtRisk(Apply(s, e), m) && !Doubled(s, m)
    requires CopyStays(Apply(s, e), i, m) && CopyStays(Apply(s, e), j, m)
    ensures i == j
  {
    hide Apply, Ids, Owners, Handlers, Frames, NothingLost, NothingDoubled, AtRisk;
    if i != s.next && j != s.next {
      StayedBefore(s, e, i, m);
      StayedBefore(s, e, j, m);
    } else if i != j {
      var k := if i == s.next then j else i;
      StayedBefore(s, e, k, m);
      var was := AppearsFor(s, e, m);
      if e.Arrive? {
        Known(s, k);
      }
    }
  }

  lemma Known(s: State, i: nat)
    requires Inv(s) && Stays(s, i)
    ensures s.copies[i].msg in s.messages
  {
    hide Owners, Handlers, Frames, NothingLost, NothingDoubled;
  }

  lemma SettledIsGone(s: State, e: Event, m: nat, i: nat)
    requires Inv(s) && Enabled(s, e) && !AtRisk(Apply(s, e), m) && !Doubled(s, m)
    requires CopyStays(Apply(s, e), i, m)
    ensures m !in Apply(s, e).settled
  {
    hide Apply, Owners, Handlers, Frames, NothingLost, NothingDoubled, AtRisk;
    if m in Apply(s, e).settled && m !in s.settled {
      SettlingTakesTheCopy(s, e, m, i);
    } else if i == s.next {
      var was := AppearsFor(s, e, m);
    } else {
      StayedBefore(s, e, i, m);
    }
  }

  lemma DoubledKept(s: State, e: Event)
    requires Inv(s) && Enabled(s, e)
    ensures NothingDoubled(Apply(s, e))
  {
    hide Apply, Ids, Owners, Handlers, Frames, NothingLost, AtRisk, CopyStays, Enabled;
    var t := Apply(s, e);
    forall m | Doubled(t, m) ensures AtRisk(t, m) {
      if !AtRisk(t, m) {
        NotDoubledYet(s, e, m);
        forall i, j | CopyStays(t, i, m) && CopyStays(t, j, m) ensures i == j {
          OneStays(s, e, m, i, j);
        }
        forall i | CopyStays(t, i, m) ensures m !in t.settled {
          SettledIsGone(s, e, m, i);
        }
        assert false;
      }
    }
  }

  lemma NotDoubledYet(s: State, e: Event, m: nat)
    requires Inv(s) && Enabled(s, e) && !AtRisk(Apply(s, e), m)
    ensures !Doubled(s, m)
  {
    hide Apply, Ids, Owners, Handlers, Frames, NothingLost, AtRisk, Doubled;
    if Doubled(s, m) {
      RiskStays(s, e, m);
    }
  }

  ghost predicate Alike(s: State, t: State, d: nat) {
    && d in s.handles && d in t.handles
    && t.handles[d].chan == s.handles[d].chan && t.handles[d].copySent == s.handles[d].copySent
    && (s.handles[d].done ==> t.handles[d].done)
    && (d in t.copied <==> d in s.copied) && (d in t.acked <==> d in s.acked)
    && (t.handles[d].chan in t.wires ==> s.handles[d].chan in s.wires)
  }

  /** A frame stays good where nothing about its delivery changes. */
  lemma FrameKept(s: State, t: State, c: nat, w: seq<Frame>, i: nat)
    requires i < |w| && FrameOk(s, c, w, i) && c in t.wires
    requires Alike(s, t, w[i].delivery)
    requires t.handles[w[i].delivery].chan == c ==> Unsettled(s, w[i].delivery) ==> Unsettled(t, w[i].delivery)
    ensures FrameOk(t, c, w, i)
  {
  }

  /** Frames before it are all a frame depends on. */
  lemma FrameOfPrefix(s: State, c: nat, w: seq<Frame>, v: seq<Frame>, i: nat)
    requires i < |w| && w <= v && FrameOk(s, c, w, i)
    ensures FrameOk(s, c, v, i)
  {
    assert forall j | 0 <= j <= i :: v[j] == w[j];
  }

  lemma SentFrameOk(s: State, e: Event)
    requires Inv(s) && Enabled(s, e) && (e.SendCopy? || e.SendAck? || e.Settle?)
    ensures var c := if e.SendCopy? then e.chan else s.handles[e.delivery].chan;
            FrameOk(Apply(s, e), c, Apply(s, e).wires[c], |s.wires[c]|)
  {
    hide NothingLost, NothingDoubled, HasCopy, Stays;
    var c := if e.SendCopy? then e.chan else s.handles[e.delivery].chan;
    var w := s.wires[c];
    var v := Apply(s, e).wires[c];
    assert HandlerOk(s, e.delivery);
    forall j | 0 <= j < |w| ensures v[j] == w[j] && FrameOk(s, c, w, j) {
    }
    if e.SendAck? && !(e.delivery in s.copied) {
      var j :| 0 <= j < |w| && w[j] == CopyOf(e.delivery);
      assert v[j] == CopyOf(e.delivery);
    }
  }

  lemma FramesKeptBySending(s: State, e: Event)
    requires Inv(s) && Enabled(s, e) && (e.SendCopy? || e.SendAck? || e.Settle?)
    ensures Frames(Apply(s, e))
  {
    hide NothingLost, NothingDoubled, HasCopy, Stays, Owners;
    var t := Apply(s, e);
    forall c, i | c in t.wires && 0 <= i < |t.wires[c]| ensures FrameOk(t, c, t.wires[c], i) {
      if i < |s.wires[c]| {
        assert FrameOk(s, c, s.wires[c], i);
        FrameOfPrefix(s, c, s.wires[c], t.wires[c], i);
        FrameKept(s, t, c, t.wires[c], i);
      } else {
        SentFrameOk(s, e);
      }
    }
  }

  /** A frame sent for another delivery, or on another channel, is out of reach of the one taken. */
  lemma TakenApart(s: State, c: nat, k: nat, i: nat)
    requires Inv(s) && c in s.wires && s.wires[c] != [] && k in s.wires && i < |s.wires[k]| && (k == c ==> i > 0)
    ensures FrameOk(s, k, s.wires[k], i) && FrameOk(s, c, s.wires[c], 0)
    ensures var f, g := s.wires[c][0], s.wires[k][i];
            g.delivery == f.delivery && s.handles[g.delivery].chan in s.wires ==>
                k == c && f.CopyOf? && g == AckOf(f.delivery, true)
  {
    hide NothingLost, NothingDoubled, HasCopy, Stays, Handlers;
  }

  lemma TakingIsAlike(s: State, c: nat, d: nat)
    requires Inv(s) && Enabled(s, Take(c)) && d in s.handles && s.wires[c][0].delivery != d
    ensures Alike(s, Apply(s, Take(c)), d)
    ensures Unsettled(s, d) ==> Unsettled(Apply(s, Take(c)), d)
  {
    hide NothingLost, NothingDoubled, HasCopy, Stays, Handlers, Frames, Owners;
  }

  /** Without a frame of another delivery before it a frame is as good. */
  lemma FrameOfTail(s: State, c: nat, w: seq<Frame>, i: nat)
    requires i + 1 < |w| && FrameOk(s, c, w, i + 1) && w[0].delivery != w[i + 1].delivery
    ensures FrameOk(s, c, w[1..], i)
  {
    var v := w[1..];
    assert forall j | 0 <= j <= i :: v[j] == w[j + 1];
    var copy := CopyOf(w[i + 1].delivery);
    if Queued(w, copy, i + 1) {
      var j :| 0 <= j < i + 1 && w[j] == copy;
      assert v[j - 1] == copy;
    }
  }

  lemma OtherFrameKept(s: State, c: nat, k: nat, i: nat)
    requires Inv(s) && Enabled(s, Take(c)) && k in s.wires && i < |Apply(s, Take(c)).wires[k]|
    requires Apply(s, Take(c)).wires[k][i].delivery != s.wires[c][0].delivery
    ensures FrameOk(Apply(s, Take(c)), k, Apply(s, Take(c)).wires[k], i)
  {
    TakenApart(s, c, k, if k == c then i + 1 else i);
    var v := Apply(s, Take(c)).wires[k];
    assert v == if k == c then s.wires[c][1..] else s.wires[k];
    TakingIsAlike(s, c, v[i].delivery);
    hide Inv, Alike, FrameOk, Apply, Unsettled;
    if k == c {
      FrameOfTail(s, c, s.wires[c], i);
    }
    FrameKept(s, Apply(s, Take(c)), k, v, i);
  }

  /** A frame for the delivery of the one taken: its acknowledgement after its copy, or a second copy
      that outlived the channel. */
  lemma SameDeliveryKept(s: State, c: nat, k: nat, i: nat)
    requires Inv(s) && Enabled(s, Take(c)) && k in s.wires && i < |Apply(s, Take(c)).wires[k]|
    requires Apply(s, Take(c)).wires[k][i].delivery == s.wires[c][0].delivery
    ensures FrameOk(Apply(s, Take(c)), k, Apply(s, Take(c)).wires[k], i)
  {
    hide NothingLost, NothingDoubled, HasCopy, Stays, Handlers, Queued;
    TakenApart(s, c, k, if k == c then i + 1 else i);
    hide Frames, Ids, Owners;
    var w, v := s.wires[k], Apply(s, Take(c)).wires[k];
    if k == c {
      assert forall j | 0 <= j <= i :: v[j] == w[j + 1];
    }
  }

  lemma FrameKeptByTaking(s: State, c: nat, k: nat, i: nat)
    requires Inv(s) && Enabled(s, Take(c)) && k in s.wires
    requires i < |Apply(s, Take(c)).wires[k]|
    ensures FrameOk(Apply(s, Take(c)), k, Apply(s, Take(c)).wires[k], i)
  {
    hide Inv, FrameOk;
    if Apply(s, Take(c)).wires[k][i].delivery == s.wires[c][0].delivery {
      SameDeliveryKept(s, c, k, i);
    } else {
      OtherFrameKept(s, c, k, i);
    }
  }

  lemma FramesKept(s: State, e: Event)
    requires Inv(s) && Enabled(s, e)
    ensures Frames(Apply(s, e))
  {
    hide NothingLost, NothingDoubled, HasCopy, Stays, Handlers;
    var t := Apply(s, e);
    if e.SendCopy? || e.SendAck? || e.Settle? {
      FramesKeptBySending(s, e);
    } else {
      forall c, i | c in t.wires && 0 <= i < |t.wires[c]| ensures FrameOk(t, c, t.wires[c], i) {
        if e.Take? {
          FrameKeptByTaking(s, e.chan, c, i);
        } else {
          assert FrameOk(s, c, s.wires[c], i);
          FrameKept(s, t, c, t.wires[c], i);
        }
      }
    }
  }

  lemma HandlerKeptByTaking(s: State, c: nat, d: nat)
    requires Inv(s) && Enabled(s, Take(c)) && d in s.handles
    ensures HandlerOk(Apply(s, Take(c)), d)
  {
    hide NothingLost, NothingDoubled, HasCopy, Stays;
    var t := Apply(s, Take(c));
    var h, f := s.handles[d], s.wires[c][0];
    assert HandlerOk(s, d) && FrameOk(s, c, s.wires[c], 0);
    if !h.done && h.chan in s.wires && h.copySent && d !in t.copied {
      var w, v := s.wires[h.chan], t.wires[h.chan];
      var j :| 0 <= j < |w| && w[j] == CopyOf(d);
      var at := if h.chan == c then j - 1 else j;
      assert v[at] == CopyOf(d);
    }
  }

  lemma HandlerKeptBySending(s: State, e: Event, d: nat)
    requires Inv(s) && Enabled(s, e) && (e.SendCopy? || e.SendAck? || e.Settle?) && d in s.handles
    ensures HandlerOk(Apply(s, e), d)
  {
    hide NothingLost, NothingDoubled, HasCopy, Stays, Frames;
    var t := Apply(s, e);
    var h := s.handles[d];
    assert HandlerOk(s, d);
    if !h.done && h.chan in s.wires && d !in t.copied {
      var w, v := s.wires[h.chan], t.wires[h.chan];
      if h.copySent {
        var j :| 0 <= j < |w| && w[j] == CopyOf(d);
        assert v[j] == CopyOf(d);
      } else if t.handles[d].copySent {
        assert v[|w|] == CopyOf(d);
      }
    }
  }

  lemma HandlersKept(s: State, e: Event)
    requires Inv(s) && Enabled(s, e)
    ensures Handlers(Apply(s, e))
  {
    hide NothingLost, NothingDoubled, HasCopy, Stays, Frames;
    var t := Apply(s, e);
    forall d | d in t.handles ensures HandlerOk(t, d) {
      if e.SendCopy? || e.SendAck? || e.Settle? {
        HandlerKeptBySending(s, e, d);
      } else if e.Take? {
        HandlerKeptByTaking(s, e.chan, d);
      } else if d in s.handles {
        assert HandlerOk(s, d);
      }
    }
  }

  lemma StepKeeps(s: State, e: Event)
    requires Inv(s) && Enabled(s, e)
    ensures Inv(Apply(s, e))
  {
    IdsKept(s, e);
    OwnersKept(s, e);
    HandlersKept(s, e);
    FramesKept(s, e);
    LostKept(s, e);
    DoubledKept(s, e);
  }

  // Every run.

  /** The state after `events`, whatever they are: one that cannot happen where it stands does not. */
  function After(events: seq<Event>): State {
    if events == [] then INIT
    else
      Step(After(events[..|events| - 1]), events[|events| - 1])
  }

  function Step(s: State, e: Event): State {
    if Enabled(s, e) then Apply(s, e) else s
  }

  lemma InitHolds()
    ensures Inv(INIT)
  {
  }

  lemma {:induction false} RunKeeps(events: seq<Event>)
    ensures Inv(After(events))
  {
    hide Inv, Apply, Enabled;
    if events == [] {
      InitHolds();
    } else {
      RunKeeps(events[..|events| - 1]);
      var before := After(events[..|events| - 1]);
      var last := events[|events| - 1];
      if Enabled(before, last) {
        StepKeeps(before, last);
      }
    }
  }

  /** Duplicate, not loss: whatever channels fail and whenever, a message that no handler has settled
      for good has a copy ready, waiting or unacknowledged, and once every channel is gone a copy
      ready or waiting. */
  lemma NeverLost(events: seq<Event>, m: nat)
    requires m in After(events).messages && m !in After(events).settled
    ensures exists id | id in After(events).copies :: After(events).copies[id].msg == m && Stays(After(events), id)
    ensures After(events).wires == map[] ==>
              exists id | id in After(events).copies ::
                After(events).copies[id].msg == m && !After(events).copies[id].place.Unacked?
  {
    RunKeeps(events);
    var s := After(events);
    assert HasCopy(s, m);
    var id :| id in s.copies && s.copies[id].msg == m && Stays(s, id);
    assert s.copies[id].place.Unacked? ==> Unsettled(s, id);
  }

  /** A server that took a delayed acknowledgement took the delayed copy before it. */
  lemma CopyComesFirst(events: seq<Event>)
    ensures After(events).acked <= After(events).copied
  {
    RunKeeps(events);
  }

  // Doubling, exactly.

  lemma FailDoubles(s: State, c: nat, m: nat)
    requires Inv(s) && Enabled(s, Fail(c)) && !AtRisk(s, m) && AtRisk(Apply(s, Fail(c)), m)
    ensures Doubled(Apply(s, Fail(c)), m)
  {
    hide Handlers, Frames, NothingDoubled;
    var t := Apply(s, Fail(c));
    var d :| CutShort(t, d) && t.handles[d].msg == m;
    assert !CutShort(s, d);
    assert Unsettled(s, d);
    assert CopyStays(t, d, m);
    if m !in s.settled {
      assert HasCopy(s, m);
      var j :| j in s.copies && s.copies[j].msg == m && Stays(s, j);
      assert CopyStays(t, j, m) && j != d;
    }
  }

  lemma TakeDoubles(s: State, c: nat, m: nat)
    requires Inv(s) && Enabled(s, Take(c)) && !AtRisk(s, m) && AtRisk(Apply(s, Take(c)), m)
    ensures Doubled(Apply(s, Take(c)), m)
  {
    hide Handlers, NothingDoubled;
    var t := Apply(s, Take(c));
    var d :| CutShort(t, d) && t.handles[d].msg == m;
    assert !CutShort(s, d);
    assert FrameOk(s, c, s.wires[c], 0);
    assert s.wires[c][0] == CopyOf(d);
    hide Frames, FrameOk;
    assert CopyStays(t, s.next, m);
    if m !in s.settled {
      assert HasCopy(s, m);
      var j :| j in s.copies && s.copies[j].msg == m && Stays(s, j);
      assert CopyStays(t, j, m) && j != s.next;
    }
  }

  lemma RiskDoubles(s: State, e: Event, m: nat)
    requires Inv(s) && Enabled(s, e) && !AtRisk(s, m) && AtRisk(Apply(s, e), m)
    ensures Doubled(Apply(s, e), m)
  {
    hide Doubled, NothingLost, NothingDoubled, Frames, Handlers, Owners;
    if e.Fail? {
      FailDoubles(s, e.chan, m);
    } else if e.Take? {
      TakeDoubles(s, e.chan, m);
    } else {
      OthersRiskNothing(s, e, m);
    }
  }

  lemma OthersRiskNothing(s: State, e: Event, m: nat)
    requires Inv(s) && Enabled(s, e) && !e.Fail? && !e.Take? && AtRisk(Apply(s, e), m)
    ensures AtRisk(s, m)
  {
    hide NothingLost, NothingDoubled, Frames, Handlers, Owners;
    var d :| CutShort(Apply(s, e), d) && Apply(s, e).handles[d].msg == m;
    assert CutShort(s, d);
  }

  lemma {:induction false} RiskComesDoubled(events: seq<Event>, m: nat) returns (n: nat)
    requires AtRisk(After(events), m)
    ensures n <= |events| && Doubled(After(events[..n]), m)
  {
    hide Inv, Apply, Enabled, AtRisk, Doubled;
    n := 0;
    if events == [] {
      NoRiskAtFirst(m);
    } else {
      var before, last := events[..|events| - 1], events[|events| - 1];
      if AtRisk(After(before), m) {
        n := RiskComesDoubled(before, m);
        assert before[..n] == events[..n];
      } else {
        RunKeeps(before);
        RiskDoubles(After(before), last, m);
        n := |events|;
        assert events[..n] == events;
      }
    }
  }

  lemma NoRiskAtFirst(m: nat)
    ensures !AtRisk(INIT, m)
  {
  }

  lemma {:induction false} RiskRemains(events: seq<Event>, n: nat, m: nat)
    requires n <= |events| && AtRisk(After(events[..n]), m)
    ensures AtRisk(After(events), m)
  {
    hide Inv, Apply, Enabled, AtRisk;
    if n == |events| {
      assert events[..n] == events;
    } else {
      var before, last := events[..|events| - 1], events[|events| - 1];
      assert before[..n] == events[..n];
      RiskRemains(before, n, m);
      RunKeeps(before);
      if Enabled(After(before), last) {
        RiskStays(After(before), last, m);
      }
    }
  }

  /** A message came to be there twice, or there though settled for good, exactly if the channel of one
      of its deliveries failed with the delayed copy taken, before or since, and the acknowledgement
      not: other failures, and failures of other channels, double nothing. */
  lemma DoubledExactlyWhenCutShort(events: seq<Event>, m: nat)
    ensures (exists n: nat :: n <= |events| && Doubled(After(events[..n]), m)) <==>
            exists d :: CutShort(After(events), d) && After(events).handles[d].msg == m
  {
    hide Doubled;
    if AtRisk(After(events), m) {
      var n := RiskComesDoubled(events, m);
    }
    if n: nat :| n <= |events| && Doubled(After(events[..n]), m) {
      RunKeeps(events[..n]);
      RiskRemains(events, n, m);
    }
  }

  /** Whatever the server is about to take off a channel settles, if it settles, a delivery still
      unacknowledged on that very channel: no delivery is settled twice. */
  lemma SettlesOnce(events: seq<Event>, chan: nat)
    requires Enabled(After(events), Take(chan)) && !After(events).wires[chan][0].CopyOf?
    ensures var s := After(events);
            var d := s.wires[chan][0].delivery;
            d in s.copies && s.copies[d].place == Unacked(chan)
  {
    RunKeeps(events);
    assert FrameOk(After(events), chan, After(events).wires[chan], 0);
  }

  // What an undisturbed delivery comes to.

  /** A ready copy, and a channel with nothing on its way. */
  predicate CanServe(s: State, id: nat, chan: nat) {
    id in s.copies && s.copies[id].place == Ready && chan in s.wires && s.wires[chan] == []
  }

  lemma Delivered(s: State, id: nat, chan: nat)
    requires Ids(s) && CanServe(s, id, chan)
    ensures var t := Step(s, Deliver(id, chan));
            && t.next == s.next + 1 && Holds(t, s.next, false)
            && t.handles[s.next].msg == s.copies[id].msg && t.handles[s.next].chan == chan
            && t.copies == (s.copies - {id})[s.next := Copy(s.copies[id].msg, Unacked(chan))]
            && t.wires == s.wires && t.settled == s.settled
  {
  }

  lemma KnownIds(events: seq<Event>)
    ensures Ids(After(events))
  {
    RunKeeps(events);
  }

  /** The delivery `d` of the message `m` is in its handler's hands, and `sent` is all its channel has
      on its way. */
  predicate InHand(s: State, d: nat, m: nat, chan: nat, sent: seq<Frame>) {
    && d in s.handles && s.handles[d].msg == m && s.handles[d].chan == chan
    && chan in s.wires && s.wires[chan] == sent
  }

  lemma Taken(s: State, d: nat, m: nat, chan: nat, frame: Frame, rest: seq<Frame>)
    requires InHand(s, d, m, chan, [frame] + rest) && frame.delivery == d
    ensures var t := Step(s, Take(chan));
            && InHand(t, d, m, chan, rest) && t.wires == s.wires[chan := rest]
            && (frame.CopyOf? ==> t.copies == s.copies[s.next := Copy(m, Waiting)] && t.settled == s.settled)
            && (frame.RejectOf? && frame.requeue ==>
                  t.copies == s.copies[d := Copy(m, Ready)] && t.settled == s.settled)
            && (frame.AckOf? || (frame.RejectOf? && !frame.requeue) ==> t.copies == s.copies - {d})
            && (frame.AckOf? && frame.delayed ==> t.settled == s.settled)
            && ((frame.AckOf? && !frame.delayed) || (frame.RejectOf? && !frame.requeue) ==>
                  t.settled == s.settled + {m})
  {
    assert ([frame] + rest)[1..] == rest;
  }

  lemma Answered(s: State, d: nat, m: nat, chan: nat, frame: Frame)
    requires InHand(s, d, m, chan, []) && Holds(s, d, false)
    requires frame == AckOf(d, false) || (frame.RejectOf? && frame.delivery == d)
    ensures var t := Step(s, Settle(d, frame));
            && InHand(t, d, m, chan, [frame]) && t.wires == s.wires[chan := [frame]]
            && t.copies == s.copies && t.settled == s.settled
  {
    assert [] + [frame] == [frame];
  }

  lemma RetrySent(s: State, d: nat, m: nat, chan: nat)
    requires InHand(s, d, m, chan, []) && Holds(s, d, false)
    ensures var t := Step(Step(s, SendCopy(d, chan)), SendAck(d));
            && InHand(t, d, m, chan, [CopyOf(d), AckOf(d, true)])
            && t.wires == s.wires[chan := [CopyOf(d), AckOf(d, true)]]
            && t.copies == s.copies && t.settled == s.settled && t.next == s.next
  {
    var a := Step(s, SendCopy(d, chan));
    assert a.wires[chan] == [CopyOf(d)];
    assert a.wires[chan] + [AckOf(d, true)] == [CopyOf(d), AckOf(d, true)];
  }

  /** A handler's answer reaches the server and is final: an acknowledged or rejected message is gone
      and settled, a requeued one is ready again under its delivery, and no other copy is touched. */
  lemma AnswerLands(events: seq<Event>, id: nat, chan: nat, frame: Frame)
    requires CanServe(After(events), id, chan)
    requires var d := After(events).next; frame == AckOf(d, false) || (frame.RejectOf? && frame.delivery == d)
    ensures var s := After(events);
            var t := Step(Step(Step(s, Deliver(id, chan)), Settle(s.next, frame)), Take(chan));
            && t.wires == s.wires
            && (frame.RejectOf? && frame.requeue ==>
                  && t.settled == s.settled
                  && t.copies == (s.copies - {id})[s.next := Copy(s.copies[id].msg, Ready)])
            && (frame.AckOf? || !frame.requeue ==>
                  && t.settled == s.settled + {s.copies[id].msg}
                  && t.copies == s.copies - {id})
  {
    KnownIds(events);
    var s := After(events);
    var d, m := s.next, s.copies[id].msg;
    Delivered(s, id, chan);
    assert d !in s.copies;
    hide Ids, Step, Apply, Enabled, Process;
    var a := Step(s, Deliver(id, chan));
    Answered(a, d, m, chan, frame);
    assert [frame] == [frame] + [];
    Taken(Step(a, Settle(d, frame)), d, m, chan, frame, []);
    assert (s.copies - {id})[d := Copy(m, Unacked(chan))] - {d} == s.copies - {id};
  }

  /** A delivery retried with a delay, up to the end of the delay. */
  function DelayedRound(s: State, id: nat, chan: nat): State {
    var sent := Step(Step(Step(s, Deliver(id, chan)), SendCopy(s.next, chan)), SendAck(s.next));
    Step(Step(Step(sent, Take(chan)), Take(chan)), Release(s.next + 1))
  }

  /** A delayed retry that nothing disturbs is one copy for one: once the server has the copy and the
      acknowledgement and the delay is over, the message is ready again and its old delivery gone. */
  lemma DelayedRoundCompletes(events: seq<Event>, id: nat, chan: nat)
    requires CanServe(After(events), id, chan)
    ensures var s := After(events);
            var t := DelayedRound(s, id, chan);
            && t.wires == s.wires && t.settled == s.settled
            && t.copies == (s.copies - {id})[s.next + 1 := Copy(s.copies[id].msg, Ready)]
  {
    hide DelayedRound;
    KnownIds(events);
    RoundCompletes(After(events), id, chan);
  }

  lemma RoundCompletes(s: State, id: nat, chan: nat)
    requires Ids(s) && CanServe(s, id, chan)
    ensures var t := DelayedRound(s, id, chan);
            && t.wires == s.wires && t.settled == s.settled
            && t.copies == (s.copies - {id})[s.next + 1 := Copy(s.copies[id].msg, Ready)]
  {
    var d, m := s.next, s.copies[id].msg;
    OneForOne(s.copies, id, d, m, chan);
    Delivered(s, id, chan);
    hide Ids, Step, Apply, Enabled, Process;
    RetryTaken(Step(s, Deliver(id, chan)), d, m, chan);
  }

  lemma RetryTaken(s: State, d: nat, m: nat, chan: nat)
    requires InHand(s, d, m, chan, []) && Holds(s, d, false) && s.next != d
    ensures var sent := Step(Step(s, SendCopy(d, chan)), SendAck(d));
            var t := Step(Step(Step(sent, Take(chan)), Take(chan)), Release(s.next));
            && t.wires == s.wires && t.settled == s.settled
            && t.copies == (s.copies[s.next := Copy(m, Waiting)] - {d})[s.next := Copy(m, Ready)]
  {
    hide Step, Apply, Enabled, Process;
    RetrySent(s, d, m, chan);
    var sent := Step(Step(s, SendCopy(d, chan)), SendAck(d));
    assert [CopyOf(d), AckOf(d, true)] == [CopyOf(d)] + [AckOf(d, true)];
    Taken(sent, d, m, chan, CopyOf(d), [AckOf(d, true)]);
    var b := Step(sent, Take(chan));
    assert [AckOf(d, true)] == [AckOf(d, true)] + [];
    Taken(b, d, m, chan, AckOf(d, true), []);
    Freed(Step(b, Take(chan)), s.next, m);
    assert s.wires[chan := []] == s.wires;
  }

  lemma OneForOne(copies: map<nat, Copy>, id: nat, d: nat, m: nat, chan: nat)
    requires id in copies && d !in copies && d + 1 !in copies
    ensures var left := copies - {id};
            (left[d := Copy(m, Unacked(chan))][d + 1 := Copy(m, Waiting)] - {d})[d + 1 := Copy(m, Ready)]
            == left[d + 1 := Copy(m, Ready)]
  {
    var left := copies - {id};
    assert left[d := Copy(m, Unacked(chan))][d + 1 := Copy(m, Waiting)] - {d} == left[d + 1 := Copy(m, Waiting)];
  }

  lemma Freed(s: State, id: nat, m: nat)
    requires id in s.copies && s.copies[id] == Copy(m, Waiting)
    ensures var t := Step(s, Release(id));
            t.copies == s.copies[id := Copy(m, Ready)] && t.wires == s.wires && t.settled == s.settled
  {
  }

  lemma OneMore(events: seq<Event>, e: Event)
    ensures After(events + [e]) == Step(After(events), e)
  {
    assert (events + [e])[..|events|] == events;
  }

  const DELIVERED: seq<Event> := [Arrive(7)] + [Open] + [Deliver(0, 1)]
  const CUT_SHORT: seq<Event> := DELIVERED + [SendCopy(2, 1)] + [SendAck(2)] + [Take(1)] + [Fail(1)]

  lemma AfterDelivered()
    ensures After(DELIVERED) ==
            State(3, map[2 := Copy(7, Unacked(1))], map[1 := []], map[2 := Handle(7, 1, false, false)],
                  {7}, {}, {}, {})
  {
    OneMore([], Arrive(7));
    OneMore([Arrive(7)], Open);
    OneMore([Arrive(7)] + [Open], Deliver(0, 1));
    assert After([Arrive(7)] + [Open]) == State(2, map[0 := Copy(7, Ready)], map[1 := []], map[], {7}, {}, {}, {});
  }

  /** A failure between the copy and the acknowledgement does leave the message there twice. */
  lemma FailureMayDouble()
    ensures After(CUT_SHORT).copies == map[2 := Copy(7, Ready), 3 := Copy(7, Waiting)]
  {
    AfterDelivered();
    OneMore(DELIVERED, SendCopy(2, 1));
    OneMore(DELIVERED + [SendCopy(2, 1)], SendAck(2));
    OneMore(DELIVERED + [SendCopy(2, 1)] + [SendAck(2)], Take(1));
    OneMore(DELIVERED + [SendCopy(2, 1)] + [SendAck(2)] + [Take(1)], Fail(1));
    var s := After(DELIVERED + [SendCopy(2, 1)] + [SendAck(2)]);
    assert s.wires[1] == [CopyOf(2), AckOf(2, true)];
    assert s.copies == map[2 := Copy(7, Unacked(1))] && s.next == 3 && s.handles[2].msg == 7;
  }
}
