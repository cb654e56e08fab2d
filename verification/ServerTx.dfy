/** The publisher backed by AMQP server transactions. The transaction is state of the channel: what is
    published between a begin and a commit is staged by the server, and goes with the channel. */
module ServerTx {
  import opened Wrappers
  import opened Amqp
  import opened Convert
  import opened Errors
  import opened Transport
  import opened TransactionLog
  import opened Publisher

  // The server's side of one channel (AMQP 0-9-1, class tx).

  datatype Server = Server(selected: bool, staged: seq<Frame>, visible: seq<Frame>)

  function Absorb(s: Server, f: Frame): Server {
    match f
    case TxSelect => s.(selected := true)
    case Publish(_, _, _, _) => if s.selected then s.(staged := s.staged + [f]) else s.(visible := s.visible + [f])
    case TxCommit => s.(staged := [], visible := s.visible + s.staged)
    case TxRollback => s.(staged := [])
    case _ => s
  }

  function After(frames: seq<Frame>): Server {
    if frames == [] then Server(false, [], []) else Absorb(After(Front(frames)), Last(frames))
  }

  function Visible(frames: seq<Frame>): seq<Frame> {
    After(frames).visible
  }

  // The publisher's side.

  /** Whether a transaction is open on the handle, and the channel the handle holds. */
  datatype Tx = Tx(open: bool, held: Option<Channel>)
  {
    predicate Live() {
      held.Some? && held.value.Live()
    }

    function Frames(): seq<Frame> {
      if held.Some? then held.value.frames else []
    }
  }

  datatype Ask =
    | Begin
    | Publish(message: Buffered)
    | Commit
    | Abort

  /** One call and whether it returned `Ok`. */
  datatype Done = Done(ask: Ask, ok: bool)

  /** Ends the transaction by `frame`, or leaves it open: refused outright, or unanswered. */
  predicate Ends(before: Tx, frame: Frame, ok: bool, after: Tx) {
    if ok then before.Live() && after == Tx(false, Some(before.held.value.Call(frame)))
    else
      || after == before
      || (before.held.Some? && !before.held.value.Answers() && after == Tx(true, Some(before.held.value.Call(frame))))
  }

  /** Every way a call may go. */
  ghost predicate Goes(policy: Policy, before: Tx, done: Done, after: Tx) {
    match done.ask
    case Begin =>
      if before.open then !done.ok && after == before
      else if done.ok then
        && after.open
        && ((before.Live() && after.held == Some(before.held.value.Looked()))
            || (!before.Live() && after.held.Some? && after.held.value.frames == [TxSelect]))
      else after == before
    case Publish(message) =>
      if before.open && done.ok then
        && before.Live()
        && exists frame :: IsPublish(frame, policy, message) && after == Tx(true, Some(before.held.value.Send(frame)))
      else after == before
    case Commit => if before.open then Ends(before, TxCommit, done.ok, after) else !done.ok && after == before
    case Abort => if before.open then Ends(before, TxRollback, done.ok, after) else !done.ok && after == before
  }

  class ServerTxPublisher {
    const connection: AmqpConnection
    const policy: Policy
    const cell: ChannelCell
    const autoRecover: bool
    var open: bool

    constructor (connection: AmqpConnection, policy: Policy, autoRecover: bool)
      ensures Valid() && fresh(cell) && View() == Tx(false, None)
      ensures this.connection == connection && this.policy == policy && this.autoRecover == autoRecover
    {
      this.connection := connection;
      this.policy := policy;
      this.cell := new ChannelCell(None);
      this.autoRecover := autoRecover;
      this.open := false;
    }

    /** An open transaction has a channel, and never the one other publishers share. */
    ghost predicate Valid()
      reads this, cell
    {
      && cell != connection.publishChannel
      && (open ==> cell.held.Some?)
    }

    function View(): Tx
      reads this, cell
    {
      Tx(open, cell.held)
    }

    /** While a transaction is open, the channel that holds it, dead or not; otherwise a live one. */
    method TxChannel() returns (r: Result<(), AmqpError>)
      requires Valid()
      modifies cell, connection
      ensures Valid()
      ensures old(open) ==> r == Ok(()) && View() == old(View()) && unchanged(connection)
      ensures !old(open) && r.Ok? ==> Goes(policy, old(View()), Done(Ask.Begin, true), Tx(true, cell.held))
      ensures r.Err? ==> View() == old(View())
      ensures !old(open) ==>
                (r.Ok? <==>
                   || old(cell.Live())
                   || (!old(connection.Closed()) && old(connection.births) != [] && old(connection.births)[0] > 1))
      ensures old(connection.Closed()) ==> connection.Closed()
    {
      if open {
        return if cell.held.Some? then Ok(()) else Err(AmqpError.Transaction);
      }
      r := cell.Get(connection, Some(TxSelect), AmqpError.Publish);
    }

    /** Into the open transaction's channel, or plainly when none is open. */
    method Publish(message: Buffered) returns (r: Result<(), AmqpError>)
      requires Valid()
      modifies cell, connection, connection.publishChannel
      ensures Valid() && open == old(open)
      ensures Goes(policy, old(View()), Done(Ask.Publish(message), r.Ok?), View())
      ensures r.Ok? <==>
              && !autoRecover && Fits(policy, message) && !old(connection.Closed())
              && if old(open) then old(cell.Live())
                 else if old(connection.publishChannel.Live()) then old(connection.publishChannel.held).value.life > 1
                 else old(connection.births) != [] && old(connection.births)[0] > 0
      ensures autoRecover ==> r == Err(InvalidOptions)
      ensures old(open) || r.Err? ==> connection.Published() == old(connection.Published())
      ensures !old(open) && r.Ok? ==>
                exists frame :: IsPublish(frame, policy, message) &&
                    connection.Published() == old(connection.Published()) + [frame]
      ensures old(connection.Closed()) ==>
                && r.Err? && connection.Closed()
                && (r == Err(Closed) <==> !autoRecover && Sendable(message.headers))
    {
      hide Sendable, IsShort, IsPublish, Carries;
      if autoRecover {
        return Err(InvalidOptions);
      }
      var properties := PropertiesForPublish(message.headers, message.options.Over(policy.defaults));
      if properties.Err? {
        return Err(properties.error);
      }
      if open {
        r := connection.EnsureLive();
        if r.Err? {
          return;
        }
        r := TxChannel();
        var frame := NamedFrame(policy, message, properties.value);
        if frame.Err? {
          return Err(frame.error);
        }
        var sent := cell.Send(frame.value);
        r := if sent then Ok(()) else Err(AmqpError.Publish);
      } else {
        r := connection.LivePublishChannel();
        if r.Err? {
          return;
        }
        var frame := NamedFrame(policy, message, properties.value);
        if frame.Err? {
          return Err(frame.error);
        }
        var sent := connection.publishChannel.Send(frame.value);
        r := if sent then Ok(()) else Err(AmqpError.Publish);
      }
    }

    method BeginTransaction() returns (r: Result<(), AmqpError>)
      requires Valid()
      modifies this, cell, connection
      ensures Valid() && Goes(policy, old(View()), Done(Ask.Begin, r.Ok?), View())
      ensures r.Ok? <==>
              && !autoRecover && !old(open) && !old(connection.Closed())
              && (old(cell.Live()) ||
                  (old(connection.checks) > 1 && old(connection.births) != [] && old(connection.births)[0] > 1))
      ensures autoRecover ==> r == Err(InvalidOptions)
      ensures !autoRecover && old(open) ==> r == Err(AmqpError.Transaction)
      ensures old(connection.Closed()) ==>
                && r.Err? && connection.Closed() && View() == old(View())
                && (r == Err(Closed) <==> !autoRecover && !old(open))
    {
      if autoRecover {
        return Err(InvalidOptions);
      }
      if open {
        return Err(AmqpError.Transaction);
      }
      r := connection.EnsureLive();
      if r.Err? {
        return;
      }
      r := TxChannel();
      if r.Ok? {
        open := true;
      }
    }

    /** Commits, and clears the transaction only once the server has answered. */
    method Commit() returns (r: Result<(), AmqpError>)
      requires Valid()
      modifies this, cell, connection
      ensures Valid() && Goes(policy, old(View()), Done(Ask.Commit, r.Ok?), View())
      ensures r.Ok? <==> !autoRecover && old(open) && !old(connection.Closed()) && old(cell.held.value).Answers()
      ensures !autoRecover && old(open) && !old(connection.Closed()) ==>
                View() == Tx(r.Err?, Some(old(cell.held.value).Call(TxCommit)))
      ensures autoRecover ==> r == Err(InvalidOptions)
      ensures !autoRecover && !old(open) ==> r == Err(AmqpError.Transaction)
      ensures old(connection.Closed()) ==>
                && r.Err? && connection.Closed() && View() == old(View())
                && (r == Err(Closed) <==> !autoRecover && old(open))
    {
      r := Settle(TxCommit);
    }

    /** Rolls back, and clears the transaction only once the server has answered. */
    method Abort() returns (r: Result<(), AmqpError>)
      requires Valid()
      modifies this, cell, connection
      ensures Valid() && Goes(policy, old(View()), Done(Ask.Abort, r.Ok?), View())
      ensures r.Ok? <==> !autoRecover && old(open) && !old(connection.Closed()) && old(cell.held.value).Answers()
      ensures !autoRecover && old(open) && !old(connection.Closed()) ==>
                View() == Tx(r.Err?, Some(old(cell.held.value).Call(TxRollback)))
      ensures autoRecover ==> r == Err(InvalidOptions)
      ensures !autoRecover && !old(open) ==> r == Err(AmqpError.Transaction)
      ensures old(connection.Closed()) ==>
                && r.Err? && connection.Closed() && View() == old(View())
                && (r == Err(Closed) <==> !autoRecover && old(open))
    {
      r := Settle(TxRollback);
    }

    method Settle(frame: Frame) returns (r: Result<(), AmqpError>)
      requires Valid()
      modifies this, cell, connection
      ensures Valid()
      ensures old(open) ==> Ends(old(View()), frame, r.Ok?, View())
      ensures r.Ok? <==> !autoRecover && old(open) && !old(connection.Closed()) && old(cell.held.value).Answers()
      ensures !autoRecover && old(open) && !old(connection.Closed()) ==>
                View() == Tx(r.Err?, Some(old(cell.held.value).Call(frame)))
      ensures !old(open) ==> r.Err? && View() == old(View())
      ensures autoRecover ==> r == Err(InvalidOptions)
      ensures !autoRecover && !old(open) ==> r == Err(AmqpError.Transaction)
      ensures old(connection.Closed()) ==>
                && r.Err? && connection.Closed() && View() == old(View())
                && (r == Err(Closed) <==> !autoRecover && old(open))
    {
      if autoRecover {
        return Err(InvalidOptions);
      }
      if !open {
        return Err(AmqpError.Transaction);
      }
      r := connection.EnsureLive();
      if r.Err? {
        return;
      }
      r := TxChannel();
      var answered := cell.Call(frame);
      if !answered {
        return Err(AmqpError.Publish);
      }
      open := false;
      return Ok(());
    }
  }

  // Every run of calls on one handle.

  /** The handle's states before and after each of `dones`, from a new handle on. */
  ghost predicate Run(policy: Policy, states: seq<Tx>, dones: seq<Done>) {
    && |states| == |dones| + 1 && states[0] == Tx(false, None)
    && forall i | 0 <= i < |dones| :: Goes(policy, states[i], dones[i], states[i + 1])
  }

  predicate Ending(done: Done) {
    done.ok && (done.ask.Commit? || done.ask.Abort?)
  }

  /** The transaction open before call `i` began with call `b`. */
  ghost predicate BeganAt(dones: seq<Done>, b: nat, i: nat) {
    && b < i <= |dones| && dones[b] == Done(Ask.Begin, true)
    && forall j | b < j < i :: !Ending(dones[j])
  }

  /** The messages whose publish returned `Ok`, in order. */
  function Accepted(dones: seq<Done>): seq<Buffered> {
    if dones == [] then []
    else Accepted(dones[..|dones| - 1]) +
         if dones[|dones| - 1].ok && dones[|dones| - 1].ask.Publish? then [dones[|dones| - 1].ask.message] else []
  }

  /** `frames` are those of `messages`, in order. */
  ghost predicate FramesOf(policy: Policy, frames: seq<Frame>, messages: seq<Buffered>) {
    |frames| == |messages| && forall k | 0 <= k < |frames| :: IsPublish(frames[k], policy, messages[k])
  }

  lemma AbsorbOneMore(frames: seq<Frame>, f: Frame)
    ensures After(frames + [f]) == Absorb(After(frames), f)
  {
    assert Front(frames + [f]) == frames;
  }

  lemma Glued(frames: seq<Frame>, tail: seq<Frame>)
    requires tail != []
    ensures (frames + Front(tail)) + [Last(tail)] == frames + tail
  {
  }

  lemma FramesOfFirst(policy: Policy, frames: seq<Frame>, messages: seq<Buffered>, n: nat)
    requires FramesOf(policy, frames, messages) && n <= |frames|
    ensures FramesOf(policy, frames[..n], messages[..n])
  {
  }

  /** Publishes on a transactional channel are staged, and nothing more. */
  lemma {:induction false} Staged(policy: Policy, frames: seq<Frame>, tail: seq<Frame>, messages: seq<Buffered>)
    requires FramesOf(policy, tail, messages) && After(frames).selected
    ensures After(frames + tail) == Server(true, After(frames).staged + tail, After(frames).visible)
  {
    if tail == [] {
      assert frames + tail == frames;
    } else {
      assert Last(tail).Publish? by {
        assert IsPublish(tail[|tail| - 1], policy, messages[|tail| - 1]);
      }
      FramesOfFirst(policy, tail, messages, |tail| - 1);
      hide IsPublish, FramesOf;
      Staged(policy, frames, Front(tail), messages[..|tail| - 1]);
      Glued(frames, tail);
      Glued(After(frames).staged, tail);
      AbsorbOneMore(frames + Front(tail), Last(tail));
    }
  }

  /** A held channel is transactional, and between transactions has nothing staged. */
  predicate Clean(s: Tx) {
    s.held.Some? ==> After(s.Frames()).selected && (!s.open ==> After(s.Frames()).staged == [])
  }

  lemma CleanStep(policy: Policy, before: Tx, done: Done, after: Tx)
    requires Clean(before) && Goes(policy, before, done, after)
    ensures Clean(after)
  {
    hide IsPublish, After;
    if after.held.Some? && before.Frames() != after.Frames() {
      if done.ask.Begin? {
        FreshIsClean();
      } else {
        assert after.Frames() == before.Frames() + [Last(after.Frames())];
        AbsorbOneMore(before.Frames(), Last(after.Frames()));
      }
    }
  }

  lemma FreshIsClean()
    ensures After([TxSelect]) == Server(true, [], [])
  {
    assert After([TxSelect]) == Absorb(After([]), TxSelect);
  }

  lemma {:induction false} AlwaysClean(policy: Policy, states: seq<Tx>, dones: seq<Done>, i: nat)
    requires Run(policy, states, dones) && i < |states|
    ensures Clean(states[i])
  {
    if i > 0 {
      AlwaysClean(policy, states, dones, i - 1);
      CleanStep(policy, states[i - 1], dones[i - 1], states[(i - 1) + 1]);
    }
  }

  /** Inside the transaction that opened in `start`, with `messages` accepted so far. */
  ghost predicate Midway(policy: Policy, start: Tx, messages: seq<Buffered>, s: Tx) {
    && s.open && s.held.Some? && start.Frames() <= s.Frames()
    && (s.Live() ==> FramesOf(policy, s.Frames()[|start.Frames()|..], messages))
  }

  function Accepts(done: Done): seq<Buffered> {
    if done.ok && done.ask.Publish? then [done.ask.message] else []
  }

  lemma MidwayStep(policy: Policy, start: Tx, messages: seq<Buffered>, before: Tx, done: Done, after: Tx)
    requires Midway(policy, start, messages, before) && Goes(policy, before, done, after) && !Ending(done)
    ensures Midway(policy, start, messages + Accepts(done), after)
  {
    hide IsPublish;
    var n := |start.Frames()|;
    if done.ask.Publish? && done.ok {
      assert after.Frames()[n..] == before.Frames()[n..] + [Last(after.Frames())];
    } else {
      assert messages + [] == messages;
    }
  }

  lemma AcceptedOneMore(dones: seq<Done>, b: nat, i: nat)
    requires b < i <= |dones|
    ensures Accepted(dones[b..i]) == Accepted(dones[b..i - 1]) + Accepts(dones[i - 1])
  {
    var since := dones[b..i];
    assert since[..|since| - 1] == dones[b..i - 1];
  }

  lemma MidwayStart(policy: Policy, before: Tx, start: Tx)
    requires Goes(policy, before, Done(Ask.Begin, true), start)
    ensures Midway(policy, start, [], start)
  {
    assert start.Frames()[|start.Frames()|..] == [];
  }

  lemma {:induction false} Throughout(policy: Policy, states: seq<Tx>, dones: seq<Done>, b: nat, i: nat)
    requires Run(policy, states, dones) && BeganAt(dones, b, i)
    ensures Midway(policy, states[b + 1], Accepted(dones[b + 1..i]), states[i])
  {
    hide IsPublish, Goes, Midway, Accepts;
    if i == b + 1 {
      assert Goes(policy, states[b], dones[b], states[b + 1]);
      MidwayStart(policy, states[b], states[b + 1]);
      assert dones[b + 1..i] == [];
    } else {
      Throughout(policy, states, dones, b, i - 1);
      AcceptedOneMore(dones, b + 1, i);
      assert Goes(policy, states[i - 1], dones[i - 1], states[(i - 1) + 1]);
      MidwayStep(policy, states[b + 1], Accepted(dones[b + 1..i - 1]), states[i - 1], dones[i - 1], states[i]);
    }
  }

  /** A transaction open on the handle was begun by one of the calls, and not ended since. */
  lemma {:induction false} OpenSinceBegin(policy: Policy, states: seq<Tx>, dones: seq<Done>, i: nat) returns (b: nat)
    requires Run(policy, states, dones) && i < |states| && states[i].open
    ensures BeganAt(dones, b, i)
  {
    hide IsPublish;
    assert Goes(policy, states[i - 1], dones[i - 1], states[(i - 1) + 1]);
    if dones[i - 1] == Done(Ask.Begin, true) {
      return i - 1;
    }
    b := OpenSinceBegin(policy, states, dones, i - 1);
  }

  lemma Parts(start: seq<Frame>, frames: seq<Frame>, p: nat)
    requires start <= frames && |start| <= p <= |frames|
    ensures start + frames[|start|..][..p - |start|] == frames[..p]
    ensures start + frames[|start|..] == frames
    ensures [] + frames[|start|..] == frames[|start|..]
  {
  }

  /** What the server shows over the whole of a transaction, before the frame that ends it. */
  lemma Unseen(policy: Policy, start: seq<Frame>, frames: seq<Frame>, messages: seq<Buffered>, p: nat)
    requires After(start).selected && After(start).staged == []
    requires start <= frames && FramesOf(policy, frames[|start|..], messages)
    requires |start| <= p <= |frames|
    ensures Visible(frames[..p]) == Visible(start)
    ensures After(frames) == Server(true, frames[|start|..], Visible(start))
  {
    hide IsPublish, After;
    var tail := frames[|start|..];
    Parts(start, frames, p);
    FramesOfFirst(policy, tail, messages, p - |start|);
    Staged(policy, start, tail[..p - |start|], messages[..p - |start|]);
    Staged(policy, start, tail, messages);
  }

  lemma EndsOn(policy: Policy, states: seq<Tx>, dones: seq<Done>, b: nat, i: nat)
    requires Run(policy, states, dones) && BeganAt(dones, b, i) && i < |dones| && Ending(dones[i])
    ensures After(states[b + 1].Frames()).selected && After(states[b + 1].Frames()).staged == []
    ensures states[b + 1].Frames() <= states[i].Frames()
    ensures FramesOf(policy, states[i].Frames()[|states[b + 1].Frames()|..], Accepted(dones[b + 1..i]))
    ensures states[i + 1].Frames() == states[i].Frames() + [if dones[i].ask.Commit? then TxCommit else TxRollback]
  {
    hide IsPublish;
    Throughout(policy, states, dones, b, i);
    assert Goes(policy, states[i], dones[i], states[i + 1]);
    AlwaysClean(policy, states, dones, b);
    AlwaysClean(policy, states, dones, b + 1);
    assert Goes(policy, states[b], dones[b], states[b + 1]);
    if !states[b].Live() {
      FreshIsClean();
    }
  }

  /** A commit that returns `Ok` makes visible, in order and all at once, exactly the messages whose
      publish returned `Ok` since the begin: until the server takes the commit it shows none of them. */
  lemma CommitIsAtomic(policy: Policy, states: seq<Tx>, dones: seq<Done>, b: nat, i: nat, p: nat)
    requires Run(policy, states, dones) && i < |dones| && dones[i] == Done(Ask.Commit, true) && BeganAt(dones, b, i)
    requires |states[b + 1].Frames()| <= p < |states[i + 1].Frames()|
    ensures states[b + 1].Frames() <= states[i + 1].Frames()
    ensures Visible(states[i + 1].Frames()[..p]) == Visible(states[b + 1].Frames())
    ensures Visible(states[b + 1].Frames()) <= Visible(states[i + 1].Frames())
    ensures FramesOf(
              policy, Visible(states[i + 1].Frames())[|Visible(states[b + 1].Frames())|..], Accepted(dones[b + 1..i]))
  {
    hide IsPublish, After, Accepted, FramesOf, Goes;
    EndsOn(policy, states, dones, b, i);
    var start, frames := states[b + 1].Frames(), states[i].Frames();
    Unseen(policy, start, frames, Accepted(dones[b + 1..i]), p);
    TakenBefore(frames, TxCommit, p);
    AbsorbOneMore(frames, TxCommit);
  }

  lemma TakenBefore(frames: seq<Frame>, f: Frame, p: nat)
    requires p <= |frames|
    ensures (frames + [f])[..p] == frames[..p]
    ensures (frames + [f])[..|frames| + 1] == frames + [f]
  {
  }

  /** Of a transaction whose abort returned `Ok` the server never shows anything. */
  lemma AbortShowsNothing(policy: Policy, states: seq<Tx>, dones: seq<Done>, b: nat, i: nat, p: nat)
    requires Run(policy, states, dones) && i < |dones| && dones[i] == Done(Ask.Abort, true) && BeganAt(dones, b, i)
    requires |states[b + 1].Frames()| <= p <= |states[i + 1].Frames()|
    ensures states[b + 1].Frames() <= states[i + 1].Frames()
    ensures Visible(states[i + 1].Frames()[..p]) == Visible(states[b + 1].Frames())
    ensures After(states[i + 1].Frames()).staged == []
  {
    hide IsPublish, After, Accepted, FramesOf, Goes;
    EndsOn(policy, states, dones, b, i);
    var start, frames := states[b + 1].Frames(), states[i].Frames();
    var q := if p <= |frames| then p else |frames|;
    Unseen(policy, start, frames, Accepted(dones[b + 1..i]), q);
    TakenBefore(frames, TxRollback, q);
    AbsorbOneMore(frames, TxRollback);
  }

  /** Once the channel has died inside an open transaction nothing on the handle succeeds again, and no
      fresh channel takes its place. */
  lemma {:induction false} DeathIsNeverHidden(policy: Policy, states: seq<Tx>, dones: seq<Done>, i: nat, j: nat)
    requires Run(policy, states, dones) && i <= j < |states|
    requires states[i].open && !states[i].Live()
    ensures states[j].open && states[j].Frames() == states[i].Frames() && !states[j].Live()
    ensures j < |dones| ==> !dones[j].ok
  {
    hide IsPublish;
    if i < j {
      DeathIsNeverHidden(policy, states, dones, i, j - 1);
      assert Goes(policy, states[j - 1], dones[j - 1], states[(j - 1) + 1]);
    }
    assert j < |dones| ==> Goes(policy, states[j], dones[j], states[j + 1]);
  }
}
