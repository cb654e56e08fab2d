/** The publishers: fire and forget on the connection's shared channel, and awaiting confirms on a
    channel of its own, with a buffer on the handle or in transactions that own theirs. */
module Publisher {
  import opened Wrappers
  import opened Utf8
  import opened Amqp
  import opened Errors
  import opened Convert
  import opened Transport
  import opened TransactionLog

  /** Where a publisher publishes, and the settings of a message that sets none. */
  datatype Policy = Policy(exchange: string, defaults: PublishOptions)

  /** `frame` is the message as handed over, its own settings over the publisher's. */
  ghost predicate IsPublish(frame: Frame, policy: Policy, message: Buffered) {
    && frame.Publish?
    && frame.exchange == policy.exchange && frame.routingKey == message.routingKey
    && frame.payload == message.payload
    && Carries(frame.properties, message.headers, message.options.Over(policy.defaults))
  }

  /** AMQP has room for the message: the names and the identity headers fit short strings. */
  ghost predicate Fits(policy: Policy, message: Buffered) {
    Sendable(message.headers) && IsShort(policy.exchange) && IsShort(message.routingKey)
  }

  /** The publish frames among `frames` are the messages of `log`, each as handed over. */
  ghost predicate Logged(policy: Policy, frames: seq<Frame>, log: seq<Buffered>) {
    if frames == [] then log == []
    else if Last(frames).Publish? then
      log != [] && IsPublish(Last(frames), policy, log[|log| - 1]) && Logged(policy, Front(frames), log[..|log| - 1])
    else Logged(policy, Front(frames), log)
  }

  function Last(frames: seq<Frame>): Frame
    requires frames != []
  {
    frames[|frames| - 1]
  }

  function Front(frames: seq<Frame>): seq<Frame>
    requires frames != []
  {
    frames[..|frames| - 1]
  }

  lemma LoggedOneMore(policy: Policy, frames: seq<Frame>, log: seq<Buffered>, frame: Frame, message: Buffered)
    requires Logged(policy, frames, log) && IsPublish(frame, policy, message)
    ensures Logged(policy, frames + [frame], log + [message])
  {
    assert Front(frames + [frame]) == frames && Last(frames + [frame]) == frame && frame.Publish?;
    assert (log + [message])[..|log|] == log && (log + [message])[|log|] == message;
  }

  lemma LoggedSetup(policy: Policy, frames: seq<Frame>, log: seq<Buffered>, setup: Frame)
    requires Logged(policy, frames, log) && !setup.Publish?
    ensures Logged(policy, frames + [setup], log)
  {
    assert Front(frames + [setup]) == frames;
  }

  /** The frame of a message whose properties are built, if its names fit. */
  method NamedFrame(policy: Policy, message: Buffered, properties: Properties) returns (r: Result<Frame, AmqpError>)
    requires Carries(properties, message.headers, message.options.Over(policy.defaults))
    ensures r.Ok? <==> IsShort(policy.exchange) && IsShort(message.routingKey)
    ensures r.Ok? ==> IsPublish(r.value, policy, message)
    ensures r.Err? ==> r.error == InvalidOptions
  {
    hide Carries, IsShort;
    var exchange := Short(policy.exchange);
    if exchange.Err? {
      return Err(exchange.error);
    }
    var routingKey := Short(message.routingKey);
    if routingKey.Err? {
      return Err(routingKey.error);
    }
    return Ok(Frame.Publish(exchange.value, routingKey.value, message.payload, properties));
  }

  method FrameFor(policy: Policy, message: Buffered) returns (r: Result<Frame, AmqpError>)
    ensures r.Ok? <==> Fits(policy, message)
    ensures r.Ok? ==> IsPublish(r.value, policy, message)
    ensures r.Err? ==> r.error == InvalidOptions
  {
    hide Carries, Sendable, IsShort, IsPublish;
    var properties := PropertiesForPublish(message.headers, message.options.Over(policy.defaults));
    if properties.Err? {
      return Err(properties.error);
    }
    r := NamedFrame(policy, message, properties.value);
  }

  /** Fire and forget. */
  class LapinPublisher {
    const connection: AmqpConnection
    const policy: Policy

    constructor (connection: AmqpConnection, policy: Policy)
      ensures this.connection == connection && this.policy == policy
    {
      this.connection := connection;
      this.policy := policy;
    }

    /** Sends the message on the shared channel or sends nothing, and nothing at all after shutdown. */
    method Publish(message: Buffered) returns (r: Result<(), AmqpError>)
      modifies connection, connection.publishChannel
      ensures r.Err? ==> connection.Published() == old(connection.Published())
      ensures r.Ok? ==>
                exists frame :: IsPublish(frame, policy, message) &&
                    connection.Published() == old(connection.Published()) + [frame]
      ensures r.Ok? <==>
              && !old(connection.Closed()) && Fits(policy, message)
              && if old(connection.publishChannel.Live()) then old(connection.publishChannel.held).value.life > 1
                 else old(connection.births) != [] && old(connection.births)[0] > 0
      ensures old(connection.Closed()) ==> r == Err(AmqpError.Closed) && connection.Closed()
    {
      r := connection.LivePublishChannel();
      if r.Err? {
        return;
      }
      var frame := FrameFor(policy, message);
      if frame.Err? {
        return Err(frame.error);
      }
      var sent := connection.publishChannel.Send(frame.value);
      return if sent then Ok(()) else Err(AmqpError.Publish);
    }
  }

  class ConfirmsPublisher {
    const connection: AmqpConnection
    const policy: Policy
    const cell: ChannelCell
    /** Whether the server confirms the n-th message this handle sends. */
    const confirms: nat -> bool
    var sends: nat
    var txn: Option<seq<Buffered>>
    /** The messages whose frames have gone out. */
    ghost var log: seq<Buffered>
    /** The buffers of the owned transactions not settled yet. */
    ghost var owned: map<nat, seq<Buffered>>
    /** Every call so far on the handle and on the transactions it opened. */
    ghost var calls: seq<Call>

    constructor (connection: AmqpConnection, policy: Policy, confirms: nat -> bool)
      ensures With({}) && fresh(cell) && calls == []
      ensures this.connection == connection && this.policy == policy && this.confirms == confirms
    {
      this.connection := connection;
      this.policy := policy;
      this.confirms := confirms;
      this.sends := 0;
      this.cell := new ChannelCell(None);
      this.txn := None;
      this.log := [];
      this.owned := map[];
      this.calls := [];
    }

    ghost function View(): State
      reads this
    {
      State(txn, owned, log)
    }

    /** The frames sent are those of the log, on channels put in confirm mode before anything else. */
    ghost predicate Recorded()
      reads this, cell
    {
      && Logged(policy, cell.Sent(), log) && sends == |log|
      && (cell.held.Some? ==> [ConfirmSelect] <= cell.held.value.frames)
    }

    /** The connection is up and keeps one channel alive for all of `messages`, each of which fits and
        will be confirmed. */
    ghost predicate GoesThrough(messages: seq<Buffered>)
      reads this, cell, connection
    {
      && connection.checks > 0
      && (if cell.Live() then cell.held.value.life > |messages|
          else connection.checks > 1 && connection.births != [] && connection.births[0] >= |messages| + 2)
      && (forall i | 0 <= i < |messages| :: Fits(policy, messages[i]))
      && forall k | sends <= k < sends + |messages| :: confirms(k)
    }

    /** What went out is what the log says, and buffers and log are where all the calls so far, on the
        handle and on every transaction it opened, take them. */
    ghost predicate Valid()
      reads this, cell
    {
      && Recorded()
      && View() == Run(calls)
      && forall id | id in owned :: id < |calls|
    }

    /** `transactions` are transactions of this handle, under ids of their own, and the owned buffers are
        those of the ones not settled, no more and no fewer. */
    ghost predicate With(transactions: set<ConfirmsTransaction>)
      reads this, cell, transactions
    {
      && Valid()
      && (forall t | t in transactions :: t.publisher == this && t.id < |calls| && t.Holds())
      && (forall t, u | t in transactions && u in transactions && t.id == u.id :: t == u)
      && (forall id | id in owned :: exists t | t in transactions :: !t.settled && t.id == id)
    }

    /** Sends one message on the channel held, or sends nothing. */
    method Send(message: Buffered) returns (r: Result<(), AmqpError>)
      requires Recorded() && cell.held.Some?
      modifies `log, `sends, cell`held
      ensures Recorded() && cell.held.Some?
      ensures r.Ok? <==> Fits(policy, message) && old(cell.Live())
      ensures log == old(log) + if r.Ok? then [message] else []
      ensures r.Ok? ==> cell.held.value.life == old(cell.held).value.life - 1
      ensures r.Err? ==> cell.Sent() == old(cell.Sent()) && cell.held.value.life == old(cell.held).value.life
    {
      hide Fits, IsPublish, Logged;
      var frame := FrameFor(policy, message);
      if frame.Err? {
        return Err(frame.error);
      }
      var taken := cell.Send(frame.value);
      if !taken {
        return Err(AmqpError.Publish);
      }
      LoggedOneMore(policy, old(cell.Sent()), log, frame.value, message);
      log := log + [message];
      sends := sends + 1;
      return Ok(());
    }

    /** The confirm channel. */
    method LiveChannel() returns (r: Result<(), AmqpError>)
      requires Recorded()
      modifies cell, connection
      ensures Recorded() && (r.Ok? ==> cell.held.Some?)
      ensures r.Ok? <==>
              && old(connection.checks) > 0
              && (old(cell.Live()) ||
                  (old(connection.checks) > 1 && old(connection.births) != [] && old(connection.births)[0] > 1))
      ensures r.Ok? ==>
                cell.held.value.life ==
                if old(cell.Live()) then old(cell.held).value.life - 1 else old(connection.births)[0] - 2
      ensures cell.Sent() == old(cell.Sent()) + if r.Ok? && !old(cell.Live()) then [ConfirmSelect] else []
      ensures old(connection.Closed()) ==>
                r == Err(AmqpError.Closed) && connection.Closed() && cell.Sent() == old(cell.Sent())
    {
      hide IsPublish, Logged;
      r := connection.EnsureLive();
      if r.Err? {
        return;
      }
      r := cell.Get(connection, Some(ConfirmSelect), AmqpError.Publish);
      LoggedSetup(policy, old(cell.Sent()), log, ConfirmSelect);
    }

    /** Sends `messages` in order until one cannot be sent, then waits for the confirms, of which the
        server may refuse any. It succeeds exactly when all of them can go through. */
    method Flush(messages: seq<Buffered>) returns (r: Result<(), AmqpError>, ghost sent: nat)
      requires Recorded() && messages != []
      modifies `log, `sends, cell, connection
      ensures Recorded()
      ensures sent <= |messages| && log == old(log) + messages[..sent]
      ensures r.Ok? <==> old(GoesThrough(messages))
      ensures r.Ok? ==> log == old(log) + messages
      ensures sent < |messages| && sent > 0 ==> !Fits(policy, messages[sent]) || !cell.Live()
      ensures forall i | 0 <= i < sent :: Fits(policy, messages[i])
      ensures old(connection.Closed()) ==>
                r == Err(AmqpError.Closed) && connection.Closed() && sent == 0 && cell.Sent() == old(cell.Sent())
    {
      hide Fits, IsPublish, Logged;
      sent := 0;
      r := LiveChannel();
      if r.Err? {
        return;
      }
      ghost var life := cell.held.value.life;
      for i := 0 to |messages|
        invariant Recorded() && cell.held.Some?
        invariant cell.held.value.life == life - i
        invariant sent == i && log == old(log) + messages[..i] && sends == old(sends) + i
        invariant forall k | 0 <= k < i :: Fits(policy, messages[k])
      {
        r := Send(messages[i]);
        if r.Err? {
          return;
        }
        assert messages[..i + 1] == messages[..i] + [messages[i]];
        sent := i + 1;
      }
      assert messages[..|messages|] == messages;
      for i := 0 to |messages|
        invariant forall k | old(sends) <= k < old(sends) + i :: confirms(k)
      {
        if !confirms(sends - |messages| + i) {
          return Err(AmqpError.Publish), sent;
        }
      }
      return Ok(()), sent;
    }

    /** Buffers the message while a transaction is open; otherwise sends it and waits for the confirm. */
    method Publish(message: Buffered) returns (r: Result<(), AmqpError>, ghost sent: nat)
      requires Valid()
      modifies this, cell, connection
      ensures Valid() && calls == old(calls) + [Call.Publish(message, sent)]
      ensures View() == Step(old(View()), Call.Publish(message, sent))
      ensures old(txn).Some? ==> r == Ok(()) && cell.Sent() == old(cell.Sent()) && unchanged(connection)
      ensures old(txn).Some? ==> txn == Some(old(txn).value + [message]) && log == old(log)
      ensures old(txn).None? ==> (r.Ok? <==> old(GoesThrough([message])))
      ensures old(txn).None? ==> sent <= 1 && log == old(log) + [message][..sent] && (r.Ok? ==> sent == 1)
      ensures old(txn).None? && old(connection.Closed()) ==>
                r == Err(AmqpError.Closed) && connection.Closed() && cell.Sent() == old(cell.Sent())
    {
      hide Fits, IsPublish, Logged, Run;
      sent := 0;
      if txn.Some? {
        txn := Some(txn.value + [message]);
        Called(Call.Publish(message, 0));
        return Ok(()), 0;
      }
      r, sent := PublishConfirmed(message);
      FirstIs([message], sent);
      Called(Call.Publish(message, sent));
    }

    method PublishConfirmed(message: Buffered) returns (r: Result<(), AmqpError>, ghost sent: nat)
      requires Recorded()
      modifies `log, `sends, cell, connection
      ensures Recorded()
      ensures r.Ok? <==> old(GoesThrough([message]))
      ensures sent <= 1 && log == old(log) + [message][..sent] && (r.Ok? ==> sent == 1)
      ensures old(connection.Closed()) ==>
                r == Err(AmqpError.Closed) && connection.Closed() && cell.Sent() == old(cell.Sent())
    {
      hide Fits, IsPublish, Logged;
      sent := 0;
      assert [message][0] == message;
      r := LiveChannel();
      if r.Err? {
        return;
      }
      r := Send(message);
      if r.Err? {
        return;
      }
      sent := 1;
      return if confirms(sends - 1) then Ok(()) else Err(AmqpError.Publish), 1;
    }

    /** Takes note of a call that has just done what it does. */
    ghost method Called(call: Call)
      requires Recorded() && View() == Step(Run(calls), call)
      requires forall id | id in owned :: id <= |calls|
      modifies `calls
      ensures Valid() && calls == old(calls) + [call]
    {
      hide Logged, Run;
      RunOneMore(calls, call);
      calls := calls + [call];
    }

    /** Opens the handle's transaction; it never asks whether the connection is up. */
    method BeginTransaction() returns (r: Result<(), AmqpError>)
      requires Valid()
      modifies `txn, `calls
      ensures Valid() && calls == old(calls) + [Begin]
      ensures View() == Step(old(View()), Begin)
      ensures r == if old(txn).Some? then Err(AmqpError.Transaction) else Ok(())
    {
      hide Logged, Run;
      var alreadyOpen := txn.Some?;
      if !alreadyOpen {
        txn := Some([]);
      }
      Called(Begin);
      r := if alreadyOpen then Err(AmqpError.Transaction) else Ok(());
    }

    /** Sends the buffer, or a prefix of it when the commit fails; either way no transaction is open
        afterwards. An empty commit succeeds without asking whether the connection is up. */
    method Commit() returns (r: Result<(), AmqpError>, ghost sent: nat)
      requires Valid()
      modifies this, cell, connection
      ensures Valid() && calls == old(calls) + [Call.Commit(sent)]
      ensures View() == Step(old(View()), Call.Commit(sent))
      ensures txn == None
      ensures old(txn).None? ==> r == Err(AmqpError.Transaction)
      ensures old(txn) == Some([]) ==> r == Ok(()) && unchanged(connection) && unchanged(cell)
      ensures old(txn).Some? ==> (r.Ok? <==> old(txn).value == [] || old(GoesThrough(txn.value)))
      ensures old(txn).Some? ==> sent <= |old(txn).value| && log == old(log) + old(txn).value[..sent]
      ensures old(txn).Some? && r.Ok? ==> log == old(log) + old(txn).value
      ensures old(txn).Some? && old(txn).value != [] && old(connection.Closed()) ==>
                r == Err(AmqpError.Closed) && connection.Closed() && cell.Sent() == old(cell.Sent())
    {
      hide Fits, IsPublish, Logged, Run;
      sent := 0;
      var buffered := txn;
      txn := None;
      if buffered.None? {
        Called(Call.Commit(0));
        return Err(AmqpError.Transaction), 0;
      }
      if buffered.value == [] {
        assert log + buffered.value[..0] == log;
        Called(Call.Commit(0));
        return Ok(()), 0;
      }
      r, sent := Flush(buffered.value);
      FirstIs(buffered.value, sent);
      Called(Call.Commit(sent));
    }

    /** Drops the buffer; it never asks whether the connection is up. */
    method Abort() returns (r: Result<(), AmqpError>)
      requires Valid()
      modifies `txn, `calls
      ensures Valid() && calls == old(calls) + [Call.Abort]
      ensures View() == Step(old(View()), Call.Abort)
      ensures r == if old(txn).None? then Err(AmqpError.Transaction) else Ok(())
    {
      hide Logged, Run;
      r := if txn.None? then Err(AmqpError.Transaction) else Ok(());
      txn := None;
      Called(Call.Abort);
    }

    /** One more independent transaction that owns its buffer. */
    method Transaction(ghost beside: set<ConfirmsTransaction>) returns (t: ConfirmsTransaction)
      requires With(beside)
      modifies `owned, `calls
      ensures With(beside + {t}) && fresh(t) && !t.settled && t.buffered == []
      ensures calls == old(calls) + [Open(t.id)] && View() == Step(old(View()), Open(t.id))
    {
      hide Logged, Run;
      t := new ConfirmsTransaction(this, |calls|);
      owned := owned[t.id := []];
      Called(Open(t.id));
    }
  }

  /** A transaction that owns its buffer, settled once by a commit or an abort. The transactions
      `beside` it are those of the same handle, itself among them. */
  class ConfirmsTransaction {
    const publisher: ConfirmsPublisher
    ghost const id: nat
    var buffered: seq<Buffered>
    var settled: bool

    constructor (publisher: ConfirmsPublisher, ghost id: nat)
      ensures this.publisher == publisher && this.id == id && buffered == [] && !settled
    {
      this.publisher := publisher;
      this.id := id;
      this.buffered := [];
      this.settled := false;
    }

    /** The handle has this buffer under this id while the transaction is not settled, and none after. */
    ghost predicate Holds()
      reads this, publisher
    {
      if settled then id !in publisher.owned else id in publisher.owned && publisher.owned[id] == buffered
    }

    /** Buffers the message here, and in no other buffer of the handle. */
    method Publish(message: Buffered, ghost beside: set<ConfirmsTransaction>) returns (r: Result<(), AmqpError>)
      requires publisher.With(beside) && this in beside && !settled
      modifies `buffered, publisher`owned, publisher`calls
      ensures r == Ok(()) && publisher.With(beside)
      ensures publisher.calls == old(publisher.calls) + [OwnedPublish(id, message)]
      ensures publisher.View() == Step(old(publisher.View()), OwnedPublish(id, message))
    {
      hide Logged, Run;
      buffered := buffered + [message];
      publisher.owned := publisher.owned[id := buffered];
      publisher.Called(OwnedPublish(id, message));
      r := Ok(());
    }

    /** Sends the whole buffer, or a prefix of it when the commit fails; settled either way. */
    method Commit(ghost beside: set<ConfirmsTransaction>) returns (r: Result<(), AmqpError>, ghost sent: nat)
      requires publisher.With(beside) && this in beside && !settled
      modifies `settled, publisher`log, publisher`sends, publisher`owned, publisher`calls
      modifies publisher.cell, publisher.connection
      ensures publisher.With(beside) && settled
      ensures publisher.calls == old(publisher.calls) + [OwnedCommit(id, sent)]
      ensures publisher.View() == Step(old(publisher.View()), OwnedCommit(id, sent))
      ensures r.Ok? <==> buffered == [] || old(publisher.GoesThrough(buffered))
      ensures sent <= |buffered| && publisher.log == old(publisher.log) + buffered[..sent]
      ensures r.Ok? ==> publisher.log == old(publisher.log) + buffered
      ensures buffered == [] ==> r == Ok(()) && unchanged(publisher.connection)
      ensures buffered != [] && old(publisher.connection.Closed()) ==>
                && r == Err(AmqpError.Closed) && publisher.connection.Closed()
                && publisher.cell.Sent() == old(publisher.cell.Sent())
    {
      hide Fits, IsPublish, Logged, Run;
      settled := true;
      sent := 0;
      if buffered == [] {
        r := Ok(());
      } else {
        r, sent := publisher.Flush(buffered);
      }
      FirstIs(buffered, sent);
      publisher.owned := publisher.owned - {id};
      publisher.Called(OwnedCommit(id, sent));
    }

    /** Drops the buffer without touching the broker. */
    method Abort(ghost beside: set<ConfirmsTransaction>) returns (r: Result<(), AmqpError>)
      requires publisher.With(beside) && this in beside && !settled
      modifies `settled, publisher`owned, publisher`calls
      ensures r == Ok(()) && settled && publisher.With(beside)
      ensures publisher.calls == old(publisher.calls) + [OwnedAbort(id)]
      ensures publisher.View() == Step(old(publisher.View()), OwnedAbort(id))
    {
      hide Logged, Run;
      settled := true;
      publisher.owned := publisher.owned - {id};
      publisher.Called(OwnedAbort(id));
      r := Ok(());
    }
  }

  /** What is up, live for long enough, small enough and confirmed goes through. */
  lemma LiveChannelGoesThrough(publisher: ConfirmsPublisher, messages: seq<Buffered>)
    requires !publisher.connection.Closed()
    requires publisher.cell.Live() && publisher.cell.held.value.life > |messages|
    requires forall i | 0 <= i < |messages| :: Fits(publisher.policy, messages[i])
    requires forall k | publisher.sends <= k < publisher.sends + |messages| :: publisher.confirms(k)
    ensures publisher.GoesThrough(messages)
  {
  }

  /** So does what a fresh channel can carry, where the one held is gone or there was none. */
  lemma FreshChannelGoesThrough(publisher: ConfirmsPublisher, messages: seq<Buffered>)
    requires publisher.connection.checks >= 2 && !publisher.cell.Live()
    requires publisher.connection.births != [] && publisher.connection.births[0] >= |messages| + 2
    requires forall i | 0 <= i < |messages| :: Fits(publisher.policy, messages[i])
    requires forall k | publisher.sends <= k < publisher.sends + |messages| :: publisher.confirms(k)
    ensures publisher.GoesThrough(messages)
  {
  }

  /** Whatever was called on a handle and on any number of transactions it opened, the frames that went
      out are those of the log the calls declare, and the buffers those the calls leave. */
  lemma FramesAreTheLog(publisher: ConfirmsPublisher, transactions: set<ConfirmsTransaction>)
    requires publisher.With(transactions)
    ensures Logged(publisher.policy, publisher.cell.Sent(), Log(publisher.calls))
    ensures publisher.txn == Run(publisher.calls).txn
    ensures forall t | t in transactions && !t.settled ::
              t.id in Run(publisher.calls).owned && Run(publisher.calls).owned[t.id] == t.buffered
  {
    hide Logged, Run, Log;
    SendsTheLog(publisher.calls);
  }
}
