/** The AMQP client as the crate sees it. A channel takes frames in order until it dies, and a dead
    channel stays dead; when that happens is the environment's choice, fixed here in advance as the
    number of exchanges the channel still lives through. */
module Transport {
  import opened Wrappers
  import opened Utf8
  import opened Amqp
  import opened Errors
  import Convert

  datatype Frame =
    | Publish(exchange: ShortString, routingKey: ShortString, payload: Bytes, properties: Convert.Properties)
    | Ack(tag: nat)
    | Reject(tag: nat, requeue: bool)
    | ConsumeReplies
    | ConfirmSelect
    | TxSelect
    | TxCommit
    | TxRollback

  /** The frames a channel has taken, and how many more exchanges it lives through. */
  datatype Channel = Channel(life: nat, frames: seq<Frame>) {
    predicate Live() {
      life > 0
    }

    /** Reads the status; the channel may die right after. */
    function Looked(): Channel {
      if Live() then this.(life := life - 1) else this
    }

    /** Hands over a frame the server does not answer; a dead channel takes none. */
    function Send(frame: Frame): Channel {
      if Live() then Channel(life - 1, frames + [frame]) else this
    }

    /** Hands over a frame and waits for the answer, which a channel may not live to bring. */
    function Call(frame: Frame): Channel {
      Send(frame).Looked()
    }

    predicate Answers() {
      life > 1
    }
  }

  /** One channel shared by every handle that was given it. */
  class SharedChannel {
    var channel: Channel

    constructor (channel: Channel)
      ensures this.channel == channel
    {
      this.channel := channel;
    }

    method Send(frame: Frame) returns (sent: bool)
      modifies this
      ensures channel == old(channel).Send(frame)
      ensures sent == old(channel).Live()
    {
      sent := channel.Live();
      channel := channel.Send(frame);
    }
  }

  ghost function AllFrames(channels: seq<Channel>): seq<Frame> {
    if channels == [] then [] else channels[0].frames + AllFrames(channels[1..])
  }

  lemma {:induction false} FramesOfOneMore(channels: seq<Channel>, last: Channel)
    ensures AllFrames(channels + [last]) == AllFrames(channels) + last.frames
  {
    if channels != [] {
      FramesOfOneMore(channels[1..], last);
      assert (channels + [last])[1..] == channels[1..] + [last];
    }
  }

  /** A place for one channel, filled when somebody first needs it and refilled after its channel dies. */
  class ChannelCell {
    var held: Option<Channel>
    ghost var retired: seq<Channel>

    constructor (held: Option<Channel>)
      ensures this.held == held && retired == []
    {
      this.held := held;
      retired := [];
    }

    predicate Live()
      reads this
    {
      held.Some? && held.value.Live()
    }

    /** Everything ever handed to the channels of this cell, in order. */
    ghost function Sent(): seq<Frame>
      reads this
    {
      AllFrames(retired) + if held.Some? then held.value.frames else []
    }

    method Look() returns (live: bool)
      modifies this`held
      ensures live == old(Live())
      ensures held == if old(held).Some? then Some(old(held).value.Looked()) else None
      ensures Sent() == old(Sent())
    {
      live := held.Some? && held.value.Live();
      if held.Some? {
        held := Some(held.value.Looked());
      }
    }

    /** Makes the cell hold a channel that was live at a look or was just opened, with `setup` run on
        it; a live channel is kept, and a dead one is given up only for a new one. The first use of
        the connection inside `setup` checks that it is up. */
    method Get(connection: AmqpConnection, setup: Option<Frame>, refused: AmqpError) returns (r: Result<(), AmqpError>)
      modifies this, connection
      ensures old(Live()) ==>
                && r.Ok? && held == Some(old(held).value.Looked()) && retired == old(retired)
                && unchanged(connection)
      ensures !old(Live()) && r.Ok? ==>
                && held.Some? && held.value.frames == (if setup.Some? then [setup.value] else [])
                && retired == old(retired) + (if old(held).Some? then [old(held).value] else [])
      ensures !old(Live()) ==>
                (r.Ok? <==>
                   && old(connection.births) != []
                   && (setup.Some? ==> !old(connection.Closed()) && old(connection.births)[0] > 1))
      ensures !old(Live()) && r.Ok? ==>
                held.value.life == if setup.Some? then old(connection.births)[0] - 2 else old(connection.births)[0]
      ensures r.Err? ==> held == old(held) && retired == old(retired) && r.error in {Closed, refused}
      ensures r.Err? && (setup.None? || !old(connection.Closed())) ==> r.error == refused
      ensures Sent() == old(Sent()) + if !old(Live()) && r.Ok? && setup.Some? then [setup.value] else []
      ensures old(connection.Closed()) ==> connection.Closed()
      ensures old(connection.Closed()) && setup.Some? && !old(Live()) ==> r == Err(Closed)
    {
      var live := Look();
      if live {
        return Ok(());
      }
      // Under the opening lock: whoever held it before may have opened one.
      live := Look();
      if live {
        return Ok(());
      }
      if setup.Some? {
        r := connection.EnsureLive();
        if r.Err? {
          return;
        }
      }
      var created := connection.CreateChannel(refused);
      if created.Err? {
        return Err(created.error);
      }
      var channel := created.value;
      if setup.Some? {
        if !channel.Answers() {
          return Err(refused);
        }
        channel := channel.Call(setup.value);
      }
      if held.Some? {
        FramesOfOneMore(retired, held.value);
        retired := retired + [held.value];
      }
      held := Some(channel);
      return Ok(());
    }

    /** Sends on the held channel. */
    method Send(frame: Frame) returns (sent: bool)
      requires held.Some?
      modifies this`held
      ensures sent == old(Live())
      ensures held == Some(old(held).value.Send(frame))
      ensures Sent() == old(Sent()) + if sent then [frame] else []
    {
      sent := held.value.Live();
      held := Some(held.value.Send(frame));
    }

    /** Sends on the held channel and waits for the answer. */
    method Call(frame: Frame) returns (answered: bool)
      requires held.Some?
      modifies this`held
      ensures answered == old(held).value.Answers()
      ensures held == Some(old(held).value.Call(frame))
    {
      answered := held.value.Answers();
      held := Some(held.value.Call(frame));
    }
  }

  /** The connection behind every handle: its closed flag, set once by shutdown and found set by every
      later check, the channels the server still opens on it, and the shared publish channel. */
  class AmqpConnection {
    var checks: nat
    var births: seq<nat>
    const publishChannel: ChannelCell

    constructor (checks: nat, births: seq<nat>, publishChannel: ChannelCell)
      ensures this.checks == checks && this.births == births && this.publishChannel == publishChannel
    {
      this.checks := checks;
      this.births := births;
      this.publishChannel := publishChannel;
    }

    predicate Closed()
      reads this
    {
      checks == 0
    }

    /** Everything ever handed to the shared publish channels, in order. */
    ghost function Published(): seq<Frame>
      reads publishChannel
    {
      publishChannel.Sent()
    }

    method IsClosed() returns (closed: bool)
      modifies this`checks
      ensures closed == old(Closed())
      ensures checks == if closed then 0 else old(checks) - 1
    {
      closed := checks == 0;
      if !closed {
        checks := checks - 1;
      }
    }

    method EnsureLive() returns (r: Result<(), AmqpError>)
      modifies this`checks
      ensures r == if old(Closed()) then Err(AmqpError.Closed) else Ok(())
      ensures checks == if r.Err? then 0 else old(checks) - 1
    {
      var closed := IsClosed();
      r := if closed then Err(AmqpError.Closed) else Ok(());
    }

    /** A fresh channel, if the server opens one. */
    method CreateChannel(refused: AmqpError) returns (r: Result<Channel, AmqpError>)
      modifies this`births
      ensures r == if old(births) == [] then Err(refused) else Ok(Channel(old(births)[0], []))
    {
      if births == [] {
        return Err(refused);
      }
      r := Ok(Channel(births[0], []));
      births := births[1..];
    }

    /** Makes the shared publish channel one that can be tried, once the connection is up. */
    method LivePublishChannel() returns (r: Result<(), AmqpError>)
      modifies this, publishChannel
      ensures Published() == old(Published())
      ensures r == Err(AmqpError.Closed) <==> old(Closed())
      ensures old(Closed()) ==> Closed()
      ensures r.Ok? <==> !old(Closed()) && (old(publishChannel.Live()) || old(births) != [])
      ensures r.Ok? ==>
                && publishChannel.held.Some?
                && publishChannel.held.value.life ==
                   if old(publishChannel.Live()) then old(publishChannel.held).value.life - 1 else old(births)[0]
      ensures r.Err? ==> r.error in {AmqpError.Closed, AmqpError.Publish}
    {
      r := EnsureLive();
      if r.Err? {
        return;
      }
      r := publishChannel.Get(this, None, AmqpError.Publish);
    }
  }
}
