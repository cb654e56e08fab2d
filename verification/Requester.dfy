/** The request/reply client over direct reply-to: its own channel with the reply consumer on it, the
    table of requests waiting for a reply, and the counter their correlation ids come from. */
module Requester {
  import opened Wrappers
  import opened Utf8
  import opened Amqp
  import opened Errors
  import opened Convert
  import Decimal
  import opened Transport
  import opened TransactionLog
  import opened Publisher
  import opened RequestRace

  /** The direct reply-to address. */
  const ADDRESS: string := ['a', 'm', 'q'] + ".rabbitmq.reply-to"

  function ReplyTo(address: string): (r: ShortString)
    requires |address| <= 255 && forall i | 0 <= i < |address| :: address[i] as int < 0x80
    ensures r == address
  {
    AsciiLength(address);
    address
  }

  function Addressed(properties: Properties, cid: ShortString): (r: Properties)
    ensures r.replyTo == Some(ADDRESS) && r.correlationId == Some(cid)
    ensures r.(replyTo := properties.replyTo, correlationId := properties.correlationId) == properties
  {
    properties.(replyTo := Some(ReplyTo(ADDRESS)), correlationId := Some(cid))
  }

  /** `frame` asks what `message` asks, and says where the reply goes and under which id. */
  ghost predicate IsRequest(frame: Transport.Frame, policy: Policy, message: Buffered, cid: string) {
    && frame.Publish?
    && frame.exchange == policy.exchange && frame.routingKey == message.routingKey
    && frame.payload == message.payload
    && (exists p :: Carries(p, message.headers, policy.defaults) &&
         frame.properties.(replyTo := p.replyTo, correlationId := p.correlationId) == p)
    && frame.properties.replyTo == Some(ADDRESS) && frame.properties.correlationId == Some(cid)
  }

  /** How the wait for a reply ends, unless the caller gives up on it. */
  datatype Fate = Answered(reply: Reply) | SenderDropped | Elapsed

  class LapinRequester {
    const connection: AmqpConnection
    const policy: Policy
    const cell: ChannelCell
    /** The sender that each waiting request's slot holds. */
    var pending: map<string, nat>
    var nextId: nat

    constructor (connection: AmqpConnection, policy: Policy)
      ensures Valid() && fresh(cell) && pending == map[] && nextId == 0
      ensures this.connection == connection && this.policy == policy
    {
      this.connection := connection;
      this.policy := policy;
      this.cell := new ChannelCell(None);
      this.pending := map[];
      this.nextId := 0;
    }

    predicate Valid()
      reads this
    {
      nextId < WRAP
    }

    /** The connection is up, and keeps alive long enough the channel held or one it opens, on which the
        reply consumer then starts. */
    predicate StaysUp()
      reads cell, connection
    {
      && connection.checks > 0
      && if cell.Live() then cell.held.value.life > 1
         else connection.checks > 1 && connection.births != [] && connection.births[0] > 2
    }

    /** The channel, with the reply consumer up before anything is published on it. */
    method LiveChannel() returns (r: Result<(), AmqpError>)
      modifies cell, connection
      ensures r.Ok? ==> cell.held.Some?
      ensures r.Ok? <==>
              && old(connection.checks) > 0
              && (old(cell.Live()) ||
                  (old(connection.checks) > 1 && old(connection.births) != [] && old(connection.births)[0] > 1))
      ensures r.Ok? ==>
                cell.held.value.life ==
                if old(cell.Live()) then old(cell.held).value.life - 1 else old(connection.births)[0] - 2
      ensures cell.Sent() == old(cell.Sent()) + if r.Ok? && !old(cell.Live()) then [ConsumeReplies] else []
      ensures r.Err? ==> cell.Sent() == old(cell.Sent()) && r.error in {Closed, AmqpError.Request}
      ensures old(connection.Closed()) ==> r == Err(Closed) && connection.Closed()
    {
      r := connection.EnsureLive();
      if r.Err? {
        return;
      }
      r := cell.Get(connection, Some(ConsumeReplies), AmqpError.Request);
    }

    /** The frame of a request, or why there is none. */
    method RequestFrame(message: Buffered, cid: ShortString) returns (r: Result<Transport.Frame, AmqpError>)
      ensures r.Ok? <==> Fits(policy, message)
      ensures r.Ok? ==> IsRequest(r.value, policy, message, cid)
      ensures r.Err? ==> r.error == InvalidOptions
    {
      hide Carries, Sendable, IsShort, Addressed;
      var properties := PropertiesForPublish(message.headers, policy.defaults);
      if properties.Err? {
        return Err(properties.error);
      }
      var exchange := Short(policy.exchange);
      if exchange.Err? {
        return Err(exchange.error);
      }
      var routingKey := Short(message.routingKey);
      if routingKey.Err? {
        return Err(routingKey.error);
      }
      var addressed := Addressed(properties.value, cid);
      return Ok(Transport.Frame.Publish(exchange.value, routingKey.value, message.payload, addressed));
    }

    /** Takes the next id and puts the sender in its slot. */
    method Register(sender: nat) returns (cid: ShortString)
      requires Valid()
      modifies `nextId, `pending
      ensures Valid() && cid == Cid(old(nextId)) && nextId == (old(nextId) + 1) % WRAP
      ensures pending == old(pending)[cid := sender]
    {
      CidIsShort(nextId);
      cid := Cid(nextId);
      nextId := (nextId + 1) % WRAP;
      pending := pending[cid := sender];
    }

    /** A request up to the wait for its reply: the slot is there before the frame goes out, and is
        reclaimed on every way of failing after that. */
    method Begin(message: Buffered, sender: nat) returns (r: Result<string, AmqpError>)
      requires Valid()
      modifies this, cell, connection
      ensures Valid()
      ensures r.Ok? ==>
                && r.value == Cid(old(nextId)) && nextId == (old(nextId) + 1) % WRAP
                && pending == old(pending)[r.value := sender]
      ensures r.Ok? <==> old(StaysUp()) && Fits(policy, message)
      ensures r.Ok? ==>
                exists frame :: IsRequest(frame, policy, message, r.value) &&
                    cell.Sent() == old(cell.Sent()) + (if old(cell.Live()) then [] else [ConsumeReplies]) + [frame]
      ensures r.Err? ==>
                && (cell.Sent() == old(cell.Sent()) || cell.Sent() == old(cell.Sent()) + [ConsumeReplies])
                && (if nextId == old(nextId) then pending == old(pending)
                    else pending == old(pending) - {Cid(old(nextId))})
      ensures old(connection.Closed()) ==>
                r == Err(Closed) && connection.Closed() && nextId == old(nextId) && cell.Sent() == old(cell.Sent())
    {
      hide IsRequest, Fits, Cid, IsShort, AllFrames;
      var live := LiveChannel();
      if live.Err? {
        return Err(live.error);
      }
      var cid := Register(sender);
      var submitted := Submit(message, cid);
      if submitted.Err? {
        Cleanup(cid);
        return Err(submitted.error);
      }
      return Ok(cid);
    }

    /** Sends the request, for which the slot has to be there already: its reply may come at once. */
    method Submit(message: Buffered, cid: ShortString) returns (r: Result<(), AmqpError>)
      requires cell.held.Some? && cid in pending
      modifies cell`held
      ensures r.Ok? <==> old(cell.Live()) && Fits(policy, message)
      ensures r.Ok? ==>
                exists frame :: IsRequest(frame, policy, message, cid) && cell.Sent() == old(cell.Sent()) + [frame]
      ensures r.Err? ==> cell.Sent() == old(cell.Sent())
    {
      hide IsRequest, Fits;
      var frame := RequestFrame(message, cid);
      if frame.Err? {
        return Err(frame.error);
      }
      var sent := cell.Send(frame.value);
      return if sent then Ok(()) else Err(AmqpError.Publish);
    }

    method Cleanup(cid: string)
      modifies `pending
      ensures pending == old(pending) - {cid}
    {
      pending := pending - {cid};
    }

    /** The rest of a request: a reply has taken the slot with it, anything else reclaims it. */
    method Finish(cid: string, fate: Fate) returns (r: Result<Reply, AmqpError>)
      requires fate.Answered? ==> cid !in pending
      modifies `pending
      ensures cid !in pending && pending == old(pending) - {cid}
      ensures r == match fate
                   case Answered(reply) => Ok(reply)
                   case SenderDropped => Err(AmqpError.Request)
                   case Elapsed => Err(RequestTimeout)
    {
      match fate
      case Answered(reply) => return Ok(reply);
      case SenderDropped =>
        Cleanup(cid);
        return Err(AmqpError.Request);
      case Elapsed =>
        Cleanup(cid);
        return Err(RequestTimeout);
    }

    /** What a dispatcher does with a reply: its sender, if a request waits under its id, leaves the table. */
    method Dispatch(reply: Reply) returns (sender: Option<nat>)
      modifies `pending
      ensures reply.correlation.None? || reply.correlation.value !in old(pending) ==>
                sender == None && pending == old(pending)
      ensures reply.correlation.Some? && reply.correlation.value in old(pending) ==>
                sender == Some(old(pending)[reply.correlation.value]) &&
                    pending == old(pending) - {reply.correlation.value}
    {
      if reply.correlation.None? {
        return None;
      }
      var cid := reply.correlation.value;
      sender := if cid in pending then Some(pending[cid]) else None;
      pending := pending - {cid};
    }

    /** Publishes without asking for a reply. */
    method Publish(message: Buffered) returns (r: Result<(), AmqpError>)
      modifies cell, connection
      ensures r.Ok? <==> old(StaysUp()) && Fits(policy, message)
      ensures r.Ok? ==>
                exists frame :: IsPublish(frame, policy, message) &&
                    cell.Sent() == old(cell.Sent()) + (if old(cell.Live()) then [] else [ConsumeReplies]) + [frame]
      ensures r.Err? ==> cell.Sent() == old(cell.Sent()) || cell.Sent() == old(cell.Sent()) + [ConsumeReplies]
      ensures old(connection.Closed()) ==> r == Err(Closed) && connection.Closed() && cell.Sent() == old(cell.Sent())
    {
      hide IsPublish, Fits, AllFrames;
      r := LiveChannel();
      if r.Err? {
        return;
      }
      var frame := FrameFor(policy, message);
      if frame.Err? {
        return Err(frame.error);
      }
      var sent := cell.Send(frame.value);
      return if sent then Ok(()) else Err(AmqpError.Publish);
    }
  }

  lemma CidIsShort(n: nat)
    ensures IsShort(Cid(n))
  {
    Decimal.CountIsShort(n % WRAP);
    AsciiLength(Cid(n));
  }
}
