/** One delivery and how it settles: an acknowledgement, a rejection, or a delayed copy followed by an
    acknowledgement, each sent on the delivery's own channel and at most once. */
module Message {
  import opened Wrappers
  import opened Utf8
  import opened Amqp
  import opened Errors
  import opened Convert
  import opened Delay
  import Decimal
  import opened Transport

  const DELIVERY_COUNT_HEADER: string := "x-delivery-count"

  /** The count a quorum queue stamps, where one did. */
  function ReturnsOf(properties: Properties): Option<nat> {
    match Lookup(properties.Entries(), DELIVERY_COUNT_HEADER)
    case Some(value) => Counter(value)
    case None => None
  }

  /** Deliveries of this message so far, this one included. */
  function RedeliveryCount(properties: Properties): Option<nat> {
    match ReturnsOf(properties)
    case Some(count) => Some(Saturated(count + 1))
    case None => None
  }

  lemma CountNameIsNormal()
    ensures Normal(DELIVERY_COUNT_HEADER) == DELIVERY_COUNT_HEADER
  {
    var name := DELIVERY_COUNT_HEADER;
    assert forall i | 0 <= i < |name| :: !('A' <= name[i] <= 'Z');
    hide Normal;
    LowerCaseIsNormal(name);
  }

  /** The deliveries so far are one more than the table's own integer under the server's name, of
      whatever width, if that is not negative, and at most a 64-bit word holds. */
  lemma CountIsTheServers(properties: Properties, k: nat)
    ensures RedeliveryCount(properties) == Some(k) <==>
            exists value, n: nat ::
              && Lookup(properties.Entries(), DELIVERY_COUNT_HEADER) == Some(value) && IntegerOf(value) == Some(n)
              && k == if n < Decimal.U64_MAX then n + 1 else Decimal.U64_MAX
  {
    if ReturnsOf(properties).Some? {
      var value := Lookup(properties.Entries(), DELIVERY_COUNT_HEADER).value;
      assert IntegerOf(value) == Some(ReturnsOf(properties).value);
    }
  }

  /** The handler's header under the server's name says the same integer, however else the table
      spells that name. */
  lemma HandlerSeesTheCount(properties: Properties, n: nat)
    requires InNameOrder(properties.Entries()) && ReturnsOf(properties) == Some(n)
    ensures GetStr(HeadersFrom(properties), DELIVERY_COUNT_HEADER) == Some(Decimal.ToText(n))
  {
    hide Normal;
    CountNameIsNormal();
    NormalSpellingAnswers(properties.Entries(), DELIVERY_COUNT_HEADER);
    TableShadowsNative(properties, DELIVERY_COUNT_HEADER);
    hide HeadersFrom, Native, Answer;
    DecodesIffEncodes(Encode(Decimal.ToText(n)), Decimal.ToText(n));
  }

  class LapinMessage {
    const payload: Bytes
    const headers: HeaderMap
    const returned: Option<nat>
    const deliveryTag: nat
    /** The channel a settlement goes out on, until one has gone; absent for a no-ack consumer. */
    var acker: SharedChannel?
    const connection: AmqpConnection?
    var delay: DelayContext?

    constructor (properties: Properties, payload: Bytes, deliveryTag: nat,
                 acker: SharedChannel?, connection: AmqpConnection?, delay: DelayContext?)
      requires delay != null && acker != null ==> delay.shared == acker
      ensures Valid()
      ensures this.payload == payload && headers == HeadersFrom(properties)
      ensures returned == ReturnsOf(properties) && this.deliveryTag == deliveryTag
      ensures this.acker == acker && this.connection == connection && this.delay == delay
    {
      var decoded := HeadersFromProperties(properties);
      this.payload := payload;
      this.headers := decoded;
      this.returned := ReturnsOf(properties);
      this.deliveryTag := deliveryTag;
      this.acker := acker;
      this.connection := connection;
      this.delay := delay;
    }

    /** A delayed copy and the settlement share one channel, which is what orders them. */
    ghost predicate Valid()
      reads this
    {
      delay != null && acker != null ==> delay.shared == acker
    }

    predicate ShutDown()
      reads this, connection
    {
      connection != null && connection.Closed()
    }

    method RefuseAfterShutdown() returns (r: Result<(), AckError>)
      modifies connection
      ensures r == if old(ShutDown()) then Err(Broker) else Ok(())
      ensures old(ShutDown()) ==> ShutDown()
      ensures connection != null ==> connection.births == old(connection.births)
      ensures connection != null && r.Ok? ==> connection.checks == old(connection.checks) - 1
    {
      if connection == null {
        return Ok(());
      }
      var closed := connection.IsClosed();
      r := if closed then Err(Broker) else Ok(());
    }

    /** Sends `frame` if the delivery is still to settle, the broker is up and its channel is alive. */
    method Settle(frame: Frame) returns (r: Result<(), AckError>)
      requires Valid()
      modifies this, acker, connection
      ensures Valid() && acker == null && delay == old(delay)
      ensures old(acker) == null ==> r == Ok(())
      ensures old(acker) != null ==>
                && r == (if !old(ShutDown()) && old(acker.channel).Live() then Ok(()) else Err(Broker))
                && old(acker).channel == if r.Ok? then old(acker.channel).Send(frame) else old(acker.channel)
    {
      var taken := acker;
      acker := null;
      if taken == null {
        return Ok(());
      }
      r := RefuseAfterShutdown();
      if r.Err? {
        return;
      }
      var sent := taken.Send(frame);
      r := if sent then Ok(()) else Err(Broker);
    }

    method Ack() returns (r: Result<(), AckError>)
      requires Valid()
      modifies this, acker, connection
      ensures Valid() && acker == null && delay == old(delay)
      ensures old(acker) == null ==> r == Ok(())
      ensures old(acker) != null ==>
                && r == (if !old(ShutDown()) && old(acker.channel).Live() then Ok(()) else Err(Broker))
                && old(acker).channel.frames ==
                   old(acker.channel).frames + if r.Ok? then [Frame.Ack(deliveryTag)] else []
    {
      r := Settle(Frame.Ack(deliveryTag));
    }

    method Nack(requeue: bool) returns (r: Result<(), AckError>)
      requires Valid()
      modifies this, acker, connection
      ensures Valid() && acker == null && delay == old(delay)
      ensures old(acker) == null ==> r == Ok(())
      ensures old(acker) != null ==>
                && r == (if !old(ShutDown()) && old(acker.channel).Live() then Ok(()) else Err(Broker))
                && old(acker).channel.frames ==
                   old(acker.channel).frames + if r.Ok? then [Frame.Reject(deliveryTag, requeue)] else []
    {
      r := Settle(Frame.Reject(deliveryTag, requeue));
    }

    /** The broker stays up for the next `looks` looks of this delivery. */
    predicate StaysUp(looks: nat)
      reads this, connection
    {
      connection != null ==> connection.checks >= looks
    }

    /** The copy and, where one is owed, the acknowledgement can both go out. */
    ghost predicate CanDelay()
      reads this, connection, delay, if delay == null then {} else {delay.shared}
    {
      && delay != null
      && Sendable(CountedAgain(headers, delay.retry))
      && IsShort(Exchange(delay.target)) && IsShort(RoutingKey(delay.target))
      && StaysUp(if acker == null then 1 else 2)
      && delay.shared.channel.life >= if acker == null then 1 else 2
    }

    /** Delays the message: the copy goes out first and the acknowledgement second, so whatever cuts
        the two short, an acknowledgement never goes without the copy before it. A settlement the
        shutdown refuses leaves no copy either. */
    method NackAfter(ttl: nat) returns (r: Result<(), AckError>, ghost sent: seq<Frame>)
      requires Valid()
      modifies this, acker, connection, if delay == null then {} else {delay.shared}
      ensures Valid() && delay == null
      ensures old(delay) == null ==> r == Err(Unsupported) && sent == [] && acker == old(acker)
      ensures old(delay) != null ==> old(delay.shared).channel.frames == old(delay.shared.channel).frames + sent
      ensures |sent| <= 2
      ensures |sent| >= 1 ==>
                && IsCopy(sent[0], payload, headers, old(delay).retry, old(delay).target, ttl)
                && WaitsFor(sent[0], old(delay).target, ttl) && SaysAgain(sent[0], headers, old(delay).retry)
      ensures |sent| == 2 ==> old(acker) != null && sent[1] == Frame.Ack(deliveryTag)
      ensures old(delay) != null && old(ShutDown()) ==> r == Err(Broker) && sent == []
      ensures old(delay) != null && old(acker) != null ==> (r.Ok? <==> |sent| == 2)
      ensures r.Ok? <==> old(CanDelay())
      ensures r.Ok? ==> |sent| == if old(acker) == null then 1 else 2
    {
      hide IsCopy, WaitsFor, SaysAgain, Sendable, IsShort, CountedAgain, Exchange, RoutingKey;
      sent := [];
      var context := delay;
      delay := null;
      if context == null {
        return Err(Unsupported), [];
      }
      r := RefuseAfterShutdown();
      if r.Err? {
        return;
      }
      ghost var before := context.shared.channel;
      var copied := context.Republish(payload, headers, ttl);
      if copied.Err? {
        return Err(Broker), [];
      }
      ghost var copy :| IsCopy(copy, payload, headers, context.retry, context.target, ttl) &&
          WaitsFor(copy, context.target, ttl) && SaysAgain(copy, headers, context.retry) &&
          context.shared.channel == before.Send(copy);
      sent := [copy];
      ghost var acked := acker != null;
      r := Settle(Frame.Ack(deliveryTag));
      if r.Ok? && acked {
        sent := [copy, Frame.Ack(deliveryTag)];
      }
    }
  }
}
