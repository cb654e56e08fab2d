/** Delayed redelivery: the copy a delayed retry leaves behind, and what survives any number of
    rounds through the waiting queue. */
module Delay {
  import opened Wrappers
  import opened Utf8
  import opened Amqp
  import opened Errors
  import opened Convert
  import Decimal
  import opened Transport

  /** How a subscription delays a retry: a waiting queue that expires messages back to the origin, or
      the delayed-message exchange; each has a default name. */
  datatype Delay =
    | DlxTtl(waitingQueue: Option<string>)
    | DelayedMessageExchange(delayed: Option<string>)

  datatype DelayTarget =
    | WaitingQueue(queue: string)
    | DelayedExchange(exchange: string, routingKey: string)

  function TargetFor(delay: Delay, origin: string): DelayTarget {
    match delay
    case DlxTtl(Some(name)) => WaitingQueue(name)
    case DlxTtl(None) => WaitingQueue(origin + ".retry")
    case DelayedMessageExchange(Some(name)) => DelayedExchange(name, origin)
    case DelayedMessageExchange(None) => DelayedExchange(origin + ".delay", origin)
  }

  /** A copy published to `target` goes straight to the queue `origin`, with no delay at all. */
  predicate GoesStraightBack(target: DelayTarget, origin: string) {
    Exchange(target) == "" && RoutingKey(target) == origin
  }

  /** A copy goes straight back exactly where the waiting queue was given the origin's own name, or the
      delayed exchange the name of the default one. */
  lemma StraightBackExactlyWhenNamed(delay: Delay, origin: string)
    ensures GoesStraightBack(TargetFor(delay, origin), origin) <==>
            delay == DlxTtl(Some(origin)) || delay == DelayedMessageExchange(Some(""))
  {
    assert |origin + ".retry"| != |origin| && origin + ".delay" != "";
  }

  /** So a waiting queue named like its origin delays nothing. */
  lemma OwnNameDelaysNothing(origin: string)
    ensures GoesStraightBack(TargetFor(DlxTtl(Some(origin)), origin), origin)
  {
  }

  /** Two origins share a target exactly where their delay names the waiting queue. */
  lemma TargetsAreApart(delay: Delay, origin: string, other: string)
    requires origin != other
    ensures TargetFor(delay, origin) == TargetFor(delay, other) <==> delay.DlxTtl? && delay.waitingQueue.Some?
  {
    if delay == DlxTtl(None) {
      SuffixOff(origin, ".retry");
      SuffixOff(other, ".retry");
    }
  }

  lemma SuffixOff(name: string, suffix: string)
    ensures (name + suffix)[..|name + suffix| - |suffix|] == name
  {
  }

  const X_DELAY: ShortString := "x-delay"
  const I64_MAX: int := 0x7FFF_FFFF_FFFF_FFFF

  /** The priority the delivery reported, persistent, and nothing else. */
  function RedeliveryOptions(headers: HeaderMap): PublishOptions {
    var text := GetStr(headers, PRIORITY_HEADER);
    var priority := if text.Some? then Decimal.ParseUnsigned(text.value, Decimal.U8_MAX) else None;
    PublishOptions(if priority.Some? then Some(AsByte(priority.value)) else None, None, Some(true))
  }

  function AsByte(n: nat): Byte {
    if n < 256 then n else 255
  }

  /** The framework's retry count, under the header name the framework gives it. */
  function RetryCount(headers: HeaderMap, retry: string): (count: nat)
    ensures count <= Decimal.U64_MAX
  {
    var text := GetStr(headers, retry);
    var count := if text.Some? then Decimal.ParseUnsigned(text.value, Decimal.U64_MAX) else None;
    if count.Some? then count.value else 0
  }

  function Saturated(n: nat): nat {
    if n <= Decimal.U64_MAX then n else Decimal.U64_MAX
  }

  function CountedAgain(headers: HeaderMap, retry: string): HeaderMap {
    headers[retry := Encode(Decimal.ToText(Saturated(RetryCount(headers, retry) + 1)))]
  }

  /** The milliseconds the delayed exchange holds a message for. */
  function DelayMillis(ttl: nat): I64 {
    var millis := ttl / NANOS_PER_MILLI;
    if millis <= I64_MAX then millis else I64_MAX
  }

  /** The properties of a copy on its way to `target`. */
  function Delayed(properties: Properties, target: DelayTarget, ttl: nat): Properties {
    match target
    case WaitingQueue(_) => properties.(expiration := Some(ExpirationMillis(ttl)))
    case DelayedExchange(_, _) =>
      properties.(headers := Some(Insert(properties.Entries(), X_DELAY, LongLongInt(DelayMillis(ttl)))))
  }

  function Exchange(target: DelayTarget): string {
    match target
    case WaitingQueue(_) => ""
    case DelayedExchange(exchange, _) => exchange
  }

  function RoutingKey(target: DelayTarget): string {
    match target
    case WaitingQueue(queue) => queue
    case DelayedExchange(_, routingKey) => routingKey
  }

  /** `frame` is the delayed copy of a delivery: same payload, headers counted once more. */
  ghost predicate IsCopy(
    frame: Frame, payload: Bytes, headers: HeaderMap, retry: string, target: DelayTarget, ttl: nat)
  {
    && frame.Publish?
    && frame.exchange == Exchange(target) && frame.routingKey == RoutingKey(target)
    && frame.payload == payload
    && exists p :: Carries(p, CountedAgain(headers, retry), RedeliveryOptions(headers)) &&
        frame.properties == Delayed(p, target, ttl)
  }

  /** `text` is a count of milliseconds: the whole ones of `ttl`, 1 for a shorter time to live that is
      not zero, and never more than a 64-bit word holds. */
  ghost predicate SpellsMillis(text: string, ttl: nat) {
    Decimal.ParseUnsigned(text, Decimal.U64_MAX) ==
    Some(if 0 < ttl < 1_000_000 then 1
         else if ttl / 1_000_000 < Decimal.U64_MAX then ttl / 1_000_000 else Decimal.U64_MAX)
  }

  /** The frame waits for `ttl` before it comes back: on a waiting queue as a message that expires, and
      in the delayed exchange as one that carries its delay, which a signed 64-bit word has to hold. */
  ghost predicate WaitsFor(frame: Frame, target: DelayTarget, ttl: nat) {
    && frame.Publish?
    && match target
       case WaitingQueue(queue) =>
         && frame.exchange == "" && frame.routingKey == queue
         && frame.properties.expiration.Some? && SpellsMillis(frame.properties.expiration.value, ttl)
       case DelayedExchange(exchange, routingKey) =>
         && frame.exchange == exchange && frame.routingKey == routingKey && frame.properties.expiration.None?
         && Lookup(frame.properties.Entries(), "x-delay") ==
            Some(LongLongInt(if ttl / 1_000_000 < I64_MAX then ttl / 1_000_000 else I64_MAX))
  }

  /** `n` is the count in a delivery's headers: the number its retry header spells, or 0. */
  ghost predicate HasCount(headers: HeaderMap, retry: string, n: nat) {
    if retry in headers && Decode(headers[retry]).Some? then
      var read := Decimal.ParseUnsigned(Decode(headers[retry]).value, Decimal.U64_MAX);
      n == if read.Some? then read.value else 0
    else n == 0
  }

  /** The frame says what the delivery said, counted once more: persistent, of the priority the
      delivery reported, and with every other header it could carry. */
  ghost predicate SaysAgain(frame: Frame, headers: HeaderMap, retry: string) {
    && frame.Publish? && KeepsSettings(frame.properties, headers) && CountsOneMore(frame.properties, headers, retry)
    && KeepsIdentity(frame.properties, headers, retry)
    && forall name | name in headers && name != retry && !IsIdentity(name) && name != "x-delay" ::
         Lookup(frame.properties.Entries(), name) == Some(LongString(headers[name]))
  }

  ghost predicate KeepsSettings(sent: Properties, headers: HeaderMap) {
    && sent.deliveryMode == Some(2)
    && if PRIORITY_HEADER in headers && Decode(headers[PRIORITY_HEADER]).Some? then
         sent.priority == Decimal.ParseUnsigned(Decode(headers[PRIORITY_HEADER]).value, 255)
       else sent.priority.None?
  }

  ghost predicate KeepsIdentity(sent: Properties, headers: HeaderMap, retry: string) {
    !IsIdentity(retry) ==>
      && sent.contentType == GetStr(headers, "content-type")
      && sent.correlationId == GetStr(headers, "correlation-id")
      && sent.replyTo == GetStr(headers, "reply-to")
      && sent.messageId == GetStr(headers, "message-id")
  }

  ghost predicate CountsOneMore(sent: Properties, headers: HeaderMap, retry: string) {
    forall n: nat | HasCount(headers, retry, n) && !IsIdentity(retry) && retry != "x-delay" ::
      && Lookup(sent.Entries(), retry).Some? && Lookup(sent.Entries(), retry).value.LongString?
      && var text := Decode(Lookup(sent.Entries(), retry).value.text);
         && text.Some?
         && Decimal.ParseUnsigned(text.value, Decimal.U64_MAX) == Some(if n < Decimal.U64_MAX then n + 1 else n)
  }

  lemma ExpirationSpellsMillis(ttl: nat)
    ensures SpellsMillis(ExpirationMillis(ttl), ttl)
  {
    Decimal.ParseOfText(Millis(ttl), Decimal.U64_MAX);
    hide Decimal.ToText, Decimal.ParseUnsigned;
  }

  /** Every delayed copy waits for the time asked for. */
  lemma CopyWaits(frame: Frame, payload: Bytes, headers: HeaderMap, retry: string, target: DelayTarget, ttl: nat)
    requires IsCopy(frame, payload, headers, retry, target, ttl)
    ensures WaitsFor(frame, target, ttl)
  {
    hide SpellsMillis, ExpirationMillis, Insert, InNameOrder, Lookup, CountedAgain, GetStr;
    ExpirationSpellsMillis(ttl);
    var p :| Carries(p, CountedAgain(headers, retry), RedeliveryOptions(headers)) &&
        frame.properties == Delayed(p, target, ttl);
    InsertLooksUp(p.Entries(), X_DELAY, LongLongInt(DelayMillis(ttl)), X_DELAY);
  }

  lemma OptionsAreTheDeliverys(p: Properties, headers: HeaderMap, counted: HeaderMap)
    requires Carries(p, counted, RedeliveryOptions(headers))
    ensures KeepsSettings(p, headers)
  {
    hide Decode, Decimal.Value, TableCarries;
  }

  lemma HasItsCount(headers: HeaderMap, retry: string, n: nat)
    ensures HasCount(headers, retry, n) <==> n == RetryCount(headers, retry)
  {
    hide Decode, Decimal.ParseUnsigned;
  }

  lemma InTheTable(p: Properties, headers: HeaderMap, options: PublishOptions, name: string)
    requires Carries(p, headers, options) && name in headers && !IsIdentity(name)
    ensures Lookup(p.Entries(), name) == Some(LongString(headers[name]))
  {
    hide InNameOrder, Lookup, GetStr, ExpirationMillis;
  }

  lemma CountText(headers: HeaderMap, retry: string) returns (text: string)
    ensures retry in CountedAgain(headers, retry) && Decode(CountedAgain(headers, retry)[retry]) == Some(text)
    ensures Decimal.ParseUnsigned(text, Decimal.U64_MAX) == Some(Saturated(RetryCount(headers, retry) + 1))
  {
    hide Decode, Encode, Decimal.ToText, Decimal.ParseUnsigned, RetryCount;
    var count := Saturated(RetryCount(headers, retry) + 1);
    text := Decimal.ToText(count);
    DecodesIffEncodes(Encode(text), text);
    Decimal.ParseOfText(count, Decimal.U64_MAX);
  }

  lemma CountedOnce(p: Properties, headers: HeaderMap, retry: string)
    requires Carries(p, CountedAgain(headers, retry), RedeliveryOptions(headers))
    ensures CountsOneMore(p, headers, retry)
  {
    hide Carries, CountedAgain, Lookup, Decode, Encode, Decimal.ParseUnsigned, RedeliveryOptions, HasCount, RetryCount;
    hide IsIdentity;
    var text := CountText(headers, retry);
    if !IsIdentity(retry) {
      InTheTable(p, CountedAgain(headers, retry), RedeliveryOptions(headers), retry);
    }
    forall n: nat | HasCount(headers, retry, n) ensures n == RetryCount(headers, retry) {
      HasItsCount(headers, retry, n);
    }
  }

  lemma DelayChangesNoOther(p: Properties, target: DelayTarget, ttl: nat, name: string)
    requires name != X_DELAY
    ensures Lookup(Delayed(p, target, ttl).Entries(), name) == Lookup(p.Entries(), name)
  {
    hide Lookup, Insert, ExpirationMillis;
    InsertLooksUp(p.Entries(), X_DELAY, LongLongInt(DelayMillis(ttl)), name);
  }

  lemma DelayedSaysAgain(p: Properties, sent: Properties, headers: HeaderMap, retry: string)
    requires KeepsSettings(p, headers) && CountsOneMore(p, headers, retry)
    requires sent.deliveryMode == p.deliveryMode && sent.priority == p.priority
    requires forall name | name != X_DELAY :: Lookup(sent.Entries(), name) == Lookup(p.Entries(), name)
    ensures KeepsSettings(sent, headers) && CountsOneMore(sent, headers, retry)
  {
    hide Lookup, Decode, Decimal.ParseUnsigned, HasCount, IsIdentity;
  }

  lemma IdentityIsTheDeliverys(p: Properties, headers: HeaderMap, retry: string)
    requires Carries(p, CountedAgain(headers, retry), RedeliveryOptions(headers))
    ensures KeepsIdentity(p, headers, retry)
  {
    hide TableCarries, Decode, Encode, Decimal.ToText, RetryCount, RedeliveryOptions;
    NamesDiffer();
  }

  lemma DelayedKeepsIdentity(p: Properties, target: DelayTarget, ttl: nat, headers: HeaderMap, retry: string)
    requires KeepsIdentity(p, headers, retry)
    ensures KeepsIdentity(Delayed(p, target, ttl), headers, retry)
  {
    hide Insert, ExpirationMillis, GetStr, IsIdentity;
  }

  /** Every delayed copy says what its delivery said, counted once more. */
  lemma CopySaysAgain(frame: Frame, payload: Bytes, headers: HeaderMap, retry: string, target: DelayTarget, ttl: nat)
    requires IsCopy(frame, payload, headers, retry, target, ttl)
    ensures SaysAgain(frame, headers, retry)
  {
    hide Carries, Lookup, CountedAgain, RedeliveryOptions, KeepsSettings, CountsOneMore, Insert, ExpirationMillis;
    hide IsIdentity;
    var counted := CountedAgain(headers, retry);
    var p :| Carries(p, counted, RedeliveryOptions(headers)) && frame.properties == Delayed(p, target, ttl);
    OptionsAreTheDeliverys(p, headers, counted);
    CountedOnce(p, headers, retry);
    IdentityIsTheDeliverys(p, headers, retry);
    DelayedKeepsIdentity(p, target, ttl, headers, retry);
    hide KeepsIdentity;
    forall name | name != X_DELAY
      ensures Lookup(frame.properties.Entries(), name) == Lookup(p.Entries(), name)
    {
      DelayChangesNoOther(p, target, ttl, name);
    }
    DelayedSaysAgain(p, frame.properties, headers, retry);
    forall name | name in headers && name != retry && !IsIdentity(name) && name != X_DELAY
      ensures Lookup(frame.properties.Entries(), name) == Some(LongString(headers[name]))
    {
      OthersStay(headers, retry, name);
      InTheTable(p, counted, RedeliveryOptions(headers), name);
    }
  }

  lemma OthersStay(headers: HeaderMap, retry: string, name: string)
    requires name in headers && name != retry
    ensures name in CountedAgain(headers, retry) && CountedAgain(headers, retry)[name] == headers[name]
  {
    hide Encode, Decimal.ToText, RetryCount;
  }

  /** The wiring a subscriber threads into each delivery: its own channel and where copies go. */
  class DelayContext {
    const shared: SharedChannel
    const target: DelayTarget
    const retry: string

    constructor (shared: SharedChannel, delay: Delay, origin: string, retry: string)
      ensures this.shared == shared && this.target == TargetFor(delay, origin) && this.retry == retry
      ensures delay == DlxTtl(None) ==> target == WaitingQueue(origin + ".retry")
      ensures delay.DlxTtl? && delay.waitingQueue.Some? ==> target == WaitingQueue(delay.waitingQueue.value)
      ensures delay == DelayedMessageExchange(None) ==> target == DelayedExchange(origin + ".delay", origin)
      ensures delay.DelayedMessageExchange? && delay.delayed.Some? ==>
                target == DelayedExchange(delay.delayed.value, origin)
    {
      this.shared := shared;
      this.target := TargetFor(delay, origin);
      this.retry := retry;
    }

    /** Sends the copy on the delivery's own channel, or sends nothing. */
    method Republish(payload: Bytes, headers: HeaderMap, ttl: nat) returns (r: Result<(), AmqpError>)
      modifies shared
      ensures r.Err? ==> shared.channel == old(shared.channel)
      ensures r.Ok? ==> old(shared.channel).Live()
      ensures r.Ok? ==>
                exists copy :: IsCopy(copy, payload, headers, retry, target, ttl) &&
                    WaitsFor(copy, target, ttl) && SaysAgain(copy, headers, retry) &&
                    shared.channel == old(shared.channel).Send(copy)
      ensures r.Ok? <==>
              && old(shared.channel).Live() && Sendable(CountedAgain(headers, retry))
              && IsShort(Exchange(target)) && IsShort(RoutingKey(target))
    {
      var properties := PropertiesForPublish(CountedAgain(headers, retry), RedeliveryOptions(headers));
      if properties.Err? {
        return Err(properties.error);
      }
      var exchange := Short(Exchange(target));
      var routingKey := Short(RoutingKey(target));
      if exchange.Err? || routingKey.Err? {
        return Err(InvalidOptions);
      }
      var copy := Frame.Publish(exchange.value, routingKey.value, payload, Delayed(properties.value, target, ttl));
      assert IsCopy(copy, payload, headers, retry, target, ttl);
      CopyWaits(copy, payload, headers, retry, target, ttl);
      CopySaysAgain(copy, payload, headers, retry, target, ttl);
      hide WaitsFor, SaysAgain, IsCopy;
      var sent := shared.Send(copy);
      return if sent then Ok(()) else Err(AmqpError.Publish);
    }
  }

  // Rounds.

  /** What a release may do to a copy: clear its expiration, and set headers the server owns, in
      whatever spelling. */
  ghost predicate Released(sent: Properties, got: Properties, owned: set<string>) {
    && got.expiration.None?
    && got.contentType == sent.contentType && got.correlationId == sent.correlationId
    && got.replyTo == sent.replyTo && got.messageId == sent.messageId
    && got.priority == sent.priority
    && InNameOrder(got.Entries())
    && forall name | Normal(name) !in owned :: Lookup(got.Entries(), name) == Lookup(sent.Entries(), name)
  }

  /** One delayed redelivery: the handler saw `before`, the copy went out and came back as `after`. */
  ghost predicate Round(
    before: HeaderMap, after: HeaderMap, retry: string, owned: set<string>, target: DelayTarget)
  {
    exists p, ttl, got ::
      && Carries(p, CountedAgain(before, retry), RedeliveryOptions(before))
      && Released(Delayed(p, target, ttl), got, owned)
      && after == HeadersFrom(got)
  }

  /** The server, and the delayed exchange where one is used, own none of the names that carry a
      message's identity, its priority or its retry count. Names are as header maps keep them. */
  ghost predicate OwnsApart(owned: set<string>, retry: string, target: DelayTarget) {
    && Normal(retry) == retry && !IsIdentity(retry) && retry != PRIORITY_HEADER
    && retry !in owned && PRIORITY_HEADER !in owned
    && (forall name | name in owned :: !IsIdentity(name))
    && (target.DelayedExchange? ==> X_DELAY in owned)
  }

  ghost predicate TextIdentities(headers: HeaderMap) {
    forall name | IsIdentity(name) && name in headers :: Decode(headers[name]).Some?
  }

  function Outside(headers: HeaderMap, owned: set<string>): HeaderMap {
    map name | name in headers && name !in owned :: headers[name]
  }

  lemma ReportsPriorityAlone(headers: HeaderMap)
    ensures Reported(RedeliveryOptions(headers)).Keys <= {PRIORITY_HEADER}
    ensures Reported(RedeliveryOptions(headers)) != map[] ==> PRIORITY_HEADER in headers
  {
    hide Decode, Encode, Decimal.ToText, Decimal.ParseUnsigned;
  }

  lemma ReportsOwnPriority(headers: HeaderMap, retry: string)
    ensures Reported(RedeliveryOptions(headers)) + Kept(CountedAgain(headers, retry)) ==
            Kept(CountedAgain(headers, retry))
  {
    ReportsPriorityAlone(headers);
    NamesDiffer();
    hide Reported, RedeliveryOptions, Decode, Encode, RetryCount, Decimal.ToText;
    assert PRIORITY_HEADER in headers ==> PRIORITY_HEADER in Kept(CountedAgain(headers, retry));
  }

  lemma DelayNameIsNormal()
    ensures Normal(X_DELAY) == X_DELAY
  {
    var name: string := X_DELAY;
    assert forall i | 0 <= i < |name| :: !('A' <= name[i] <= 'Z');
    hide Normal;
    LowerCaseIsNormal(name);
  }

  lemma DelayedAnswer(p: Properties, target: DelayTarget, ttl: nat, got: Properties, owned: set<string>, name: string)
    requires InNameOrder(p.Entries())
    requires Released(Delayed(p, target, ttl), got, owned)
    requires target.DelayedExchange? ==> X_DELAY in owned
    requires name !in owned
    ensures Answer(got.Entries(), name) == Answer(p.Entries(), name)
  {
    hide Normal, Answer;
    DelayNameIsNormal();
    if target.DelayedExchange? {
      InsertRebinds(p.Entries(), X_DELAY, LongLongInt(DelayMillis(ttl)));
    }
    SameAnswer(got.Entries(), p.Entries(), name);
  }

  lemma ReleasedProperty(p: Properties, target: DelayTarget, ttl: nat, got: Properties, owned: set<string>,
      name: string)
    requires p.expiration.None? && Released(Delayed(p, target, ttl), got, owned)
    ensures PropertyOf(got, name) == PropertyOf(p, name)
  {
    hide Normal, InNameOrder, Lookup, Insert, ExpirationMillis;
  }

  lemma ReleasedNative(p: Properties, target: DelayTarget, ttl: nat, got: Properties, owned: set<string>, name: string)
    requires p.expiration.None? && Released(Delayed(p, target, ttl), got, owned)
    ensures name in Native(got) <==> name in Native(p)
    ensures name in Native(got) ==> Native(got)[name] == Native(p)[name]
  {
    ReleasedProperty(p, target, ttl, got, owned, name);
    hide Native, Delayed, Released, PropertyOf;
    NativeIs(p, name);
    NativeIs(got, name);
  }

  lemma ReleasedHeader(p: Properties, target: DelayTarget, ttl: nat, got: Properties, owned: set<string>, name: string)
    requires InNameOrder(p.Entries()) && p.expiration.None?
    requires Released(Delayed(p, target, ttl), got, owned)
    requires target.DelayedExchange? ==> X_DELAY in owned
    requires name !in owned
    ensures name in HeadersFrom(got) <==> name in HeadersFrom(p)
    ensures name in HeadersFrom(got) ==> HeadersFrom(got)[name] == HeadersFrom(p)[name]
  {
    DelayedAnswer(p, target, ttl, got, owned, name);
    ReleasedNative(p, target, ttl, got, owned, name);
    hide Native, PropertyOf, HeadersFrom, Answer, Delayed, Released, InNameOrder;
    TableShadowsNative(p, name);
    TableShadowsNative(got, name);
  }

  lemma SameOutside(a: HeaderMap, b: HeaderMap, owned: set<string>, name: string)
    requires Outside(a, owned) == Outside(b, owned) && name !in owned
    ensures name in a <==> name in b
    ensures name in a ==> a[name] == b[name]
    ensures GetStr(a, name) == GetStr(b, name)
  {
    assert name in Outside(a, owned) <==> name in a;
    assert name in Outside(b, owned) <==> name in b;
    assert name in a ==> Outside(a, owned)[name] == a[name];
    assert name in b ==> Outside(b, owned)[name] == b[name];
  }

  lemma CountedIsNormalised(before: HeaderMap, retry: string)
    requires Normalised(before) && Normal(retry) == retry
    ensures Normalised(CountedAgain(before, retry))
  {
    hide Normal, Encode, RetryCount, Decimal.ToText;
  }

  lemma OptionsCarry(p: Properties, headers: HeaderMap, before: HeaderMap)
    requires Carries(p, headers, RedeliveryOptions(before))
    ensures InNameOrder(p.Entries()) && p.expiration.None?
  {
    hide InNameOrder, Lookup, GetStr, ExpirationMillis, Decimal.ParseUnsigned;
  }

  lemma CountedRoundTrips(p: Properties, before: HeaderMap, retry: string)
    requires Carries(p, CountedAgain(before, retry), RedeliveryOptions(before))
    requires Normalised(before) && Normal(retry) == retry
    ensures HeadersFrom(p) == Kept(CountedAgain(before, retry))
  {
    hide Normal, Normalised, HeadersFrom, Reported, RedeliveryOptions, CountedAgain, Carries, Kept;
    ReportsOwnPriority(before, retry);
    CountedIsNormalised(before, retry);
    HeadersRoundTrip(p, CountedAgain(before, retry), RedeliveryOptions(before));
  }

  /** One round changes, outside the server's headers, nothing but the count, which it raises by one,
      and the identity headers that are not text, which it loses. */
  lemma OneRound(before: HeaderMap, after: HeaderMap, retry: string, owned: set<string>, target: DelayTarget)
    requires Round(before, after, retry, owned, target) && Normalised(before)
    requires OwnsApart(owned, retry, target)
    ensures Outside(after, owned) == Outside(Kept(CountedAgain(before, retry)), owned)
  {
    hide Normal, Normalised, Carries, Released, Delayed, HeadersFrom, Outside, CountedAgain, IsIdentity, Kept;
    var counted := CountedAgain(before, retry);
    var p, ttl, got :|
      && Carries(p, counted, RedeliveryOptions(before))
      && Released(Delayed(p, target, ttl), got, owned)
      && after == HeadersFrom(got);
    CountedRoundTrips(p, before, retry);
    OptionsCarry(p, counted, before);
    forall name | name !in owned
      ensures name in after <==> name in Kept(counted)
      ensures name in after ==> after[name] == Kept(counted)[name]
    {
      ReleasedHeader(p, target, ttl, got, owned, name);
    }
    SameEverywhereOutside(after, Kept(counted), owned);
  }

  /** What a delivery shows after a round is keyed as every header map is. */
  lemma RoundIsNormalised(
    before: HeaderMap, after: HeaderMap, retry: string, owned: set<string>, target: DelayTarget)
    requires Round(before, after, retry, owned, target)
    ensures Normalised(after)
  {
    hide Normal, Normalised, Carries, Released, HeadersFrom;
    var p, ttl, got :|
      && Carries(p, CountedAgain(before, retry), RedeliveryOptions(before))
      && Released(Delayed(p, target, ttl), got, owned)
      && after == HeadersFrom(got);
    DecodedIsNormalised(got);
  }

  /** An identity header comes through a round exactly if it is text. */
  lemma OnlyTextIdentitiesCome(
    before: HeaderMap, after: HeaderMap, retry: string, owned: set<string>, target: DelayTarget, name: string)
    requires Round(before, after, retry, owned, target) && Normalised(before)
    requires OwnsApart(owned, retry, target) && IsIdentity(name) && name in before
    ensures name in after <==> Decode(before[name]).Some?
  {
    hide Round, Normal, Normalised, IsIdentity, Decode, Kept, CountedAgain, Outside;
    OneRound(before, after, retry, owned, target);
    SameOutside(after, Kept(CountedAgain(before, retry)), owned, name);
    KeptIdentity(before, retry, name);
  }

  lemma KeptIdentity(before: HeaderMap, retry: string, name: string)
    requires IsIdentity(name) && !IsIdentity(retry) && name in before
    ensures name in Kept(CountedAgain(before, retry)) <==> Decode(before[name]).Some?
  {
    hide IsIdentity, Decode, Encode, RetryCount, Decimal.ToText;
  }

  lemma ByteIsNoText()
    ensures Decode([255]).None?
  {
  }

  /** An identity header of the single byte 255, which no text has, is gone after the first round. */
  lemma BinaryIdentityIsLost(
    before: HeaderMap, after: HeaderMap, retry: string, owned: set<string>, target: DelayTarget, name: string)
    requires Round(before, after, retry, owned, target) && Normalised(before)
    requires OwnsApart(owned, retry, target) && IsIdentity(name) && name in before && before[name] == [255]
    ensures name !in after
  {
    hide Decode, Round, OwnsApart, Normalised, IsIdentity;
    ByteIsNoText();
    OnlyTextIdentitiesCome(before, after, retry, owned, target, name);
  }

  lemma SameEverywhereOutside(a: HeaderMap, b: HeaderMap, owned: set<string>)
    requires forall name | name !in owned :: (name in a <==> name in b) && (name in a ==> a[name] == b[name])
    ensures Outside(a, owned) == Outside(b, owned)
  {
    assert Outside(a, owned).Keys == Outside(b, owned).Keys;
  }

  /** The headers of the first delivery with only the count replaced, as `k` rounds leave it. */
  function After(first: HeaderMap, k: nat, retry: string): HeaderMap {
    if k == 0 then first
    else first[retry := Encode(Decimal.ToText(Saturated(RetryCount(first, retry) + k)))]
  }

  function CountAfter(first: HeaderMap, k: nat, retry: string): nat {
    if k == 0 then RetryCount(first, retry) else Saturated(RetryCount(first, retry) + k)
  }

  lemma CountIsPlusRounds(first: HeaderMap, k: nat, retry: string)
    ensures var count := RetryCount(first, retry);
            CountAfter(first, k, retry) == if count + k < Decimal.U64_MAX then count + k else Decimal.U64_MAX
  {
  }

  lemma CountReadsBack(headers: HeaderMap, retry: string, n: nat)
    requires n <= Decimal.U64_MAX
    ensures RetryCount(headers[retry := Encode(Decimal.ToText(n))], retry) == n
  {
    DecodesIffEncodes(Encode(Decimal.ToText(n)), Decimal.ToText(n));
    Decimal.ParseOfText(n, Decimal.U64_MAX);
  }

  lemma SaturatedAgain(n: nat)
    ensures Saturated(Saturated(n) + 1) == Saturated(n + 1)
  {
  }

  lemma Overwritten(headers: HeaderMap, name: string, first: Bytes, second: Bytes)
    ensures headers[name := first][name := second] == headers[name := second]
  {
  }

  lemma CountOfAfter(first: HeaderMap, k: nat, retry: string)
    ensures RetryCount(After(first, k, retry), retry) == CountAfter(first, k, retry)
  {
    if k > 0 {
      CountReadsBack(first, retry, Saturated(RetryCount(first, retry) + k));
    }
  }

  lemma CountedAfter(first: HeaderMap, k: nat, retry: string)
    ensures CountedAgain(After(first, k, retry), retry) == After(first, k + 1, retry)
  {
    hide Decimal.ToText, Encode, GetStr;
    CountOfAfter(first, k, retry);
    if k > 0 {
      var count := RetryCount(first, retry);
      SaturatedAgain(count + k);
      Overwritten(
        first, retry, Encode(Decimal.ToText(Saturated(count + k))), Encode(Decimal.ToText(Saturated(count + k + 1))));
    }
  }

  lemma KeptCountedOutside(a: HeaderMap, b: HeaderMap, retry: string, owned: set<string>)
    requires Outside(Kept(a), owned) == Outside(Kept(b), owned) && retry !in owned && !IsIdentity(retry)
    ensures Outside(Kept(CountedAgain(a, retry)), owned) == Outside(Kept(CountedAgain(b, retry)), owned)
  {
    SameOutside(Kept(a), Kept(b), owned, retry);
    SameCount(a, b, retry);
    var count := Encode(Decimal.ToText(Saturated(RetryCount(a, retry) + 1)));
    hide Decode, Encode, RetryCount, Decimal.ToText, IsIdentity, Outside;
    forall name | name !in owned
      ensures name in Kept(a[retry := count]) <==> name in Kept(b[retry := count])
      ensures name in Kept(a[retry := count]) ==> Kept(a[retry := count])[name] == Kept(b[retry := count])[name]
    {
      SameOutside(Kept(a), Kept(b), owned, name);
    }
    SameEverywhereOutside(Kept(a[retry := count]), Kept(b[retry := count]), owned);
  }

  lemma SameCount(a: HeaderMap, b: HeaderMap, retry: string)
    requires GetStr(Kept(a), retry) == GetStr(Kept(b), retry) && !IsIdentity(retry)
    ensures RetryCount(a, retry) == RetryCount(b, retry)
  {
    hide Decode, IsIdentity, Decimal.ParseUnsigned;
    assert GetStr(Kept(a), retry) == GetStr(a, retry) && GetStr(Kept(b), retry) == GetStr(b, retry);
  }

  lemma KeptOutside(a: HeaderMap, b: HeaderMap, owned: set<string>)
    requires Outside(a, owned) == Outside(b, owned)
    ensures Outside(Kept(a), owned) == Outside(Kept(b), owned)
  {
    hide Decode, IsIdentity;
    forall name | name !in owned
      ensures name in Kept(a) <==> name in Kept(b)
      ensures name in Kept(a) ==> Kept(a)[name] == Kept(b)[name]
    {
      SameOutside(a, b, owned, name);
    }
    SameEverywhereOutside(Kept(a), Kept(b), owned);
  }

  lemma KeptTwice(headers: HeaderMap)
    ensures Kept(Kept(headers)) == Kept(headers)
  {
  }

  lemma RoundStep(
    first: HeaderMap, k: nat, before: HeaderMap, after: HeaderMap, retry: string, owned: set<string>,
    target: DelayTarget)
    requires Round(before, after, retry, owned, target) && Normalised(before)
    requires OwnsApart(owned, retry, target)
    requires Outside(Kept(before), owned) == Outside(Kept(After(first, k, retry)), owned)
    ensures Outside(after, owned) == Outside(Kept(After(first, k + 1, retry)), owned)
    ensures Outside(Kept(after), owned) == Outside(Kept(After(first, k + 1, retry)), owned)
  {
    hide Round, Outside, CountedAgain, After, RetryCount, Normal, Kept;
    OneRound(before, after, retry, owned, target);
    KeptCountedOutside(before, After(first, k, retry), retry, owned);
    CountedAfter(first, k, retry);
    KeptOutside(after, Kept(After(first, k + 1, retry)), owned);
    KeptTwice(After(first, k + 1, retry));
  }

  /** The headers each delivery of one message showed its handler, every delivery a delayed retry of
      the one before it. */
  ghost predicate Retries(deliveries: seq<HeaderMap>, retry: string, owned: set<string>, target: DelayTarget) {
    && deliveries != [] && Normalised(deliveries[0])
    && forall i | 0 <= i < |deliveries| - 1 :: Round(deliveries[i], deliveries[i + 1], retry, owned, target)
  }

  lemma EachIsNormalised(
    deliveries: seq<HeaderMap>, k: nat, retry: string, owned: set<string>, target: DelayTarget)
    requires Retries(deliveries, retry, owned, target) && k < |deliveries|
    ensures Normalised(deliveries[k])
  {
    hide Round, Normalised;
    if k > 0 {
      assert Round(deliveries[k - 1], deliveries[(k - 1) + 1], retry, owned, target);
      RoundIsNormalised(deliveries[k - 1], deliveries[k], retry, owned, target);
    }
  }

  lemma AfterNoRound(first: HeaderMap, retry: string)
    ensures After(first, 0, retry) == first
  {
  }

  lemma {:induction false} RoundsKept(
    deliveries: seq<HeaderMap>, k: nat, retry: string, owned: set<string>, target: DelayTarget)
    requires Retries(deliveries, retry, owned, target) && k < |deliveries|
    requires OwnsApart(owned, retry, target)
    ensures Outside(Kept(deliveries[k]), owned) == Outside(Kept(After(deliveries[0], k, retry)), owned)
    ensures k > 0 ==> Outside(deliveries[k], owned) == Outside(Kept(After(deliveries[0], k, retry)), owned)
  {
    hide Round, Outside, OwnsApart, Kept, Normalised, After;
    if k == 0 {
      AfterNoRound(deliveries[0], retry);
    } else {
      RoundsKept(deliveries, k - 1, retry, owned, target);
      EachIsNormalised(deliveries, k - 1, retry, owned, target);
      assert Round(deliveries[k - 1], deliveries[(k - 1) + 1], retry, owned, target);
      hide Retries;
      RoundStep(deliveries[0], k - 1, deliveries[k - 1], deliveries[k], retry, owned, target);
    }
  }

  /** After any number of delayed redeliveries the delivery is, outside the server's own headers, the
      first one with only the count replaced, and without the identity headers that are not text. */
  lemma {:induction false} RoundsOutside(
    deliveries: seq<HeaderMap>, k: nat, retry: string, owned: set<string>, target: DelayTarget)
    requires Retries(deliveries, retry, owned, target) && 0 < k < |deliveries|
    requires OwnsApart(owned, retry, target)
    ensures Outside(deliveries[k], owned) == Outside(Kept(After(deliveries[0], k, retry)), owned)
    ensures TextIdentities(deliveries[0]) ==>
              Outside(deliveries[k], owned) == Outside(After(deliveries[0], k, retry), owned)
  {
    RoundsKept(deliveries, k, retry, owned, target);
    if TextIdentities(deliveries[0]) {
      TextIsKept(deliveries[0], k, retry);
    }
  }

  lemma TextIsKept(first: HeaderMap, k: nat, retry: string)
    requires TextIdentities(first) && !IsIdentity(retry)
    ensures Kept(After(first, k, retry)) == After(first, k, retry)
  {
    hide Decode, Encode, RetryCount, Decimal.ToText, IsIdentity;
  }

  /** After any number of delayed redeliveries the count is the first one plus the rounds, saturated
      at 64 bits, and the settings of every copy are those of the first. */
  lemma {:induction false} RetryRounds(
    deliveries: seq<HeaderMap>, k: nat, retry: string, owned: set<string>, target: DelayTarget)
    requires Retries(deliveries, retry, owned, target) && k < |deliveries|
    requires OwnsApart(owned, retry, target)
    ensures var first := RetryCount(deliveries[0], retry);
            RetryCount(deliveries[k], retry) == if first + k < Decimal.U64_MAX then first + k else Decimal.U64_MAX
    ensures RedeliveryOptions(deliveries[k]) == RedeliveryOptions(deliveries[0])
  {
    var first := deliveries[0];
    var expected := After(first, k, retry);
    RoundsKept(deliveries, k, retry, owned, target);
    AfterSettings(first, k, retry);
    CountOfAfter(first, k, retry);
    CountIsPlusRounds(first, k, retry);
    hide After, Kept, RetryCount, CountAfter, RedeliveryOptions, GetStr, Retries, IsIdentity, Normal, Outside;
    SameOutside(Kept(deliveries[k]), Kept(expected), owned, retry);
    SameOutside(Kept(deliveries[k]), Kept(expected), owned, PRIORITY_HEADER);
    SameCount(deliveries[k], expected, retry);
    SameSettings(deliveries[k], expected);
  }

  lemma AfterSettings(first: HeaderMap, k: nat, retry: string)
    requires retry != PRIORITY_HEADER
    ensures RedeliveryOptions(After(first, k, retry)) == RedeliveryOptions(first)
  {
    hide Decode, Encode, RetryCount, Decimal.ToText, Decimal.ParseUnsigned;
  }

  lemma SameSettings(a: HeaderMap, b: HeaderMap)
    requires GetStr(Kept(a), PRIORITY_HEADER) == GetStr(Kept(b), PRIORITY_HEADER)
    ensures RedeliveryOptions(a) == RedeliveryOptions(b)
  {
    NamesDiffer();
    hide Decode;
    assert GetStr(Kept(a), PRIORITY_HEADER) == GetStr(a, PRIORITY_HEADER);
    assert GetStr(Kept(b), PRIORITY_HEADER) == GetStr(b, PRIORITY_HEADER);
  }
}
