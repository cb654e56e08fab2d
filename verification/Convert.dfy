/** Header maps on their way into AMQP basic properties and out of them again. Four identity headers
    have native properties of their own; the rest become byte strings in the header table. */
module Convert {
  import opened Wrappers
  import opened Utf8
  import opened Amqp
  import opened Errors
  import Decimal
  import HeaderText

  /** Headers under their normalised names. */
  type HeaderMap = map<string, Bytes>

  function Lower(c: char): char {
    if 'A' <= c <= 'Z' then c + ' ' else c
  }

  /** A header name as a header map keeps it: its ASCII letters in lower case. */
  function Normal(name: string): string {
    if name == [] then [] else [Lower(name[0])] + Normal(name[1..])
  }

  predicate Normalised(headers: HeaderMap) {
    forall name | name in headers :: Normal(name) == name
  }

  lemma {:induction false} NormalIsNormal(name: string)
    ensures Normal(Normal(name)) == Normal(name)
  {
    if name != [] {
      NormalIsNormal(name[1..]);
    }
  }

  /** A name is kept letter by letter: A to Z become a to z, and no other character changes. */
  lemma {:induction false} NormalLetterByLetter(name: string)
    ensures |Normal(name)| == |name|
    ensures forall i | 0 <= i < |name| :: 'A' <= name[i] <= 'Z' ==>
              Normal(name)[i] == "abcdefghijklmnopqrstuvwxyz"[name[i] as int - 'A' as int]
    ensures forall i | 0 <= i < |name| :: !('A' <= name[i] <= 'Z') ==> Normal(name)[i] == name[i]
  {
    if name != [] {
      NormalLetterByLetter(name[1..]);
    }
  }

  /** In name order the normalised spelling of a name comes after every other. */
  lemma {:induction false} NormalIsLast(name: string)
    ensures name == Normal(name) || Before(name, Normal(name))
  {
    if name != [] {
      NormalIsLast(name[1..]);
      assert name == [name[0]] + name[1..];
    }
  }

  const PERSISTENT: Byte := 2
  const TRANSIENT: Byte := 1

  const CONTENT_TYPE := "content-type"
  const CORRELATION_ID := "correlation-id"
  const REPLY_TO := "reply-to"
  const MESSAGE_ID := "message-id"
  const PRIORITY_HEADER := "amqp-priority"
  const EXPIRATION_HEADER := "amqp-expiration"

  predicate IsIdentity(name: string) {
    name == CONTENT_TYPE || name == CORRELATION_ID || name == REPLY_TO || name == MESSAGE_ID
  }

  /** The settings of a single publish, each of them optional; a time to live is in nanoseconds. */
  datatype PublishOptions = PublishOptions(priority: Option<Byte>, expiration: Option<nat>, persistent: Option<bool>)
  {
    /** These settings, with `defaults` filling in for any that are absent. */
    function Over(defaults: PublishOptions): PublishOptions {
      PublishOptions(
        if priority.Some? then priority else defaults.priority,
        if expiration.Some? then expiration else defaults.expiration,
        if persistent.Some? then persistent else defaults.persistent)
    }
  }

  /** A message's own settings win, one by one, and the policy's fill in for those it leaves out. */
  lemma OwnSettingsWin(own: PublishOptions, policy: PublishOptions)
    ensures var all := own.Over(policy);
            && (own.priority.Some? ==> all.priority == own.priority)
            && (own.priority.None? ==> all.priority == policy.priority)
            && (own.expiration.Some? ==> all.expiration == own.expiration)
            && (own.expiration.None? ==> all.expiration == policy.expiration)
            && (own.persistent.Some? ==> all.persistent == own.persistent)
            && (own.persistent.None? ==> all.persistent == policy.persistent)
  {
  }

  datatype Properties = Properties(
    contentType: Option<ShortString>,
    correlationId: Option<ShortString>,
    replyTo: Option<ShortString>,
    messageId: Option<ShortString>,
    priority: Option<Byte>,
    expiration: Option<ShortString>,
    deliveryMode: Option<Byte>,
    headers: Option<Table>)
  {
    function Entries(): Table {
      if headers.Some? then headers.value else []
    }
  }

  /** The value of a header, if it is text. */
  function GetStr(headers: HeaderMap, name: string): Option<string> {
    if name in headers then Decode(headers[name]) else None
  }

  function Short(value: string): Result<ShortString, AmqpError> {
    if IsShort(value) then Ok(value) else Err(InvalidOptions)
  }

  /** A non-negative integer of any of the integer types. */
  function Counter(value: AmqpValue): Option<nat> {
    match IntegerOf(value)
    case Some(n) => if n >= 0 then Some(n) else None
    case None => None
  }

  // Expirations.

  const NANOS_PER_MILLI: int := 1_000_000

  function Millis(ttl: nat): (m: nat)
    ensures m <= Decimal.U64_MAX
  {
    var whole := if ttl / NANOS_PER_MILLI <= Decimal.U64_MAX then ttl / NANOS_PER_MILLI else Decimal.U64_MAX;
    if whole == 0 && ttl != 0 then 1 else whole
  }

  function ExpirationMillis(ttl: nat): ShortString {
    Decimal.CountIsShort(Millis(ttl));
    Decimal.ToText(Millis(ttl))
  }

  /** The expiration reads back as a count; it is the one that drops a message at once only for a
      zero time to live, never shrinks as the time to live grows, and is within a millisecond of it. */
  lemma ExpirationReadsBack(ttl: nat, longer: nat)
    requires ttl <= longer
    ensures Decimal.ParseUnsigned(ExpirationMillis(ttl), Decimal.U64_MAX) == Some(Millis(ttl))
    ensures ExpirationMillis(ttl) == "0" <==> ttl == 0
    ensures Millis(ttl) <= Millis(longer)
    ensures ttl / NANOS_PER_MILLI <= Decimal.U64_MAX ==>
              -NANOS_PER_MILLI < ttl - Millis(ttl) * NANOS_PER_MILLI < NANOS_PER_MILLI
  {
    Decimal.ParseOfText(Millis(ttl), Decimal.U64_MAX);
    if ExpirationMillis(ttl) == "0" {
      assert Decimal.ToText(0) == "0";
      Decimal.TextIsInjective(Millis(ttl), 0);
    }
    assert ttl / NANOS_PER_MILLI <= longer / NANOS_PER_MILLI;
  }

  // Publishing.

  /** Every identity header that is text fits a short string, and so does every other header's name. */
  ghost predicate Sendable(headers: HeaderMap) {
    && FitsShort(headers, CONTENT_TYPE) && FitsShort(headers, CORRELATION_ID)
    && FitsShort(headers, REPLY_TO) && FitsShort(headers, MESSAGE_ID)
    && NamesFit(headers)
  }

  predicate FitsShort(headers: HeaderMap, name: string) {
    GetStr(headers, name).Some? ==> IsShort(GetStr(headers, name).value)
  }

  ghost predicate NamesFit(headers: HeaderMap) {
    forall name | name in headers && !IsIdentity(name) :: IsShort(name)
  }

  ghost predicate TableCarries(table: Table, headers: HeaderMap, todo: set<string>) {
    && InNameOrder(table)
    && forall name :: Lookup(table, name) ==
         if name in headers && name !in todo && !IsIdentity(name) then Some(LongString(headers[name])) else None
  }

  /** `properties` say what `headers` and `options` say, each in the place AMQP has for it. */
  ghost predicate Carries(properties: Properties, headers: HeaderMap, options: PublishOptions) {
    && properties.deliveryMode == Some(if options.persistent == Some(false) then TRANSIENT else PERSISTENT)
    && properties.priority == options.priority
    && properties.expiration ==
       (if options.expiration.Some? then Some(ExpirationMillis(options.expiration.value)) else None)
    && properties.contentType == GetStr(headers, CONTENT_TYPE)
    && properties.correlationId == GetStr(headers, CORRELATION_ID)
    && properties.replyTo == GetStr(headers, REPLY_TO)
    && properties.messageId == GetStr(headers, MESSAGE_ID)
    && TableCarries(properties.Entries(), headers, {})
    && properties.headers != Some([])
  }

  method ShortHeader(headers: HeaderMap, name: string) returns (r: Result<Option<ShortString>, AmqpError>)
    ensures r.Ok? <==> FitsShort(headers, name)
    ensures r == if r.Ok? then Ok(GetStr(headers, name)) else Err(InvalidOptions)
  {
    var value := GetStr(headers, name);
    if value.None? {
      return Ok(None);
    }
    var short := Short(value.value);
    if short.Err? {
      return Err(short.error);
    }
    return Ok(Some(short.value));
  }

  method PropertiesForPublish(headers: HeaderMap, options: PublishOptions) returns (r: Result<Properties, AmqpError>)
    ensures r.Ok? <==> Sendable(headers)
    ensures r.Err? ==> r.error == InvalidOptions
    ensures r.Ok? ==> Carries(r.value, headers, options)
    // Messages survive a restart of the server unless their settings say otherwise.
    ensures r.Ok? ==> r.value.deliveryMode == Some(if options.persistent == Some(false) then 1 else 2)
  {
    var mode := if options.persistent == Some(false) then TRANSIENT else PERSISTENT;
    var expiration := if options.expiration.Some? then Some(ExpirationMillis(options.expiration.value)) else None;
    var contentType := ShortHeader(headers, CONTENT_TYPE);
    if contentType.Err? {
      return Err(contentType.error);
    }
    var correlationId := ShortHeader(headers, CORRELATION_ID);
    if correlationId.Err? {
      return Err(correlationId.error);
    }
    var replyTo := ShortHeader(headers, REPLY_TO);
    if replyTo.Err? {
      return Err(replyTo.error);
    }
    var messageId := ShortHeader(headers, MESSAGE_ID);
    if messageId.Err? {
      return Err(messageId.error);
    }
    var table := TableForPublish(headers);
    if table.Err? {
      return Err(table.error);
    }
    var entries := if table.value == [] then None else Some(table.value);
    return Ok(Properties(contentType.value, correlationId.value, replyTo.value, messageId.value,
                         options.priority, expiration, Some(mode), entries));
  }

  /** The header table, whatever order the map yields its headers in. */
  method TableForPublish(headers: HeaderMap) returns (r: Result<Table, AmqpError>)
    ensures r.Ok? <==> NamesFit(headers)
    ensures r == if r.Ok? then Ok(r.value) else Err(InvalidOptions)
    ensures r.Ok? ==> TableCarries(r.value, headers, {})
  {
    var table: Table := [];
    var todo := headers.Keys;
    while todo != {}
      invariant todo <= headers.Keys
      invariant TableCarries(table, headers, todo)
      invariant forall name | name in headers && name !in todo && !IsIdentity(name) :: IsShort(name)
    {
      var name :| name in todo;
      if !IsIdentity(name) {
        var short := Short(name);
        if short.Err? {
          return Err(short.error);
        }
        InsertRebinds(table, short.value, LongString(headers[name]));
        table := Insert(table, short.value, LongString(headers[name]));
      }
      todo := todo - {name};
    }
    return Ok(table);
  }

  // Receiving.

  function Put(headers: HeaderMap, name: string, value: Option<string>): HeaderMap {
    if value.Some? then headers[name := Encode(value.value)] else headers
  }

  function IdentityHeaders(properties: Properties): HeaderMap {
    var h := Put(map[], CONTENT_TYPE, properties.contentType);
    var h := Put(h, CORRELATION_ID, properties.correlationId);
    var h := Put(h, REPLY_TO, properties.replyTo);
    Put(h, MESSAGE_ID, properties.messageId)
  }

  /** The native properties under their well-known header names. */
  function Native(properties: Properties): HeaderMap {
    var h := IdentityHeaders(properties);
    var h := Put(h, PRIORITY_HEADER, PriorityText(properties.priority));
    Put(h, EXPIRATION_HEADER, properties.expiration)
  }

  function PriorityText(priority: Option<Byte>): Option<string> {
    if priority.Some? then Some(Decimal.ToText(priority.value)) else None
  }

  /** The table's entries, each replacing whatever header already has its normalised name. */
  function Overlay(headers: HeaderMap, table: Table): HeaderMap
    decreases table
  {
    if table == [] then headers
    else Overlay(headers[Normal(table[0].name) := HeaderText.Arrives(table[0].value)], table[1..])
  }

  /** The value that answers for a header name: the last one, in table order, whose name normalises to it. */
  function Answer(table: Table, name: string): Option<AmqpValue> {
    if table == [] then None
    else if Answer(table[1..], name).Some? then Answer(table[1..], name)
    else if Normal(table[0].name) == name then Some(table[0].value)
    else None
  }

  function HeadersFrom(properties: Properties): HeaderMap {
    Overlay(Native(properties), properties.Entries())
  }

  method NativeHeaders(properties: Properties) returns (headers: HeaderMap)
    ensures headers == Native(properties)
  {
    headers := map[];
    if properties.contentType.Some? {
      headers := headers[CONTENT_TYPE := Encode(properties.contentType.value)];
    }
    if properties.correlationId.Some? {
      headers := headers[CORRELATION_ID := Encode(properties.correlationId.value)];
    }
    if properties.replyTo.Some? {
      headers := headers[REPLY_TO := Encode(properties.replyTo.value)];
    }
    if properties.messageId.Some? {
      headers := headers[MESSAGE_ID := Encode(properties.messageId.value)];
    }
    if properties.priority.Some? {
      headers := headers[PRIORITY_HEADER := Encode(Decimal.ToText(properties.priority.value))];
    }
    if properties.expiration.Some? {
      headers := headers[EXPIRATION_HEADER := Encode(properties.expiration.value)];
    }
  }

  method HeadersFromProperties(properties: Properties) returns (headers: HeaderMap)
    ensures headers == HeadersFrom(properties)
  {
    headers := NativeHeaders(properties);
    if properties.headers.Some? {
      var table := properties.headers.value;
      assert table[0..] == table;
      for i := 0 to |table|
        invariant Overlay(headers, table[i..]) == HeadersFrom(properties)
      {
        var value := HeaderText.HeaderBytes(table[i].value);
        assert table[i..][1..] == table[i + 1..];
        headers := headers[Normal(table[i].name) := value];
      }
    }
  }

  lemma {:induction false} OverlayIs(headers: HeaderMap, table: Table, name: string)
    ensures
      var answer := Answer(table, name);
      && (name in Overlay(headers, table) <==> answer.Some? || name in headers)
      && (answer.Some? ==> Overlay(headers, table)[name] == HeaderText.Arrives(answer.value))
      && (answer.None? && name in headers ==> Overlay(headers, table)[name] == headers[name])
    decreases table
  {
    if table != [] {
      OverlayIs(headers[Normal(table[0].name) := HeaderText.Arrives(table[0].value)], table[1..], name);
    }
  }

  /** Decoding in full, for a table from any producer: the last entry whose name normalises to a header
      name answers for it before a native property does, and every native property no entry shadows,
      however spelled, is there. */
  lemma TableShadowsNative(properties: Properties, name: string)
    ensures
      var answer := Answer(properties.Entries(), name);
      && (name in HeadersFrom(properties) <==> answer.Some? || name in Native(properties))
      && (answer.Some? ==> HeadersFrom(properties)[name] == HeaderText.Arrives(answer.value))
      && (answer.None? && name in Native(properties) ==> HeadersFrom(properties)[name] == Native(properties)[name])
  {
    OverlayIs(Native(properties), properties.Entries(), name);
  }

  lemma {:induction false} AnswerIsLast(table: Table, name: string) returns (i: nat)
    ensures Answer(table, name).None? ==> forall e | e in table :: Normal(e.name) != name
    ensures Answer(table, name).Some? ==>
              && i < |table| && Normal(table[i].name) == name && Answer(table, name) == Some(table[i].value)
              && forall j | i < j < |table| :: Normal(table[j].name) != name
  {
    i := 0;
    if table != [] {
      var k := AnswerIsLast(table[1..], name);
      if Answer(table[1..], name).Some? {
        i := k + 1;
        forall j | i < j < |table| ensures Normal(table[j].name) != name {
          assert table[j] == table[1..][j - 1];
        }
      } else {
        forall j | 0 < j < |table| ensures Normal(table[j].name) != name {
          assert table[j] == table[1..][j - 1];
        }
      }
    }
  }

  lemma {:induction false} LookupAt(table: Table, name: string, i: nat)
    requires InNameOrder(table) && i < |table| && table[i].name == name
    ensures Lookup(table, name) == Some(table[i].value)
  {
    if i > 0 {
      BeforeIsTotal(name, name);
      assert Before(table[0].name, table[i].name);
      LookupAt(table[1..], name, i - 1);
    }
  }

  /** An entry spelled as the header map spells it answers for its name, whatever other spellings the
      table has. */
  lemma NormalSpellingAnswers(table: Table, name: string)
    requires InNameOrder(table) && Normal(name) == name && Lookup(table, name).Some?
    ensures Answer(table, name) == Lookup(table, name)
  {
    LookupFindsEntry(table, name);
    var k :| 0 <= k < |table| && table[k] == Entry(name, Lookup(table, name).value);
    var i := AnswerIsLast(table, name);
    if i != k {
      assert Before(name, table[i].name);
      NormalIsLast(table[i].name);
      BeforeIsTotal(name, table[i].name);
    }
  }

  /** Tables that agree on every spelling of a header name have the same answer for it. */
  lemma SameAnswer(a: Table, b: Table, name: string)
    requires InNameOrder(a) && InNameOrder(b)
    requires forall spelled | Normal(spelled) == name :: Lookup(a, spelled) == Lookup(b, spelled)
    ensures Answer(a, name) == Answer(b, name)
  {
    var i := AnswerIsLast(a, name);
    var j := AnswerIsLast(b, name);
    if Answer(a, name).Some? {
      AnsweredToo(a, i, b, name);
    }
    if Answer(b, name).Some? {
      AnsweredToo(b, j, a, name);
    }
    if Answer(a, name).Some? && a[i].name != b[j].name {
      Latest(a, i, b, j, name);
      Latest(b, j, a, i, name);
      BeforeIsTotal(a[i].name, b[j].name);
    }
    if Answer(a, name).Some? {
      LookupAt(a, a[i].name, i);
      LookupAt(b, b[j].name, j);
    }
  }

  lemma AnsweredToo(a: Table, i: nat, b: Table, name: string)
    requires InNameOrder(a) && i < |a| && Normal(a[i].name) == name
    requires Lookup(a, a[i].name) == Lookup(b, a[i].name)
    ensures Answer(b, name).Some?
  {
    LookupAt(a, a[i].name, i);
    LookupFindsEntry(b, a[i].name);
    var j := AnswerIsLast(b, name);
  }

  /** The last entry of `b` under a name comes no earlier than the one of `a`, if `b` has that too. */
  lemma Latest(a: Table, i: nat, b: Table, j: nat, name: string)
    requires InNameOrder(a) && InNameOrder(b) && i < |a| && j < |b|
    requires Normal(a[i].name) == name && Lookup(a, a[i].name) == Lookup(b, a[i].name)
    requires forall k | j < k < |b| :: Normal(b[k].name) != name
    ensures a[i].name == b[j].name || Before(a[i].name, b[j].name)
  {
    LookupAt(a, a[i].name, i);
    LookupFindsEntry(b, a[i].name);
    var k :| 0 <= k < |b| && b[k] == Entry(a[i].name, a[i].value);
  }

  /** A header map made from properties is keyed as every header map is. */
  lemma DecodedIsNormalised(properties: Properties)
    ensures Normalised(HeadersFrom(properties))
  {
    forall name | name in HeadersFrom(properties) ensures Normal(name) == name {
      TableShadowsNative(properties, name);
      if Answer(properties.Entries(), name).Some? {
        var i := AnswerIsLast(properties.Entries(), name);
        NormalIsNormal(properties.Entries()[i].name);
      } else {
        NativeIsNormal(properties, name);
      }
    }
  }

  // Round trip.

  /** The headers a delivery reports for the settings a publish took from its options. */
  function Reported(options: PublishOptions): HeaderMap {
    var h := Put(map[], PRIORITY_HEADER, PriorityText(options.priority));
    Put(h, EXPIRATION_HEADER,
        if options.expiration.Some? then Some(ExpirationMillis(options.expiration.value)) else None)
  }

  /** The headers a publish has a place for: an identity header that is not text has none. */
  function Kept(headers: HeaderMap): HeaderMap {
    map name | name in headers && (IsIdentity(name) ==> Decode(headers[name]).Some?) :: headers[name]
  }

  lemma NamesDiffer()
    ensures |CONTENT_TYPE| == 12 && |CORRELATION_ID| == 14 && |REPLY_TO| == 8 && |MESSAGE_ID| == 10
    ensures |PRIORITY_HEADER| == 13 && |EXPIRATION_HEADER| == 15
  {
  }

  /** The native property a header name stands for. */
  function PropertyOf(properties: Properties, name: string): Option<string> {
    if name == CONTENT_TYPE then properties.contentType
    else if name == CORRELATION_ID then properties.correlationId
    else if name == REPLY_TO then properties.replyTo
    else if name == MESSAGE_ID then properties.messageId
    else if name == PRIORITY_HEADER then PriorityText(properties.priority)
    else if name == EXPIRATION_HEADER then properties.expiration
    else None
  }

  lemma IdentityIs(properties: Properties, name: string)
    ensures name in IdentityHeaders(properties) <==> IsIdentity(name) && PropertyOf(properties, name).Some?
    ensures name in IdentityHeaders(properties) ==>
              IdentityHeaders(properties)[name] == Encode(PropertyOf(properties, name).value)
  {
    NamesDiffer();
  }

  lemma NativeIs(properties: Properties, name: string)
    ensures name in Native(properties) <==> PropertyOf(properties, name).Some?
    ensures name in Native(properties) ==> Native(properties)[name] == Encode(PropertyOf(properties, name).value)
  {
    IdentityIs(properties, name);
    NamesDiffer();
  }

  ghost predicate ShownAs(headers: HeaderMap, name: string, property: Option<string>) {
    GetStr(headers, name) == property && (name in headers <==> property.Some?)
  }

  lemma PropertyShows(properties: Properties, name: string)
    ensures ShownAs(Native(properties), name, PropertyOf(properties, name))
  {
    NativeIs(properties, name);
    if PropertyOf(properties, name).Some? {
      DecodesIffEncodes(Native(properties)[name], PropertyOf(properties, name).value);
    }
  }

  /** Each native property is decoded as text under its well-known name, the priority in decimal, and no
      other header comes from them. */
  lemma NativeUnderItsName(properties: Properties, name: string)
    ensures ShownAs(Native(properties), "content-type", properties.contentType)
    ensures ShownAs(Native(properties), "correlation-id", properties.correlationId)
    ensures ShownAs(Native(properties), "reply-to", properties.replyTo)
    ensures ShownAs(Native(properties), "message-id", properties.messageId)
    ensures ShownAs(Native(properties), "amqp-expiration", properties.expiration)
    ensures properties.priority.None? <==> "amqp-priority" !in Native(properties)
    ensures properties.priority.Some? ==>
              var text := GetStr(Native(properties), "amqp-priority");
              text.Some? && Decimal.ParseUnsigned(text.value, 255) == Some(properties.priority.value)
    ensures name in Native(properties) ==>
              name in {"content-type", "correlation-id", "reply-to", "message-id", "amqp-priority", "amqp-expiration"}
  {
    hide Native, ShownAs, Decode, Encode, Decimal.ToText, Decimal.ParseUnsigned;
    NamesDiffer();
    NativeIs(properties, name);
    PropertyShows(properties, CONTENT_TYPE);
    PropertyShows(properties, CORRELATION_ID);
    PropertyShows(properties, REPLY_TO);
    PropertyShows(properties, MESSAGE_ID);
    PropertyShows(properties, EXPIRATION_HEADER);
    PriorityShows(properties);
  }

  lemma PriorityShows(properties: Properties)
    ensures properties.priority.None? <==> PRIORITY_HEADER !in Native(properties)
    ensures properties.priority.Some? ==>
              var text := GetStr(Native(properties), PRIORITY_HEADER);
              text.Some? && Decimal.ParseUnsigned(text.value, 255) == Some(properties.priority.value)
  {
    NamesDiffer();
    PropertyShows(properties, PRIORITY_HEADER);
    hide Native, Decode, Encode, Decimal.ToText, Decimal.ParseUnsigned;
    if properties.priority.Some? {
      Decimal.ParseOfText(properties.priority.value, 255);
    }
  }

  lemma NativeIsNormal(properties: Properties, name: string)
    requires name in Native(properties)
    ensures Normal(name) == name
  {
    hide Normal, Native;
    NativeIs(properties, name);
    OwnNameIsLowerCase(name);
    LowerCaseIsNormal(name);
  }

  lemma OwnNameIsLowerCase(name: string)
    requires IsIdentity(name) || name == PRIORITY_HEADER || name == EXPIRATION_HEADER
    ensures forall i | 0 <= i < |name| :: !('A' <= name[i] <= 'Z')
  {
  }

  lemma {:induction false} LowerCaseIsNormal(name: string)
    requires forall i | 0 <= i < |name| :: !('A' <= name[i] <= 'Z')
    ensures Normal(name) == name
  {
    if name != [] {
      LowerCaseIsNormal(name[1..]);
    }
  }

  lemma NativeOfCarried(properties: Properties, headers: HeaderMap, options: PublishOptions, name: string)
    requires Carries(properties, headers, options)
    ensures name in Native(properties) <==> (IsIdentity(name) && name in Kept(headers)) || name in Reported(options)
    ensures name in Native(properties) ==>
              Native(properties)[name] == if IsIdentity(name) then headers[name] else Reported(options)[name]
  {
    NamesDiffer();
    NativeIs(properties, name);
    if IsIdentity(name) {
      assert PropertyOf(properties, name) == GetStr(headers, name);
      if name in headers && Decode(headers[name]).Some? {
        DecodesIffEncodes(headers[name], Decode(headers[name]).value);
      }
    }
  }

  /** Decoding what a publish built gives back every header it had a place for, and besides them only
      the priority and the expiration the options set, where no header has their names. */
  lemma HeadersRoundTrip(properties: Properties, headers: HeaderMap, options: PublishOptions)
    requires Carries(properties, headers, options) && Normalised(headers)
    ensures HeadersFrom(properties) == Reported(options) + Kept(headers)
  {
    hide Normal, Normalised, Carries, HeadersFrom, Reported, Kept;
    var decoded := HeadersFrom(properties);
    var expected := Reported(options) + Kept(headers);
    forall name
      ensures name in decoded <==> name in expected
      ensures name in decoded ==> decoded[name] == expected[name]
    {
      HeaderRoundTrips(properties, headers, options, name);
    }
    assert decoded.Keys == expected.Keys;
  }

  /** In a table a publish built every entry is spelled as its header is. */
  lemma CarriedAnswer(table: Table, headers: HeaderMap, name: string)
    requires TableCarries(table, headers, {}) && Normalised(headers)
    ensures Answer(table, name) == Lookup(table, name)
  {
    var i := AnswerIsLast(table, name);
    if Answer(table, name).Some? {
      LookupAt(table, table[i].name, i);
    } else if Lookup(table, name).Some? {
      LookupFindsEntry(table, name);
    }
  }

  lemma HeaderRoundTrips(properties: Properties, headers: HeaderMap, options: PublishOptions, name: string)
    requires Carries(properties, headers, options) && Normalised(headers)
    ensures name in HeadersFrom(properties) <==> name in Reported(options) + Kept(headers)
    ensures name in HeadersFrom(properties) ==>
              HeadersFrom(properties)[name] == (Reported(options) + Kept(headers))[name]
  {
    hide Normal, Normalised, Answer, Overlay, Native;
    TableShadowsNative(properties, name);
    CarriedAnswer(properties.Entries(), headers, name);
    NativeOfCarried(properties, headers, options, name);
    assert IsIdentity(name) ==> name !in Reported(options) by {
      NamesDiffer();
    }
  }

  /** A map whose identity headers are text comes back whole. */
  lemma TextHeadersRoundTrip(properties: Properties, headers: HeaderMap, options: PublishOptions)
    requires Carries(properties, headers, options) && Normalised(headers)
    requires forall name | IsIdentity(name) && name in headers :: Decode(headers[name]).Some?
    ensures HeadersFrom(properties) == Reported(options) + headers
  {
    hide Normal, Normalised, Carries, HeadersFrom, Reported;
    HeadersRoundTrip(properties, headers, options);
    assert Kept(headers) == headers;
  }

  /** A publish is refused exactly when an identity header that is text, or another header's name,
      is over 255 bytes. */
  lemma RefusedWhenTooLong(headers: HeaderMap)
    ensures !Sendable(headers) <==>
            || (exists name | name in headers && IsIdentity(name) ::
                Decode(headers[name]).Some? && |headers[name]| > 255)
            || (exists name | name in headers && !IsIdentity(name) :: |Encode(name)| > 255)
  {
    forall name | name in headers && Decode(headers[name]).Some?
      ensures Encode(Decode(headers[name]).value) == headers[name]
    {
      DecodesIffEncodes(headers[name], Decode(headers[name]).value);
    }
  }
}
