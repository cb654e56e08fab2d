# ruststream-lapin: a verified model

`ruststream-lapin` is a RabbitMQ transport: it settles and redelivers deliveries, publishes plainly,
with confirms and in transactions, asks and awaits replies, and outlives reconnects. This project
models the protocols and codecs that carry its promises and proves those promises for every input,
every run and every interleaving. `dafny verify dfyconfig.toml` checks all of it.

Five groups of modules, hardest parts first:

- **Delayed redelivery.** `Redelivery` is a transition system of a server, any number of channels
  that fail at any step, and handlers; a channel is a queue of frames of which a failure loses the
  rest. `Message` and `Delay` are the code that sends those frames, and `Delay` follows the headers of
  a message through any number of rounds.
- **Cells and request/reply.** `ChannelRace` and `RequestRace` interleave the steps of any number of
  callers, cancellations, timeouts, channel deaths and reply dispatchers. `Transport.ChannelCell` and
  `Requester` are the same code run by one caller at a time.
- **Publishers.** `Publisher` holds the fire-and-forget and the confirms publisher with both kinds of
  transaction, each call proved against `TransactionLog`, where stepping through buffers is shown to
  send what a declarative log says. `ServerTx` holds the server-transactional publisher, the server's
  side of its channel, and what holds of every run of calls.
- **Recovery and shutdown.** `Recovery` interleaves a polling consumer with everything its connection
  may do, `Cleanup` the background cleanup that closes a connection which was reconnecting at shutdown, and
  `RetryBudget` counts refused attempts.
- **Headers.** `Convert` maps header maps to properties and back, `HeaderText` writes AMQP values into
  a string buffer, `Json` is the RFC 8259 text it writes with a parser for the whole grammar, and
  `Utf8`, `Decimal` and `Amqp` are what those stand on.

`LiveRoutes` and `Padding` are two smaller pieces: which subscriptions a publish is owed to, and a
message body padded to an exact size. A run is a sequence of events of which one that cannot happen
where it stands does nothing, so a statement about every sequence is one about every run.

The channels of `Transport` die when the environment says so: a channel carries the number of
exchanges it still lives through, its status being read among them, and the connection carries the
number of liveness checks that still pass. Both are arbitrary, so a channel may die and a shutdown
arrive between any two steps. A clock, a confirm and a server's answer are likewise any that may come.

Where the code and its documentation disagree the model follows the code:

- `publisher.rs:193-195` says that after shutdown every operation of a confirms publisher reports
  Closed; beginning, publishing into a transaction, aborting and an empty commit never ask.
- `publisher.rs:488-489` says the same of the server-transactional publisher. Before anything asks,
  every call under automatic recovery and a publish whose headers do not fit report InvalidOptions,
  and a begin over an open transaction and an end without one report Transaction; the contracts say
  of each call exactly when Closed is what it reports.
- `requester.rs:463` explains a branch by a reply channel that died; before the id counter wraps
  nothing leads there, as `RequestRace.NeverStopped` shows.

## Model

| member | source | states |
|---|---|---|
| `Redelivery.NeverLost` | crates/ruststream-lapin/src/message.rs:304-341 | Duplicate, not loss: over every run of arrivals, deliveries, handlers and channel failures at any step, a message no handler settled for good has a copy on the server, and one ready or waiting once every channel is gone |
| `Redelivery.CopyComesFirst` | crates/ruststream-lapin/src/message.rs:329-341 | A server that took the acknowledgement of a delayed redelivery took the delayed copy before it, because both travel on one channel in that order |
| `Redelivery.DoubledExactlyWhenCutShort` | crates/ruststream-lapin/src/message.rs:304-341 | Over every run, a message comes to be there twice, or there though settled for good, if and only if the channel of one of its deliveries failed with the delayed copy taken, before or since, and the acknowledgement not; other failures double nothing, and a delivery whose copy the server already has does not count |
| `Redelivery.FailureMayDouble` | crates/ruststream-lapin/src/message.rs:304-309 | A concrete run where that happens: a failure between the copy and the acknowledgement leaves the message there twice |
| `Redelivery.SettlesOnce` | crates/ruststream-lapin/src/message.rs:176-196 | Every settlement the server takes is of a delivery still unacknowledged on the channel it came on, so no delivery is settled twice |
| `Redelivery.DelayedRoundCompletes` | crates/ruststream-lapin/src/message.rs:321-341 | From every reachable state, a delayed retry that nothing disturbs ends with the message ready again once, its old delivery gone and every other copy as it was |
| `Redelivery.AnswerLands` | crates/ruststream-lapin/src/message.rs:176-265 | From every reachable state, an acknowledged or rejected message is gone and settled, and a requeued one ready again, with every other copy as it was |
| `Redelivery.StepKeeps` | crates/ruststream-lapin/src/broker.rs:585-597 | Every step keeps the joint invariant of copies, frames in flight and handlers from which the results above follow, given that a delivery's copies and settlements share the subscription's channel |
| `Message.LapinMessage.NackAfter` | crates/ruststream-lapin/src/message.rs:321-341 | What goes out is nothing, the copy, or the copy and then the acknowledgement, never the acknowledgement alone; the copy waits as long as asked and says what the delivery said; it succeeds exactly when there is delay wiring, the copy fits, the broker stays up and the channel alive for both; no delay wiring is Unsupported, and a delivery refused after shutdown leaves no copy |
| `Message.LapinMessage.Ack` | crates/ruststream-lapin/src/message.rs:218-231 | Sends one acknowledgement of this delivery if it is still to settle, the broker is up and its channel alive; reports an error otherwise and sends nothing |
| `Message.LapinMessage.Nack` | crates/ruststream-lapin/src/message.rs:251-265 | Sends one rejection with the requeue flag asked for, under the same conditions |
| `Message.LapinMessage.RefuseAfterShutdown` | crates/ruststream-lapin/src/message.rs:163-174 | Refuses exactly when the connection's closed flag is found set, and finds it set from then on |
| `Message.CountIsTheServers` | crates/ruststream-lapin/src/message.rs:286-288 | The deliveries so far are one more than the queue's own integer, of whatever width, when that is not negative, saturated at 64 bits; nothing else is counted |
| `Message.HandlerSeesTheCount` | crates/ruststream-lapin/src/message.rs:344-352 | The handler's header of the counter's name reads the same integer, however else the table spells that name |
| `Delay.DelayContext.Republish` | crates/ruststream-lapin/src/delay.rs:267-323 | Sends exactly one copy on the delivery's own channel, which waits as CopyWaits and says as CopySaysAgain state it, or nothing at all, and says exactly when each |
| `Delay.CopyWaits` | crates/ruststream-lapin/src/delay.rs:276-319 | Every delayed copy waits for the time asked: on the waiting queue by an expiration that parses to the whole milliseconds, 1 for a shorter time that is not zero, capped at 64 bits; in the delayed exchange by an x-delay integer of the whole milliseconds capped at 63 bits, with no expiration |
| `Delay.CopySaysAgain` | crates/ruststream-lapin/src/delay.rs:273-339 | Every delayed copy is persistent, has the priority its delivery reported and no other, a retry count one above the delivery's, which is 0 where none parses, every identity header that is text and every other header as they were, the delayed exchange's own x-delay apart |
| `Delay.OneRound` | crates/ruststream-lapin/src/delay.rs:267-339 | One trip through the waiting queue or the delayed exchange changes no header but the retry count, the identity headers that are not text, which it loses, and those whose normalised names are the server's own |
| `Delay.OnlyTextIdentitiesCome` | crates/ruststream-lapin/src/convert.rs:107-124 | An identity header comes through a round if and only if it is text |
| `Delay.BinaryIdentityIsLost` | crates/ruststream-lapin/src/convert.rs:107-124 | For instance one of the single byte 255, which a foreign producer may send, is gone after the first round |
| `Delay.StraightBackExactlyWhenNamed` | crates/ruststream-lapin/src/delay.rs:131-151 | A copy goes straight to the queue it came from, undelayed, if and only if the waiting queue was named like that queue or the delayed exchange with the empty name |
| `Delay.OwnNameDelaysNothing` | crates/ruststream-lapin/src/delay.rs:131-138 | The failing input: a waiting queue given its origin's own name |
| `Delay.TargetsAreApart` | crates/ruststream-lapin/src/delay.rs:131-151 | Two different origins share a target if and only if their delay names the waiting queue |
| `Delay.RetryRounds` | crates/ruststream-lapin/src/delay.rs:260-339 | After k delayed redeliveries the retry count is the first one plus k, or the 64-bit maximum where that is less, and every copy goes out with the first one's settings |
| `Delay.RoundsOutside` | crates/ruststream-lapin/src/delay.rs:267-339 | For every first delivery, after k delayed redeliveries, k above zero, every header outside the server's own is the first delivery's but for the count, without the identity headers that are not text; with text ones nothing is missing |
| `HeaderText.WriteJson` | crates/ruststream-lapin/src/header_text.rs:52-77 | Appends to the buffer exactly the compact JSON text of a JSON value that means what was given, for every nested value |
| `HeaderText.WrittenMeans` | crates/ruststream-lapin/src/header_text.rs:52-168 | Read by a full RFC 8259 parser before any continuation, what was written means the value, type by type: the same flag, integers by sign and digits, decimals by their exact value, bytes as text or as numbers where they are no UTF-8, arrays item by item and tables entry by entry |
| `HeaderText.WriteTable` | crates/ruststream-lapin/src/header_text.rs:123-135 | Appends a table's entries as the members of a JSON object, in the table's order |
| `HeaderText.WriteJsonString` | crates/ruststream-lapin/src/header_text.rs:152-168 | Appends the string quoted and escaped as RFC 8259 section 7 asks |
| `HeaderText.WriteJsonBytes` | crates/ruststream-lapin/src/header_text.rs:137-150 | Appends text for bytes that are UTF-8 and an array of numbers for bytes that are not |
| `HeaderText.WriteDecimal` | crates/ruststream-lapin/src/header_text.rs:93-110 | Appends the decimal with its point placed from the right, padded with zeros, and with no point at scale zero |
| `HeaderText.DecimalIsExact` | crates/ruststream-lapin/src/header_text.rs:93-110 | The decimal text is a JSON number with exactly `scale` fraction digits whose exact rational value is the integer over ten to the scale |
| `HeaderText.HeaderBytes` | crates/ruststream-lapin/src/header_text.rs:33-49 | Byte strings arrive as they are, short strings as their UTF-8, void as nothing, a float as its text, and everything else as JSON that reads back to a value meaning the same |
| `HeaderText.HeaderTells` | crates/ruststream-lapin/src/header_text.rs:33-49 | The bytes a handler gets tell the value, read by cases that name neither the writer nor its erasure |
| `HeaderText.WrittenParses` | crates/ruststream-lapin/src/header_text.rs:52-168 | Before any continuation that ends a value, a full RFC 8259 parser reads back the value's erasure and leaves the continuation untouched |
| `HeaderText.WrittenAlike` | crates/ruststream-lapin/src/header_text.rs:52-168 | Two values are written alike exactly when their erasures are equal |
| `HeaderText.HeaderReadsBack` | crates/ruststream-lapin/src/header_text.rs:33-49 | A header written as JSON is UTF-8 text that parses to the value's erasure |
| `HeaderText.ReadsBackInOrder` | crates/ruststream-lapin/src/header_text.rs:123-135 | Read back, every table of the value, at whatever depth, is an object with its members in name order |
| `Json.ParseOfRender` | crates/ruststream-lapin/src/header_text.rs:52-168 | Parsing inverts rendering for every JSON value in front of every continuation that ends a value |
| `Json.RenderIsInjective` | crates/ruststream-lapin/src/header_text.rs:52-168 | Different JSON values have different texts |
| `Utf8.DecodesIffEncodes` | crates/ruststream-lapin/src/convert.rs:143-190 | Bytes decode to a string exactly when they are its UTF-8 |
| `Convert.PropertiesForPublish` | crates/ruststream-lapin/src/convert.rs:89-140 | Builds properties that carry every identity header that is text, every other header, and the options, each in its place, with delivery mode 2 unless the message asks for 1; refuses exactly the maps that do not fit |
| `Convert.OwnSettingsWin` | crates/ruststream-lapin/src/publish_step.rs:142-148 | Of each setting a message's own one wins over the policy's, which fills in where there is none |
| `Convert.TableForPublish` | crates/ruststream-lapin/src/convert.rs:120-132 | The table holds each header that is no identity header as a byte string and nothing else, whatever order the map yields them in |
| `Convert.HeadersFromProperties` | crates/ruststream-lapin/src/convert.rs:143-190 | Decodes native properties first and the table's entries after them, each under its normalised name |
| `Convert.NativeUnderItsName` | crates/ruststream-lapin/src/convert.rs:143-181 | Each native property is decoded as text under its own well-known name, the priority as decimal text that parses back to it, and no other header comes from them |
| `Convert.TableShadowsNative` | crates/ruststream-lapin/src/convert.rs:183-187 | For a table from any producer, the last entry whose name normalises to a header name answers for it before a native property does, and a native property no entry shadows, in whatever case, is there |
| `Convert.NormalSpellingAnswers` | crates/ruststream-lapin/src/convert.rs:183-187 | Of several spellings of one name in a table the lower-case one answers, being the last in name order |
| `Convert.HeadersRoundTrip` | crates/ruststream-lapin/src/convert.rs:89-190 | For every header map, decoding what a publish built gives back the map, without identity headers that are not text, plus only the priority and expiration where the map lacks their names |
| `Convert.TextHeadersRoundTrip` | crates/ruststream-lapin/src/convert.rs:89-190 | With identity headers that are text the whole map comes back |
| `Convert.RefusedWhenTooLong` | crates/ruststream-lapin/src/convert.rs:48-54 | A publish is refused exactly when an identity header that is text, or another header's name, is over the 255 bytes of a short string (AMQP 0-9-1 section 4.2.5.3) |
| `Convert.ExpirationReadsBack` | crates/ruststream-lapin/src/convert.rs:75-84 | The expiration reads back as its count of milliseconds, is zero only for a zero time to live, grows with it, and is within a millisecond of it unless saturated |
| `ChannelRace.OneOpener` | crates/ruststream-lapin/src/channel.rs:90-109 | However many callers race, at most one opening is under way |
| `ChannelRace.LiveIsNeverReplaced` | crates/ruststream-lapin/src/channel.rs:90-109 | No step replaces a live held channel |
| `ChannelRace.FoundIsHeldAndLive` | crates/ruststream-lapin/src/channel.rs:68-73 | A channel returned without opening it was live and the held one at that very moment, though it was loaded a step earlier |
| `ChannelRace.OneMoreThanDied` | crates/ruststream-lapin/src/channel.rs:98-108 | The channels opened outnumber those that died by at most one, with callers cancelled and channels dying at any step |
| `ChannelRace.LiveIsFound` | crates/ruststream-lapin/src/channel.rs:90-101 | From every reachable state, a caller that looks at a live held channel returns it and changes nothing |
| `ChannelRace.DeadIsReplaced` | crates/ruststream-lapin/src/channel.rs:98-108 | From every reachable state with the lock free and no live channel held, an undisturbed caller opens one, stores it, returns it and frees the lock; where the server opens none it fails and changes nothing |
| `ChannelRace.FailsOnlyWhenRefused` | crates/ruststream-lapin/src/channel.rs:106-106 | In every run a call fails only if the server opened no channel for some caller |
| `ChannelRace.StepKeeps` | crates/ruststream-lapin/src/channel.rs:68-109 | Every step keeps the invariant behind these: whoever is past the lock holds it, what was loaded is still held or dead, and a live channel is held or about to be |
| `Transport.ChannelCell.Get` | crates/ruststream-lapin/src/channel.rs:90-109 | Called alone: keeps a live channel, gives a dead one up only for a new one with its setup run, changes nothing when that fails, and succeeds exactly when a channel is live or one opens, on a connection that is up, and lives through its setup |
| `RequestRace.ReplyIsOwn` | crates/ruststream-lapin/src/requester.rs:266-311 | In every run, however many ids it hands out, a returned reply carries the request's own correlation id, and no request is sent two |
| `RequestRace.ReplyAnswersItsRequest` | crates/ruststream-lapin/src/requester.rs:266-311 | With responders that echo the id of the request they answer, a returned reply answers the very request that returns it, up to 2^64 ids |
| `RequestRace.MisdeliversOnlyPastTheWrap` | crates/ruststream-lapin/src/requester.rs:399-409 | That bound is exact: some run of k ids returns a request the reply to another if and only if k is past 2^64 |
| `RequestRace.TableIsTheUnanswered` | crates/ruststream-lapin/src/requester.rs:386-475 | The table's keys are exactly the requests that registered and have neither been answered nor cleaned up; a cancelled request stays until its reply comes |
| `RequestRace.ReturnedHasNoSlot` | crates/ruststream-lapin/src/requester.rs:410-475 | A request that returned, in whatever way, has no slot |
| `RequestRace.NeverStopped` | crates/ruststream-lapin/src/requester.rs:461-468 | The branch for a dropped sender is unreachable: a sender is used by a dispatcher or dropped by its own cleanup |
| `RequestRace.ReplyIsReturned` | crates/ruststream-lapin/src/requester.rs:396-462 | From every reachable state within the id range, a request whose reply comes returns that very reply, with its slot gone and the dispatcher free again |
| `RequestRace.FailureIsReturned` | crates/ruststream-lapin/src/requester.rs:455-474 | And one left without a reply returns the timeout, one that could not be published its error, each with its slot gone |
| `RequestRace.StrandedTimesOut` | crates/ruststream-lapin/src/requester.rs:278-283 | Every waiter of a dispatcher that died ends by its timeout or by being cancelled, and no other way, whatever other dispatchers run or are started later, given that replies to it come to the consumer it asked under |
| `RequestRace.StopsOnlyPastTheWrap` | crates/ruststream-lapin/src/requester.rs:399-409 | The bound is exact: for every count of ids handed out, some run takes the branch for a stopped reply consumer if and only if the count is past 2^64 |
| `RequestRace.WrapStrands` | crates/ruststream-lapin/src/requester.rs:399-409 | For every count past 2^64 there is a run in which a newcomer takes a waiting request's slot and that request is told its consumer stopped |
| `RequestRace.StepKeeps` | crates/ruststream-lapin/src/requester.rs:386-475 | Every interleaved step of requests, timeouts, cancellations and dispatchers keeps the invariant behind these |
| `Requester.LapinRequester.Begin` | crates/ruststream-lapin/src/requester.rs:396-459 | A request that went out is in the table under the next id, the frame says where the reply goes and under that id and follows the reply consumer's start on a new channel; it goes out exactly when the message fits and the connection and its channel stay up; every failure after registering reclaims the slot; after shutdown nothing is sent or registered |
| `Requester.LapinRequester.Submit` | crates/ruststream-lapin/src/requester.rs:417-459 | Can only be called once the request has its slot; sends exactly its frame when the channel is live and the message fits, and nothing otherwise |
| `Requester.LapinRequester.Finish` | crates/ruststream-lapin/src/requester.rs:461-474 | A reply returns it, a dropped sender and an elapsed timeout reclaim the slot and say so |
| `Requester.LapinRequester.Dispatch` | crates/ruststream-lapin/src/requester.rs:287-309 | Takes out of the table the sender waiting under the reply's id, and no other |
| `Requester.LapinRequester.Publish` | crates/ruststream-lapin/src/requester.rs:332-368 | Publishes on the requester's channel without registering anything, exactly when the message fits and the connection and its channel stay up, and nothing after shutdown |
| `Publisher.LapinPublisher.Publish` | crates/ruststream-lapin/src/publisher.rs:140-176 | Puts exactly the message, its settings over the policy's, on the shared channel, exactly when the connection is up, the message fits and the channel lives to take it; otherwise nothing, and Closed after shutdown |
| `Publisher.ConfirmsPublisher.Publish` | crates/ruststream-lapin/src/publisher.rs:350-364 | Buffers while a transaction is open without looking at the connection; otherwise sends the one message, succeeding exactly when it goes through and is confirmed, or none and Closed after shutdown |
| `Publisher.ConfirmsPublisher.BeginTransaction` | crates/ruststream-lapin/src/publisher.rs:374-391 | Opens an empty buffer unless one is open, whether or not the connection is up |
| `Publisher.ConfirmsPublisher.Commit` | crates/ruststream-lapin/src/publisher.rs:402-446 | Success sends the whole buffer in order and comes exactly when the channel, the sizes and the confirms let it; a failure sends a prefix; no transaction is left either way; an empty commit never looks at the connection, a non-empty one fails after shutdown and sends nothing |
| `Publisher.ConfirmsPublisher.Abort` | crates/ruststream-lapin/src/publisher.rs:453-465 | Drops the buffer and sends nothing, whether or not the connection is up |
| `Publisher.ConfirmsPublisher.Flush` | crates/ruststream-lapin/src/publisher.rs:243-279 | Sends the messages in order up to the first that cannot be sent, on a channel in confirm mode; succeeds exactly when the connection is up, one channel lives through all of them, all fit and all are confirmed, and has then sent every one |
| `Publisher.ConfirmsPublisher.Transaction` | crates/ruststream-lapin/src/transaction.rs:176-182 | Opens one more transaction with a buffer and an id of its own beside all those the handle has |
| `Publisher.ConfirmsTransaction.Publish` | crates/ruststream-lapin/src/transaction.rs:122-129 | Adds to this transaction's buffer, and leaves the handle's and every other transaction's as they are |
| `Publisher.ConfirmsTransaction.Commit` | crates/ruststream-lapin/src/transaction.rs:146-151 | Success sends its own buffer whole and in order, a failure a prefix of it, exactly when as for the handle's; it is settled either way, and leaves the handle's transaction and every other alone |
| `Publisher.ConfirmsTransaction.Abort` | crates/ruststream-lapin/src/transaction.rs:158-161 | Is settled and sends nothing |
| `Publisher.FramesAreTheLog` | crates/ruststream-lapin/src/publisher.rs:243-465 | Whatever was called on a handle and on any number of transactions it opened, the publish frames that went out are those of the declared log, and each open transaction holds the buffer its own calls leave |
| `TransactionLog.SendsTheLog` | crates/ruststream-lapin/src/publisher.rs:243-465 | For every sequence of calls on a handle and any number of owned transactions, what goes out is: for a direct publish its message, for a commit the messages handed to that transaction since it opened, in order, or the prefix a failing commit managed |
| `TransactionLog.OwnedLeaveTheHandle` | crates/ruststream-lapin/src/transaction.rs:164-184 | The handle's buffer is the one it would have with no owned transaction anywhere |
| `TransactionLog.OwnedStandAlone` | crates/ruststream-lapin/src/transaction.rs:164-184 | An owned buffer is the one it would have with no other transaction and no direct publish |
| `ServerTx.ServerTxPublisher.Publish` | crates/ruststream-lapin/src/publisher.rs:575-624 | Into the open transaction's own channel, dead or not, or plainly on the shared channel when none is open, never the one for the other; it succeeds exactly when recovery is off, the message fits, the connection is up and that channel lives; after shutdown it fails, and with Closed if and only if recovery is off and the headers fit |
| `ServerTx.ServerTxPublisher.BeginTransaction` | crates/ruststream-lapin/src/publisher.rs:639-660 | Opens on a live transactional channel or a fresh one with tx.select run, never over an open transaction, and exactly when recovery is off, the connection is up and there is such a channel; after shutdown it reports Closed if and only if recovery is off and none is open |
| `ServerTx.ServerTxPublisher.Commit` | crates/ruststream-lapin/src/publisher.rs:667-700 | Succeeds exactly when recovery is off, a transaction is open, the connection is up and the channel that holds it answers; whenever it gets to ask, tx.commit is what that channel is sent, and only an answer clears the transaction; after shutdown it reports Closed if and only if recovery is off and one is open |
| `ServerTx.ServerTxPublisher.Abort` | crates/ruststream-lapin/src/publisher.rs:708-733 | The same of tx.rollback: success exactly when recovery is off, a transaction is open, the connection is up and its channel answers, and only an answer clears it; after shutdown it reports Closed if and only if recovery is off and one is open |
| `ServerTx.CommitIsAtomic` | crates/ruststream-lapin/src/publisher.rs:575-700 | A commit that returns Ok makes visible exactly the messages whose publish returned Ok since the begin, in order and all at once: at every earlier point of the channel's frames none shows |
| `ServerTx.AbortShowsNothing` | crates/ruststream-lapin/src/publisher.rs:708-733 | Of a transaction whose abort returned Ok no message ever shows, and none stays staged |
| `ServerTx.DeathIsNeverHidden` | crates/ruststream-lapin/src/publisher.rs:523-533 | Once the channel died inside an open transaction no later begin, publish, commit or abort on the handle succeeds, and no fresh channel takes its place |
| `ServerTx.OpenSinceBegin` | crates/ruststream-lapin/src/publisher.rs:639-660 | A transaction open on the handle was begun by one of the calls and not ended since |
| `Recovery.ReturnsInOrder` | crates/ruststream-lapin/src/recovery.rs:66-125 | Over every interleaving of items, recoveries, terminal notices, shutdown and dropped calls, the results of `next` are the consumer's deliveries in order with none left out, then at most one error, then nothing for good |
| `Recovery.EndsForAReason` | crates/ruststream-lapin/src/recovery.rs:66-125 | In every run an error comes out of `next` only if the connection is closed or has failed or a recovery was refused, and the stream ends only so or because the server ended it: a consumer error alone does neither |
| `Recovery.RecoversFromError` | crates/ruststream-lapin/src/recovery.rs:66-125 | A consumer error on a healthy connection sends the call into a recovery, and once that succeeds the call returns the delivery behind the error within eleven of its own steps |
| `Recovery.ReturnsTheDelivery` | crates/ruststream-lapin/src/recovery.rs:92-125 | Wherever in the poll or in a recovery that succeeded a call stands on a healthy connection, with or without news, it returns the next delivery within eleven of its own steps |
| `Recovery.WakesUp` | crates/ruststream-lapin/src/recovery.rs:92-110 | No wakeup is lost: a waiting call can move once the terminal value is set or shutdown has announced itself, and is back within five of its own steps |
| `Recovery.AlwaysNotified` | crates/ruststream-lapin/src/broker.rs:686-687 | News the call has not looked at is news the watch still holds for it, because the flag is stored before the bump and the terminal value changes with its version |
| `Cleanup.SleepsThroughNothing` | crates/ruststream-lapin/src/broker.rs:189-208 | The cleanup that closes a recovering connection after shutdown never sleeps through a given-up connection, nor through an announced one it has not tried to close |
| `Cleanup.WakesToClose` | crates/ruststream-lapin/src/broker.rs:189-208 | No wakeup is lost: once the connection is given up, or is up, announced and untried, a sleeping cleanup can move, and within four of its own steps it has ended or is asking for the close |
| `Cleanup.ClosesOrWaits` | crates/ruststream-lapin/src/broker.rs:189-208 | The answer to its close ends the cleanup where the server took it or was at it already; a refused one leaves it asleep until there is news |
| `Cleanup.EndsForAReason` | crates/ruststream-lapin/src/broker.rs:189-208 | It ends only by a close the server accepted or was already at, never a refused one, or because the connection is gone for good |
| `RetryBudget.GivesUpWhenSpent` | crates/ruststream-lapin/src/broker.rs:66-98 | The connector gives up exactly when the runtime shut down or one refusal more than the retries came with no success between, for every 64-bit budget and however often the counter wraps |
| `RetryBudget.Connector.Dialled` | crates/ruststream-lapin/src/broker.rs:71-93 | One attempt updates the counter, and sets and announces the notice exactly when it is due; it never clears it |
| `RetryBudget.OnEvent` | crates/ruststream-lapin/src/broker.rs:151-168 | A connection event makes a failed connection terminal and ends the listener, or wakes whoever waits; it never clears the notice |
| `Transport.AmqpConnection.EnsureLive` | crates/ruststream-lapin/src/broker.rs:256-261 | Closed exactly when the flag is found set |
| `Transport.AmqpConnection.LivePublishChannel` | crates/ruststream-lapin/src/broker.rs:238-248 | Reports Closed exactly after shutdown; otherwise leaves a channel to try, exactly when one is live or the server opens one, or reports that none could be opened, and publishes nothing |
| `LiveRoutes.LiveRoutes.ThroughExchanges` | crates/ruststream-lapin/src/live_routes.rs:94-142 | The positions owed are each there once and are exactly those whose queue some publish of the key through a named exchange reaches, whatever order the sets yield |
| `LiveRoutes.ReachesWhatWasNoted` | crates/ruststream-lapin/src/live_routes.rs:94-133 | Over every history of notes, and kind by kind, a publish reaches the queues bound directly under its key, by a pattern that matches it, or to a fanout; through a hashing exchange the queues the key was seen delivered to, or before that any bound one; and no others |
| `LiveRoutes.OwedWhatWasNoted` | crates/ruststream-lapin/src/live_routes.rs:94-142 | A queue is owed a key exactly when a noted publish of it through a named exchange reaches that queue so |
| `LiveRoutes.LiveRoutes.NoteBound` | crates/ruststream-lapin/src/live_routes.rs:54-63 | Notes the queue's bindings after those already noted |
| `LiveRoutes.HashedQueueIsOwed` | crates/ruststream-lapin/src/live_routes.rs:84-93 | Over every history of notes, the bound queue the server's hash picks stays owed before and after the first delivery, and after it that exchange owes the key to no other queue |
| `LiveRoutes.BindingsAreNotes` | crates/ruststream-lapin/src/live_routes.rs:54-63 | A binding is held exactly when some note gave it to its queue |
| `Padding.JsonBody` | crates/ruststream-lapin-bench/benches/paired.rs:165-194 | Ends with a body of exactly the size asked for, for size 28 and every size from 36 on, and trips the final assertion for exactly the others; the body is the JSON object that starts with the id and the quantity and goes on with text fields of other names |
| `Padding.NextKey` | crates/ruststream-lapin-bench/benches/paired.rs:176-184 | The next field's key is at most one byte longer, and shorter only where the 32-bit counter wraps |

## Left out

- Redelivery.NeverLost: takes the delay target to exist, as `ensure_exists` (delay.rs:182) or the declared topology make sure when the subscription opens, and takes a server that loses no queue.
- Delay.RoundsOutside: takes, as Delay.RetryRounds does, a release to clear the expiration and to add or change only headers whose normalised names are the server's own; the retry count's header name belongs to the framework and is a parameter.
- ServerTx.CommitIsAtomic: says nothing of a commit whose answer never came; the source calls the state then unknown, and here the frame may or may not have been taken.
- RequestRace.StrandedTimesOut: takes the server to bring a reply to the consumer whose request it answers, which is what direct reply-to is; the other results hold of replies under any id at any consumer.
- Recovery.RecoversFromError: starts from a call with no unread news; with news the poll goes round once more first, which Recovery.ReturnsTheDelivery allows for.
- Recovery.WakesUp: covers the closed flag and the terminal value; a connection status that changes without any notice wakes nobody, in the code as here.
- RequestRace.ReplyAnswersItsRequest: takes responders that echo correlation ids; nothing holds a responder to that.
- The concurrent protocols (`Redelivery`, `ChannelRace`, `RequestRace`, `Recovery`, `Cleanup`) are transition systems on values, since their steps interleave; a step is what the code does between two points where another caller may run.
- The client library, sockets, TLS and the runtime: a channel is first in first out, refuses operations once closed and stays closed; its recovery is an event; mutexes, watches and one-shot channels keep their own contracts.
- Cancelling a publisher's call in the middle: its documentation promises nothing there.
- The header map belongs to the framework and is not part of this model: it is taken to be a map from names in ASCII lower case to bytes, with an insert that normalises the name and replaces, and identity accessors that yield text only.
- Floats keep the text they are shown by, as an opaque JSON number or a name; shortest-decimal rendering is not modelled.
- How a topic pattern matches a routing key: a parameter of `LiveRoutes`.
- The receiver's side of a watch whose sender is gone (recovery.rs:76, 105): the consumer holds the connection that owns the sender, so it cannot happen.
- `wait_for_room`, `shares`, the feed loops and the run counter of the benchmarks, and the in-process transport of the `testing` feature.
- Descriptors, topology declaration, builder setters, error formatting and logging, which carry only easy claims.
