# A verified model of the NATS client

This project models the parts of the NATS client for JavaScript that are hard to get
right, and proves what they are for. Each module follows one part of the client, keeps
its branches, constants and error cases, and states its results over all inputs, all
interleavings or all runs.

| files | what they model |
|---|---|
| `WireMachine`, `Chunking`, `Parser`, `WireFormat`, `WireGrammar` | The incremental protocol parser. `WireMachine` is a byte-at-a-time machine with 31 states and one further operation, the cut at the end of a buffer. `Parser` is the class with its indexes into the buffer, its jumps over payloads and its spilled arguments and payloads. `Chunking` says exactly when cutting a stream into buffers makes no difference. `WireFormat` prints operations and reads them back. `WireGrammar` is the language the parser accepts, with both directions. |
| `DenoBuffer`, `DataBuffer` | The growable buffer of the parser (reslice, slide down, reallocate) and the queue of buffers used for outgoing data and for objects. |
| `Sha256Spec`, `Sha256`, `Sha256Constants`, `Sha256Example` | The secure hash algorithm of FIPS 180-4, and the streaming object that computes it with a carried word, unrolled rounds, a first round worked out beforehand and a majority term kept from round to round. `Sha256Constants` derives the constants from the primes, `Sha256Example` works out the digest of "abc". |
| `ObjectStore` | Cutting an object into chunks whatever the reads are, and putting it together again. |
| `Stream`, `PushOrdered`, `PullOrdered` | A stream as a log, and the two ordered consumers that turn lossy, repeated and late deliveries into the exact sequence of wanted entries. |
| `PullCredit` | The count of pending messages by which a pull consumer decides when to ask for more. |
| `Connection`, `Draining`, `Announced`, `Protocol` | One connection: buffered commands, PING and PONG, drain of subscriptions and of the connection. `Connection` holds the state machine of client, links and server with its proofs, `Draining` says when a drain comes to its end, `Announced` what the server is subscribed to, `Protocol` is the class whose methods are those steps, and ties it to the world. |
| `QueueModel`, `QueuedIterator` | The queue between push and an asynchronous generator: small steps with their invariants, and the class with the generator's loops. |
| `KeyValue` | Compare-and-set creation of keys by any number of clients with stale reads. |
| `Servers`, `DialLoop` | The list of servers, gossip, removal, and the loop that dials. |
| `IpParser`, `IpText` | Addresses from text, and the spellings of section 2.2 of RFC 4291. |
| `HeaderText`, `Headers`, `MsgHdrs` | Message headers, their canonical keys, their text form. |
| `Nuid` | The base-36 identifier generator. |
| `Bytes`, `Arithmetic` | Options, bytes and flattened lists of buffers; division with remainder. |

## How things are modelled

- A class of the source is a class here, with the same fields; its methods are proved to
  do what a function on the object's state says, and the lemmas are about that function.
- Protocols are state machines over atomic steps: the client's handlers run to their next
  `await` or `yield` in one step. Whatever is between the client and a server may lose,
  repeat, delay and reorder for the ordered consumers; for the connection it is a FIFO
  link in each direction, and a new pair of links for each connection.
- Clocks, random numbers, names and the outcome of dials are parameters, arbitrary in the
  range the source gives them. Numbers of deferreds, subscriptions and resets stand for
  object identity. Ghost fields record history (what was given to a hash, published,
  received) and are never read by the code.
- Arithmetic is unbounded except where the source relies on a width: 32-bit words are bit
  vectors, octets are eight bits, and the identifier generator shows that it stays below
  2^53.

## Where the code differs from what it is for

Each of these has an exact condition and, where it fails, an input or a run that shows it.

- A CR inside an argument is kept or skipped depending on where the buffer ends; cutting
  the stream makes no difference to texts, events, state and failure exactly when no
  argument holds, behind its first byte, a CR other than directly before its NL.
- `readFrom` overwrites when bytes have been read from the buffer before and there is room
  in place, and fails when more has been read away than is left.
- A buffer refuses bytes although it would hold less than its largest size with them: it
  does exactly when they fit neither behind what it holds nor into half of its store, and
  its store and they together exceed that size.
- A push ordered consumer that resets before its first delivery restarts at sequence 1.
- Overlapping resets of a pull ordered consumer can bind a handler to an outdated consumer
  and deliver again.
- A pull consumer whose threshold is not below its limit (so by default for limits 1 and
  2) asks for zero messages.
- Publishes still on their way when a connection is given up are dropped; draining waits
  only for those of the present connection.
- Draining a connection swallows the refusal of a subscription that was stopped while it
  is in the table, and a rejected last flush; the connection is then never closed.
- A first connect with fewer than two allowed attempts removes a second, innocent server
  at each failure, so that half of the servers are never dialed.
- Headers with a negative code, or with a description that is not trimmed or contains a
  CR with an LF behind it, are not restored from their text.
- An identifier epoch restarted inside `next` may begin at zero, which prints like 36^10;
  it repeats an identifier, if it goes on, exactly when its step divides 36^10.

## Model

| member | source | states |
|---|---|---|
| Wire.Parser.Parse | nats-base-client/parser.ts:103-529 | For every buffer the parser ends where the byte-at-a-time machine ends: same events, same state, same collected bytes; and it throws exactly at the byte the machine refuses, with the same error. |
| Wire.Parser.ParseAt | nats-base-client/parser.ts:105-514 | One turn of the loop, jumps included, leaves the outcome of the rest of the buffer unchanged. |
| Wire.Parser.EndOfMsgArg | nats-base-client/parser.ts:195-208 | The NL of a message line takes one machine step: the argument without its trailing CR is split and checked, and the payload begins behind it. |
| Wire.Parser.BodyBytes | nats-base-client/parser.ts:226-239 | Payload bytes copied into the spill buffer in one go are the bytes the machine takes one by one. |
| Wire.Parser.SpillRest | nats-base-client/parser.ts:516-528 | What is spilled at the end of a buffer is exactly the machine's cut. |
| Wire.Parser.CloneMsgArg | nats-base-client/parser.ts:535-544 | Moving subject and reply into a buffer of their own leaves them as they were. |
| Wire.Parser.ProcessMsgArgs | nats-base-client/parser.ts:546-598 | Three or four fields, decimal number of subscription and size, or the error the source raises. |
| Wire.Parser.ProcessHeaderMsgArgs | nats-base-client/parser.ts:610-666 | Four or five fields, with a header size that is not larger than the size, or the error. |
| Wire.SplitArgs | nats-base-client/parser.ts:551-573 | The index loop yields the separator-free runs of the argument, in order. |
| Wire.ProtoParseInt | nats-base-client/parser.ts:668-680 | The decimal value of a nonempty run of digits, and -1 for everything else. |
| Wire.JumpOverBody | nats-base-client/parser.ts:204-207 | Jumping to the byte after a payload, even past the end of the buffer, is what the machine does byte by byte. |
| Wire.ReadLoop | nats-base-client/protocol.ts:560-568 | Parsing every buffer of a connection is feeding them to the machine one after the other. |
| WireMachine.RunConcat | nats-base-client/parser.ts:103-514 | Running over a concatenation is running over its parts one after the other. |
| Chunking.CutIsHarmless | nats-base-client/parser.ts:516-528 | In a clean stream the machine goes on after a cut as it would have without. |
| Chunking.CutBeforeStrayCR | nats-base-client/parser.ts:192-198 | In any other stream a cut directly before the first stray CR changes the outcome. |
| Chunking.ChunkingDoesNotMatterIffClean | nats-base-client/parser.ts:103-529 | All ways of cutting a stream into buffers give the same events, texts, final state and failure exactly when arguments hold, behind their first byte, a CR only directly before their NL. |
| WireFormat.DigitsRoundTrip | nats-base-client/parser.ts:668-680 | Printed numbers are read back. |
| WireFormat.WireRoundTrip | nats-base-client/parser.ts:103-259 | Any list of operations with arbitrary payloads, in any spelling and cut in any way, is parsed back to exactly that list and ends at the start state. |
| WireFormat.StrayCRExample | nats-base-client/parser.ts:192-198 | A concrete error line whose text depends on where it is cut. |
| WireFormat.ReadConnection | nats-base-client/protocol.ts:560-568 | The round trip for the parser class itself, fed by the reader of a connection. |
| WireGrammar.LanguageIff | nats-base-client/parser.ts:103-681 | The language: bytes can be read to the start state with some events, in some buffers, exactly when they are lines of the grammar (a word in any case; blanks; three to five fields with numbers made of digits; a body of the size given; a line end) and the events are those of the lines. |
| WireGrammar.ReadIsLines | nats-base-client/parser.ts:103-529 | Whatever is read to the start state, in whatever buffers it came, is such lines, each argument read as its first buffer makes it, and what was handed on are their events. |
| WireGrammar.LinesAreRead | nats-base-client/parser.ts:103-259 | All such lines are read in one buffer, each argument with the reading it has there. |
| WireGrammar.NumberIff | nats-base-client/parser.ts:668-680 | A field is a number exactly when it is a nonempty run of digits; anything else gives -1. |
| WireGrammar.NumberValue | nats-base-client/parser.ts:668-680 | A further digit makes ten times the value and the digit. |
| WireGrammar.ArgsIff | nats-base-client/parser.ts:546-666 | Which arguments are accepted and as what, and which error the others raise. |
| WireGrammar.FieldsOfWeave | nats-base-client/parser.ts:551-573 | The fields of an argument are the runs between its separators, wherever these are. |
| DenoBuffer.Buffer.GrowBy | nats-base-client/denobuffer.ts:172-202 | Reslice, slide down or reallocate: there is room for n more bytes at the place returned, the contents are in front of it, and capacity and offset are those of the case; it fails exactly when `Refuses` says, and changes no contents then. |
| DenoBuffer.Buffer.Write | nats-base-client/denobuffer.ts:167-170 | Appends to the contents, or is refused exactly when growing is. |
| DenoBuffer.Buffer.Read | nats-base-client/denobuffer.ts:144-157 | Moves the front of the contents out; null exactly when there is nothing to read and room to read it. |
| DenoBuffer.Buffer.Grow | nats-base-client/denobuffer.ts:204-210 | Makes room and leaves the contents; refused exactly when growing is, and for a negative count. |
| DenoBuffer.Buffer.Truncate | nats-base-client/denobuffer.ts:106-115 | Keeps the first n bytes, or reports a range error and changes nothing. |
| DenoBuffer.Buffer.Reset | nats-base-client/denobuffer.ts:117-120 | Empties the buffer. |
| DenoBuffer.Buffer.ReadInPlace | nats-base-client/denobuffer.ts:219-230 | A read straight into the store appends what was read exactly when nothing had been read from the buffer before; otherwise what it leaves is said, which may be a negative length. |
| DenoBuffer.Buffer.ReadFrom | nats-base-client/denobuffer.ts:212-234 | For every buffer and every reader, what `Received` says: everything was read, the buffer became too large, or the next view of the store is out of range. |
| DenoBuffer.ReadFromIff | nats-base-client/denobuffer.ts:212-234 | All that the reader produces is appended exactly when nothing has been read away before, or there is less room than the least read, or there is nothing to read; unless the buffer becomes too large. |
| DenoBuffer.Overwritten | nats-base-client/denobuffer.ts:219-230 | A buffer of which one byte was read away loses its last byte to the next read. |
| DenoBuffer.BrokenExample | nats-base-client/denobuffer.ts:219-230 | A buffer of which more has been read away than is left ends with a view that is out of range. |
| DenoBuffer.ReadAll | nats-base-client/denobuffer.ts:237-241 | Returns exactly what the reader produced; refused exactly when one of its writes is, which needs more than a third of the largest size. |
| DenoBuffer.Replay | nats-base-client/denobuffer.ts:89-210 | Any sequence of operations, refused ones among them: contents, capacity, offset and answers are those of the model; no answer is a refusal for size exactly when every operation fits, and then contents and answers are those of a plain sequence of bytes. |
| DenoBuffer.FirstInFirstOut | nats-base-client/denobuffer.ts:144-170 | Without truncation, what was read and what is held is what was there and what was written, in that order. |
| DenoBuffer.RefusalBounds | nats-base-client/denobuffer.ts:180-191 | What would exceed the largest size is refused, and nothing that stays below a third of it. |
| DenoBuffer.ModestFits | nats-base-client/denobuffer.ts:89-210 | So a run that stays below a third of the largest size refuses nothing. |
| DenoBuffer.RefusedExample | nats-base-client/denobuffer.ts:187-188 | Three operations on a new buffer, the last of which is refused although the contents would be far below the largest size. |
| DataBuffer.Buffer.Fill | nats-base-client/databuffer.ts:101-112 | Appends the buffers to the contents. |
| DataBuffer.Buffer.Pack | nats-base-client/databuffer.ts:57-68 | One buffer in place of many, with the same contents. |
| DataBuffer.Buffer.Shift | nats-base-client/databuffer.ts:70-79 | Takes the first buffer off the contents. |
| DataBuffer.Buffer.Drain | nats-base-client/databuffer.ts:81-99 | Takes the first n bytes off the contents, or all. |
| DataBuffer.Buffer.Peek | nats-base-client/databuffer.ts:114-120 | Shows the contents and keeps them. |
| Sha256Spec.PadInOneBlock | nats-base-client/js-sha256.js:341-346 | By the standard's padding, a message whose last block has room for the length is hashed by one more compression, of the tail, the mark, zeros and the length. |
| Sha256Spec.PadInTwoBlocks | nats-base-client/js-sha256.js:341-346 | Otherwise by two, the length being in a block of its own. |
| Sha256Spec.BinaryOfOctal | nats-base-client/js-sha256.js:344-345 | A number shifted by three digits and combined with three digits is the binary number of both. |
| Sha256.Hasher.constructor | nats-base-client/js-sha256.js:283-303 | A new object has seen nothing and holds the initial hash value of FIPS 180-4. |
| Sha256.Hasher.Update | nats-base-client/js-sha256.js:324-340 | Any division of a message into calls leaves the same meaning: whole blocks compressed, the rest held in the block or in the carried state. |
| Sha256.Hasher.PackOctets | nats-base-client/js-sha256.js:335-335 | Octets or-ed into lanes make the big-endian words of the block. |
| Sha256.Hasher.Finalize | nats-base-client/js-sha256.js:341-346 | Afterwards the chaining value is the hash of the padded message, whether the last block was empty, partly filled, too full for the length, or full and compressed already. |
| Sha256.Hasher.Digest | nats-base-client/js-sha256.js:356-389 | Returns the digest of FIPS 180-4 of everything given to it. |
| Sha256.Hasher.ExpandBlock | nats-base-client/js-sha256.js:349-349 | The words behind the block become the message schedule of section 6.2.2. |
| Sha256.Hasher.Hash | nats-base-client/js-sha256.js:347-355 | One compression of the chaining value with the block, also when it is the first. |
| Sha256.Hasher.FourRounds | nats-base-client/js-sha256.js:350-351 | Four rounds with eight variables that change places and the majority term carried over are four rounds of the standard. |
| Sha256.OneRound | nats-base-client/js-sha256.js:350-350 | One unrolled round is a round of the standard and yields the next kept term. |
| Sha256.FirstRound | nats-base-client/js-sha256.js:350-350 | The constants of the first round give the standard's first round for every first word. |
| Sha256.DigestOf | nats-base-client/js-sha256.js:324-389 | However a message is divided over calls, the digest is the standard's digest of the whole. |
| Sha256Constants.RoundConstants | nats-base-client/js-sha256.js:165-232 | The constant of each round is the first 32 bits of the fractional part of the cube root of its prime (section 4.2.2 of FIPS 180-4). |
| Sha256Constants.FirstPrimes | nats-base-client/js-sha256.js:165-232 | The primes are the first 64: the first begins them, and each is followed by the next. |
| Sha256Constants.InitialValue | nats-base-client/js-sha256.js:302-302 | The initial value is that of the square roots of the first eight (section 5.3.3). |
| Sha256Spec.OctetsOfWord | nats-base-client/js-sha256.js:361-389 | The four octets of a word are those that make it up. |
| Sha256Example.DigestIs | nats-base-client/js-sha256.js:347-389 | The digest of the three octets "abc", worked out through all 64 rounds. |
| ObjectStore.MaxChunk | jetstream/objectstore.ts:332-336 | The largest chunk size that is neither above what was asked for nor above what the server takes, with their defaults. |
| ObjectStore.ChunksJoin | jetstream/objectstore.ts:361-372 | The chunks joined are the data. |
| ObjectStore.ChunkSizes | jetstream/objectstore.ts:361-430 | Each chunk is nonempty and within the size, all but the last have exactly the size. |
| ObjectStore.ChunkCount | jetstream/objectstore.ts:368-369 | Their number is the size of the data divided by the chunk size, rounded up. |
| ObjectStore.Put | jetstream/objectstore.ts:356-433 | However the data is divided into reads, what is published are its chunks, and size, number of chunks and digest are those of the data. |
| ObjectStore.Get | jetstream/objectstore.ts:475-572 | Returns the stored data exactly when it hashes to the digest recorded, and reports corruption otherwise. |
| ObjectStore.PutThenGet | jetstream/objectstore.ts:358-490 | What was put comes back. |
| Stream.SameCount | jetstream/jsclient.ts:880-891 | As many wanted entries from the same place are the same entries. |
| Stream.TakeNext | jetstream/jsclient.ts:880-891 | Taking the delivery with the next number extends what was taken by exactly the next wanted entry. |
| Stream.MatchingComplete | jetstream/jsclient.ts:880-891 | No wanted entry of a stretch is missing from its list. |
| Stream.MatchingAscends | jetstream/jsclient.ts:880-891 | The list is in stream order, without repetition. |
| PushOrdered.Subscriptions.Resub | nats-base-client/protocol.ts:319-325 | The old number is forgotten and the new one was never used. |
| PushOrdered.Subscription.ResetOrderedConsumer | jetstream/jsclient.ts:771-814 | A closed subscription is left alone; otherwise a new subscription number, numbering from zero and a consumer that starts where asked. |
| PushOrdered.Subscription.CheckOrderedConsumer | jetstream/jsclient.ts:880-891 | A delivery is taken exactly when its number is the next; otherwise the consumer is reset to the entry after the last one taken. |
| PushOrdered.Subscription.ProcessMsg | nats-base-client/protocol.ts:727-747 | Deliveries under another number than the present one change nothing. |
| PushOrdered.Subscription.ProcessHeartbeat | jetstream/jsclient.ts:862-878 | A heartbeat whose last number is not the last one taken resets. |
| PushOrdered.Subscription.MissedHeartbeats | jetstream/jsclient.ts:829-857 | Missed heartbeats reset while connected. |
| PushOrdered.ExactDelivery | jetstream/jsclient.ts:771-891 | In every run with loss, repetition, delay, reordering, heartbeats and resets, the user has exactly the wanted entries up to the last one taken, in order: from the start asked for, or from 1 if a reset came before anything was taken. |
| PushOrdered.NothingMissedIsIgnored | jetstream/jsclient.ts:829-891 | In every run the next delivery of the present consumer gives the user one more entry, and any other, a heartbeat that names another delivery, and missed heartbeats while connected lead to a consumer under a number that none had, whose first entry will be the next wanted one. |
| PushOrdered.CanCatchUp | jetstream/jsclient.ts:829-891 | After every run three more steps give the user the next wanted entry. |
| PushOrdered.PromiseKeptIff | jetstream/jsclient.ts:771-891 | In a run the user has what was asked for exactly when there was no such reset or nothing was wanted before the start. |
| PushOrdered.AlwaysKeptIff | jetstream/jsclient.ts:847-848 | It is so in all runs exactly when no wanted entry is or can come to be before the start. |
| PushOrdered.EarlyReset | jetstream/jsclient.ts:847-885 | A run in which an entry before the start is handed on. |
| PullOrdered.OrderedPullConsumer.GetConsumerOpts | jetstream/consumer.ts:1035-1055 | A new serial number, and a start that is never zero. |
| PullOrdered.OrderedPullConsumer.Reset | jetstream/consumer.ts:1097-1137 | What a reset does before the server answers: old handlers are dead, numbering is from zero, the consumer starts after the cursor. |
| PullOrdered.OrderedPullConsumer.AfterReset | jetstream/consumer.ts:1183-1214 | When the answer comes the handler is bound to the serial number of that moment. |
| PullOrdered.OrderedPullConsumer.InternalHandler | jetstream/consumer.ts:1139-1159 | A dead handler does nothing; a live one takes the next number or resets. |
| PullOrdered.ExactWhileFresh | jetstream/consumer.ts:1097-1216 | In every run in which the consumers that are bound start where the latest reset wants, the user has exactly the wanted entries from the start to the cursor. |
| PullOrdered.ExactOneAtATime | jetstream/consumer.ts:1097-1216 | So in every run with at most one reset under way. |
| PullOrdered.NothingMissedIsIgnored | jetstream/consumer.ts:1097-1216 | In every run with fresh confirmations a live handler gives the user the next delivery, and any other delivery, or the loss of the consumer, leads to a consumer whose first entry will be the next wanted one; a dead handler does nothing. |
| PullOrdered.CanCatchUp | jetstream/consumer.ts:1097-1216 | Whenever a reset can be asked for, four steps give the user the next wanted entry. |
| PullOrdered.SafeIffFresh | jetstream/consumer.ts:1183-1197 | Binding a consumer is safe in everything that can follow exactly when it starts where the latest reset wants. |
| PullOrdered.StaleConsumerRepeats | jetstream/consumer.ts:1183-1197 | After any other binding there is a continuation in which the user is given an entry again. |
| PullOrdered.OverlapExample | jetstream/consumer.ts:1183-1197 | A bound consumer asks for a reset twice; the earlier is confirmed under the serial number of the later, delivers and asks again: then the later one is such a binding. |
| PullCredit.ParseOptions | jetstream/consumer.ts:739-783 | The limit asked for or 100; the threshold asked for or three quarters of the limit, rounded; the default threshold is below the limit exactly from limit 3 on. |
| PullCredit.PullConsumerMessages.OnEvent | jetstream/consumer.ts:383-473 | A message, heartbeat or status changes pending and asks for more, or stops the consumer, as the transition function says. |
| PullCredit.StoppedIff | jetstream/consumer.ts:405-443 | In every run the consumer has stopped exactly when a status with code 400 has come that reports nothing, or, if missing resources are to end it, one with 503 or of a deleted consumer. |
| PullCredit.PullConsumerMessages.ResetPending | jetstream/consumer.ts:574-582 | Pending starts anew with a full request. |
| PullCredit.CreditConservation | jetstream/consumer.ts:383-473 | Without a reset and until it is stopped, pending is the sum of what is left of all requests, queued, on their way or at the server, of messages and reported discards on their way, and of requests refused without a report. |
| PullCredit.ResetsAskAgain | jetstream/consumer.ts:574-615 | With resets, the server owes in addition exactly what was pending at them. |
| PullCredit.PendingStaysInRange | jetstream/consumer.ts:457-466 | After every event pending is positive and within the limit, and above the threshold exactly when the threshold is below the limit. |
| PullCredit.NoEmptyRequestsIff | jetstream/consumer.ts:672-678 | In all runs every request asks for at least one message exactly when the threshold is below the limit. |
| PullCredit.EmptyRequestExample | jetstream/consumer.ts:457-466 | With a threshold that is not below the limit, a status that reports nothing makes the consumer ask for zero messages. |
| Protocol.ProtocolHandler.SendCommand | nats-base-client/protocol.ts:883-899 | A command goes behind everything sent before, and out at once when the buffer is full. |
| Protocol.ProtocolHandler.FlushPending | nats-base-client/protocol.ts:1086-1095 | The buffer goes to the transport only on an established connection. |
| Protocol.ProtocolHandler.Flush | nats-base-client/protocol.ts:1016-1024 | A new deferred last in the list, and a PING last among the commands. |
| Protocol.ProtocolHandler.Drain | nats-base-client/protocol.ts:242-261 | UNSUB and then a PING, once; the subscription stays. |
| Protocol.ProtocolHandler.ResetOutbound | nats-base-client/protocol.ts:446-459 | What was buffered is dropped, what was awaited is rejected. |
| Protocol.ProtocolHandler.Prepare | nats-base-client/protocol.ts:473-491 | A new transport with the deferred of its handshake first in the list. |
| Protocol.ProtocolHandler.ProcessInfo | nats-base-client/protocol.ts:810-840 | The first INFO is answered by CONNECT and PING ahead of the buffer, later ones by nothing. |
| Protocol.ProtocolHandler.ProcessPong | nats-base-client/protocol.ts:803-808 | A PONG resolves the first deferred of the list. |
| Protocol.ProtocolHandler.ProcessMsg | nats-base-client/protocol.ts:727-747 | A message reaches its subscription while that is in the table. |
| Protocol.ProtocolHandler.SendSubscriptions | nats-base-client/protocol.ts:1026-1039 | Every subscription is announced, and nothing else. |
| Protocol.ProtocolHandler.Established | nats-base-client/protocol.ts:576-587 | Subscriptions are announced before anything that was buffered. |
| Protocol.ProtocolHandler.DrainAll | nats-base-client/protocol.ts:1069-1084 | The world goes by legal steps to one in which every subscription is draining but those stopped before, whose refusal is swallowed; the connection waits for the drains exactly when there are none of these. |
| Protocol.Perform | nats-base-client/protocol.ts:446-1095 | The handler is a client of the world: each legal action, carried out by the method it stands for, takes handler and world to the next state and keeps the invariants, that of the subscriptions at the server among them; a PONG settles the deferred of its own PING, and a subscription cancelled on its PONG has been given everything. |
| Connection.StepBase | nats-base-client/protocol.ts:446-503 | Every step keeps: the list of deferreds is that of the PINGs answered, sent or buffered, in order; publishes and messages are conserved on their way. |
| Connection.StepDrains | nats-base-client/protocol.ts:242-261 | Every step keeps: UNSUB is ahead of its PING with no SUB behind it, and when the PING is answered the server has ended the subscription and no message for it is behind the PONG. |
| Connection.PongSettlesItsPing | nats-base-client/protocol.ts:803-808 | In every run each PONG settles the deferred of the PING it answers. |
| Connection.DrainLosesNothing | nats-base-client/protocol.ts:242-261 | In every run, when a drained subscription is cancelled on its PONG it has been given everything the server sent for it on this connection, in order, and no more will come. |
| Connection.FlushWaitsForPublishes | nats-base-client/protocol.ts:1016-1024 | When a flush is answered every publish made before it on this connection has reached the server. |
| Connection.GivenUpIff | nats-base-client/protocol.ts:446-459 | When a connection is given up, nothing is dropped and all its publishes have reached the server exactly when none is on its way. |
| Connection.CloseAfterPublishes | nats-base-client/protocol.ts:1069-1084 | When a draining connection closes, every publish made on it before the last flush has reached the server; those of earlier connections all did exactly when none of these was given up with a publish on its way. |
| Connection.DroppedExample | nats-base-client/protocol.ts:446-459 | A run in which a publish made after an established connection was lost is dropped by the next dial. |
| Announced.ServerWillKnow | nats-base-client/protocol.ts:576-587 | In every run, while connected: when the server has taken what is on its way it is subscribed to exactly the subscriptions of the client that are not draining. |
| Announced.DialAnnounces | nats-base-client/protocol.ts:1026-1039 | After a dial, when the server has taken what it was sent, it has every subscription that is not draining, and no other. |
| Announced.PublishesAreKept | nats-base-client/protocol.ts:903-950 | In every run what a connection has to publish is what was published since its dial began. |
| Announced.CallsDo | nats-base-client/protocol.ts:952-1024 | A call puts its commands behind everything sent: a new subscription under a number none had, UNSUB, UNSUB and PING of a drain, PING of a flush with its deferred last in the list. |
| Draining.DrainEnds | nats-base-client/protocol.ts:1069-1084 | A draining connection that stays up comes to its close without further calls, and with every publish at the server. |
| Draining.ClosesIff | nats-base-client/protocol.ts:1069-1084 | In every run, a connection that is up can come to its close without further calls exactly when it waits for drains, or for a last flush that was not rejected. |
| Draining.RejectedExample | nats-base-client/protocol.ts:1075-1083 | A run in which the last flush of a draining connection is rejected by a loss of the connection. |
| QueueModel.QueueIsSafe | nats-base-client/queued_iterator.ts:90-189 | For every interleaving of pushes, stops and the generator: an unresolved signal means an empty queue and not done, a waiting generator with work can go on, and what is through the generator, in its batch and in the queue is what was offered while it was not done, in order and once; what was yielded is what of it passes the filter. |
| QueueModel.EndsAfterItsClose | nats-base-client/protocol.ts:207-229 | A generator that ended with nobody stopping or leaving it was ended by a queued function, and everything offered before that function that passes was yielded. |
| QueueModel.DoneIff | nats-base-client/queued_iterator.ts:181-189 | In every run the iterator is done exactly when it was stopped, its reader left at a value, or a function that stops or throws was run. |
| QueueModel.StopGivesAll | nats-base-client/queued_iterator.ts:112-179 | Stopped without an error while the reader is not in a batch, it yields everything offered before it ends, if no function throws and the reader stays. |
| QueueModel.RunOnIsARun | nats-base-client/queued_iterator.ts:112-179 | The generator always comes to a suspension, and by its own steps. |
| QueuedIterator.Iterator.Push | nats-base-client/queued_iterator.ts:90-110 | Ignored when done or filtered out; otherwise queued and signalled. |
| QueuedIterator.Iterator.Stop | nats-base-client/queued_iterator.ts:181-189 | Done once, with its error, and signalled. |
| QueuedIterator.Iterator.Next | nats-base-client/queued_iterator.ts:112-179 | The loops, from one suspension to the next, do exactly the generator's steps. |
| QueuedIterator.Iterator.TakeBatch | nats-base-client/queued_iterator.ts:130-164 | Going through a batch stops at a value that passes, at the end of the generator or of the batch, and leaves the rest of the run unchanged. |
| KeyValue.Bucket.Create | jetstream/kv.ts:470-493 | With nobody else about, create succeeds exactly when the key is absent or deleted. |
| KeyValue.Bucket.Put | jetstream/kv.ts:502-528 | The write is appended exactly when the expected revision is the last of its key. |
| KeyValue.Bucket.Update | jetstream/kv.ts:495-500 | A version that is not positive is an error, negative ones too; otherwise as put. |
| KeyValue.Bucket.Delete | jetstream/kv.ts:633-649 | A tombstone under the same check, after which the key is free. |
| KeyValue.Bucket.Get | jetstream/kv.ts:530-564 | The last revision of the key in the stream with its data, and nothing exactly when there is none. |
| KeyValue.WrittenIsRead | jetstream/kv.ts:502-564 | What was written is what is read; other keys are left alone; of a purged key nothing older remains. |
| KeyValue.CreateFindsKeyFree | jetstream/kv.ts:470-528 | In every run of any number of clients with stale reads, each revision written by a create found its key without a revision or deleted. |
| KeyValue.OneCreateBetweenDeletes | jetstream/kv.ts:470-564 | Between two creates of a key there is a tombstone, unless the first of them has been removed from the stream. |
| Servers.Servers.SelectServer | nats-base-client/servers.ts:249-261 | The first call gives the first server, later ones rotate the list. |
| Servers.Servers.RemoveServer | nats-base-client/servers.ts:267-272 | Removes the server given, or the last one when it is not in the list. |
| Servers.Servers.Update | nats-base-client/servers.ts:286-328 | The old list without the gossiped servers that are no longer reported, in its order, then the newly reported ones; added and deleted are these two differences. |
| Servers.Servers.DeleteAt | nats-base-client/servers.ts:314-319 | Deleting by index from the last to the first leaves exactly the servers to be kept. |
| Servers.UpdateKeepsDistinct | nats-base-client/servers.ts:286-328 | Addresses stay distinct. |
| Servers.UpdateIsTheDifference | nats-base-client/servers.ts:286-328 | An address is in the list afterwards exactly when it was and is not deleted, or is added. |
| Servers.KeptAre | nats-base-client/servers.ts:298-319 | Those that stay are in their order all but the gossiped servers that are not reported and not the present one. |
| Servers.DroppedAre | nats-base-client/servers.ts:298-319 | And those that go are exactly these. |
| Servers.NewsAre | nats-base-client/servers.ts:286-328 | The news are the addresses reported and not known, each once, in the order of their first report. |
| Servers.UpdateTwice | nats-base-client/servers.ts:286-328 | The same report again changes nothing. |
| DialLoop.OnlyTheFailedGoesIff | nats-base-client/protocol.ts:663-678 | All other servers stay in the list after a failure exactly when the client was connected before, or further attempts are allowed, or there is no other. |
| DialLoop.AfterFailure | nats-base-client/protocol.ts:663-678 | What a failed dial makes of the list. |
| DialLoop.DodialLoop | nats-base-client/protocol.ts:637-685 | The loop ends; dials number at most the sum over the servers of the attempts left, at least one each, and exactly that after a first connection if all fail; on a first connect every server is dialed once in order, or only the first half when no second attempt is allowed. |
| DialLoop.DialOne | nats-base-client/protocol.ts:655-678 | A server is dialed at the earliest when the wait after its last dial is over. |
| DialLoop.FirstTriesAre | nats-base-client/protocol.ts:663-678 | Which servers a failing first connect dials. |
| DialLoop.UntriedExample | nats-base-client/protocol.ts:663-678 | Of two servers with one attempt each the second is removed before it was dialed. |
| IpParser.Dtoi | nats-base-client/ipparser.ts:172-189 | A decimal number at the front, if there is one and it is not too large. |
| IpParser.Xtoi | nats-base-client/ipparser.ts:191-216 | The same in base 16, in either case. |
| IpParser.Expand | nats-base-client/ipparser.ts:158-165 | The shift in place puts zeros where the "::" was. |
| IpParser.ParseIPv4 | nats-base-client/ipparser.ts:62-82 | Four octets, what follows being ignored. |
| IpParser.ParseIPv6 | nats-base-client/ipparser.ts:84-170 | The loop over the array is the recursive reading of groups, with the same rejections. |
| IpParser.ParseIP | nats-base-client/ipparser.ts:50-60 | The first dot or colon decides. |
| IpText.EverySpellingParses | nats-base-client/ipparser.ts:50-170 | Every spelling section 2.2 of RFC 4291 allows, with or without "::", with one to four digits in either case, with or without dotted octets, is read as the sixteen octets it stands for. |
| IpText.DottedParses | nats-base-client/ipparser.ts:62-82 | Four dotted octets are read as their address. |
| IpText.ReadAddress | nats-base-client/ipparser.ts:50-60 | The same for the parser method. |
| Headers.CanonicalMIMEHeaderKey | nats-base-client/headers.ts:33-63 | The loop yields the canonical form, or an error for a character that is not allowed. |
| Headers.CanonicalTwice | nats-base-client/headers.ts:33-63 | The canonical form is valid and its own canonical form. |
| Headers.SameCanonicalIff | nats-base-client/headers.ts:33-63 | Two keys have the same canonical form exactly when they differ in case alone. |
| Headers.FindKeysFinds | nats-base-client/headers.ts:188-207 | Which keys each way of matching finds. |
| Headers.TargetIs | nats-base-client/headers.ts:240-252 | A value goes to the first key that matches, or to the key itself. |
| Headers.AppendedIs | nats-base-client/headers.ts:240-258 | One more value, trimmed, behind those of its key; other keys, their order and the status stay; an error exactly for a bad key or a value with CR or LF. |
| Headers.WithoutKeeps | nats-base-client/headers.ts:272-277 | What is left after deleting is all fields with other keys, in their order. |
| Headers.TrimIs | nats-base-client/headers.ts:169-178 | Trimming cuts off white space and nothing else. |
| Headers.PrintedExample | nats-base-client/headers.ts:149-163 | The text of a header set, letter by letter. |
| Headers.AppendedWellMade | nats-base-client/headers.ts:240-258 | Appending keeps headers well made. |
| Headers.DeletedWellMade | nats-base-client/headers.ts:272-277 | So does deleting. |
| Headers.RoundTripIff | nats-base-client/headers.ts:116-163 | Printing and reading restores code, description, order of keys and of their values exactly when the code is not negative and the description is trimmed and ends no line. |
| Headers.NotReadBackExamples | nats-base-client/headers.ts:116-163 | Three headers that are read back as something else: a blank in front of the description, a line end in it, a negative code. |
| MsgHdrs.Hdrs.FindKeys | nats-base-client/headers.ts:188-207 | The matching keys in order, or an error for a bad canonical key. |
| MsgHdrs.Hdrs.Append | nats-base-client/headers.ts:240-258 | One more value at the key it belongs to, trimmed, or an error and no change. |
| MsgHdrs.Hdrs.Delete | nats-base-client/headers.ts:272-277 | All matching keys go. |
| MsgHdrs.Hdrs.Set | nats-base-client/headers.ts:235-238 | Delete and then append; a bad value is noticed after the deletion. |
| MsgHdrs.Hdrs.ToString | nats-base-client/headers.ts:149-163 | The loops print the text form. |
| MsgHdrs.Decode | nats-base-client/headers.ts:116-147 | The loop reads what the text says, or raises what append raises. |
| MsgHdrs.MakeHeaders | nats-base-client/headers.ts:65-70 | A status needs both of its parts. |
| MsgHdrs.Copy | nats-base-client/headers.ts:116-167 | Headers printed and read back are equal. |
| Nuid.MaxSeqIsPower | nats-base-client/nuid.ts:18-25 | The largest number is 36^10, and with a step it stays below 2^53. |
| Nuid.DigitsTellApart | nats-base-client/nuid.ts:99-105 | Printed numbers are equal exactly when they are equal below the power of their length. |
| Nuid.DigitsStandFor | nats-base-client/nuid.ts:99-105 | The digits printed stand for the number in base 36, as far as they go. |
| Nuid.SameIdIff | nats-base-client/nuid.ts:99-105 | Two numbers of an epoch print alike exactly when they are 0 and 36^10. |
| Nuid.EpochDiffersIff | nats-base-client/nuid.ts:112-124 | The identifiers of an epoch are pairwise different exactly when it has not gone from 0 to 36^10. |
| Nuid.CanRepeatIff | nats-base-client/nuid.ts:112-124 | An epoch can come to repeat an identifier exactly when it begins at 0 with a step that divides 36^10. |
| Nuid.RepeatExample | nats-base-client/nuid.ts:112-124 | From 0 by steps of 36 the first identifier comes again. |
| Nuid.Generator.FillSeq | nats-base-client/nuid.ts:99-105 | The digit loop writes the number behind the prefix. |
| Nuid.Generator.SetPre | nats-base-client/nuid.ts:85-92 | The random prefix in base 36. |
| Nuid.Generator.Next | nats-base-client/nuid.ts:112-124 | 22 base-36 digits with a number larger than all before it in the epoch, or the first of a new epoch. |
| Nuid.Generator.IdsDiffer | nats-base-client/nuid.ts:63-124 | In an epoch begun by `init` all identifiers differ; in one begun within `next` exactly unless it has gone from 0 to 36^10, which it never does by a step that does not divide 36^10. |

## Left out

- Sockets, TLS, DNS, URL parsing, text encoding, JSON, authentication, timers and their jitter: foreign calls or plumbing; links and clocks are modelled by their effect.
- Wire.Parser.Parse: spilled arguments and payloads are plain sequences, which `DenoBuffer` shows its buffer to be; its size limit of four gigabytes is not in the parser, and sizes above 2^53 are not rounded.
- DenoBuffer.Buffer.ReadFrom: what other operations do with a buffer left with a negative length.
- `writeAll`, `readByte`, `writeByte` and `writeString` of the growable buffer: they repeat read and write.
- SHA-224, HMAC and string input of the hash: no new idea. Messages of 2^61 octets and more, for which FIPS 180-4 defines nothing.
- ObjectStore.Put: publishing does not fail, and metadata, links, base-64 and the purge of old chunks are not modelled.
- ObjectStore.Get: the messages of an object arrive in order, which is what the ordered consumer is for.
- Ordered consumers with the policies last, last per subject, new and by time, and fetch mode; streams from which entries disappear.
- PullOrdered.OrderedPullConsumer.GetConsumerOpts: these policies, which it sets for a start directly behind the sequence given, and the settings that are only passed on; `info` called while a reset is under way.
- PullCredit.ParseOptions: limits in bytes, expiry and heartbeat and the errors of these.
- PullCredit.PullConsumerMessages.OnEvent: limits in bytes, the count of requests, and notifications.
- PullCredit.StoppedIff: a stop by the user, and one for an error of the subscription.
- Connection.DrainLosesNothing: automatic unsubscription after a maximum, queue groups, the heartbeat timer and calls after close are not modelled; the server sends one PONG for each PING.
- Protocol.ProtocolHandler.ProcessMsg: counting messages towards such a maximum.
- Protocol.ProtocolHandler.DrainAll: which subscriptions have been stopped is a parameter; how an iterator stops is in `QueueModel`.
- QueueModel.QueueIsSafe: the counters of pending and filtered values, and the time spent in a handler.
- KeyValue.CreateFindsKeyFree: keys are not encoded, watching and listing are not modelled.
- Servers.Servers.Update: addresses are taken as already in the form `hostPort` gives them, and distinct.
- DialLoop.DodialLoop: waiting on the first connect and an unlimited number of attempts are ruled out, since the loop need not end then; the wait between dials of a server is constant, names are not resolved to several addresses, an INFO received during a dial adds no servers, and the loop is not ended by `close` or by the flag that aborts it.
- IpParser.ParseIP: that only valid text is accepted is not claimed; characters behind dotted octets are ignored.
- Headers.RoundTripIff: text is a sequence of characters; only ASCII white space is trimmed, and codes of 10^21 and more, which print with an exponent, are not treated.
- `equals`, `get`, `last`, `values` and `toRecord` of headers: lookups in the fields.
- How good the random numbers of the identifier generator are.
