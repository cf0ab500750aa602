# Verified model of the Akkon server

Akkon is a small C++ server: a thread pool behind an event loop, WebSocket framing, two
hash functions, a Bloom filter in front of an exact index, an arena allocator with
canaries, and sharded storage. This project models these parts in Dafny 4.11 and proves
what they keep and compute. `dafny verify dfyconfig.toml` checks everything.

| file | models |
|---|---|
| `Pool.dfy` | the thread pool as a state machine: each section under the queue mutex is one step, and each notification is its own step |
| `Server.dfy` | the event loop, the pending client actions and the pool together, as a state machine |
| `Outcome.dfy` | over whole runs of that machine: what a handler's action does to its connection, and the order of its chunks |
| `EventLoop.dfy` | the event loop's passes over the poll entries, and that an iteration is a run of that machine |
| `Handler.dfy` | the routes of the data handler and the action each posts |
| `Frames.dfy`, `Masking.dfy`, `FrameExamples.dfy` | WebSocket frames (sections 5.2 and 5.3 of RFC 6455, with the examples of section 5.7) |
| `Handshake.dfy`, `HandshakeExample.dfy` | the opening handshake (section 4.2.2 of RFC 6455, with the example of section 1.3) |
| `Base64.dfy` | Base64 (section 4 of RFC 4648) |
| `Sha1.dfy`, `Sha256.dfy`, `Padding.dfy`, `Words.dfy`, `Hex.dfy` | the hash functions (sections 5.1.1, 6.1 and 6.2 of FIPS 180-4) and the digest text |
| `Sha1Vectors.dfy`, `Sha256Vectors.dfy`, `HashConstants.dfy` | test vectors of the hash functions, computed round by round, and the roots their constants come from |
| `Index.dfy`, `IndexExample.dfy` | the Bloom filter and the query engine |
| `Storage.dfy`, `Service.dfy`, `Rows.dfy` | the shards, and the insert and exists routes over runs with failing writes and restarts: identifiers, rows and statuses |
| `Arena.dfy` | the bump allocator |
| `Arguments.dfy` | the argument parser and the shell's second scan |
| `Bytes.dfy`, `Options.dfy` | byte strings, big-endian numbers, optional values |

C++ objects that change in place are classes; each of their methods states its new state
as a function of the old one, and the lemmas are about those functions. Integer widths
are written out where they matter: the 32-bit accumulator of Base64, the 32-bit block
index and block count of SHA-256, the 64-bit lengths of padding, frames and the arena.

## Where the code falls short of what it is for

These are proved, each with the exact condition:

- A frame encoded from a message of more than 65535 bytes does not decode to it, and for
  all shorter messages it does (`Frames.DecodeEncoded`). The single-frame decoder, which
  ignores the declared length, recovers messages of any length (`Frames.DecodeSingleEncoded`).
- A declared 8-byte length for which header and payload add up to 2^64 or more makes the
  decoder throw while it builds the payload string; on every other buffer it does not
  (`Frames.TooLongMeansWrapped`, `Frames.Split`). Ten bytes suffice
  (`Frames.TenBytesThrow`), and since the handler of a WebSocket client decodes before it
  posts its action, it then posts none (`Handler.HandleData`).
- Control frames and continuations are dropped, so of a fragmented message only the first
  frame is delivered (`FrameExamples.OpcodeDecides`, `FrameExamples.UnmaskedExamples`).
- A request is answered with the key only if a space follows the colon of
  `Sec-WebSocket-Key:`, which the standard makes optional; otherwise the response is empty
  (`Handshake.EmptyExactly`, `Handshake.KeyAfterColon`). The first occurrence of the
  header's text decides, in whichever line it stands and whatever the later ones say
  (`Handshake.AnswerToHeader`).
- The padding keeps the message length exactly below 2^61 bytes (`Padding.StripPad`), and
  the SHA-256 block offset is right exactly below 2^26 blocks (`Sha256.OffsetExact`).
- The arena's bounds test accepts, besides the sizes that fit, exactly those for which
  the 64-bit sum wraps to at most the capacity (`Arena.AcceptsExactly`). The footer of such
  a request goes before its user block, usually over earlier blocks
  (`Arena.WrappedFooter`); blocks are placed exactly as long as no request has done this
  since the last reset (`Arena.RunSafe`). Verification does not notice: the footer is
  written where it will look for it, so every canary it reads stays intact
  (`Arena.RequestKeepsExactly`, `Arena.WrapsUndetected`) until some client writes to its
  own block and breaks one (`Arena.WrappedRequest`).
- The access check adds address and size in 64 bits, so it also passes ranges that wrap
  (`Arena.ArenaAllocator.CheckAccess`).
- A restart keeps identifiers distinct and indexed exactly when the shard files it finds,
  those it imports included, hold none twice and every row is loaded
  (`Service.StepKeeps`, `Service.RunKeepsExactly`, `Service.ReadAllExactly`). An insert can
  store an identifier twice exactly when the restart opened some shard but missed a row
  with a 64-character identifier (`Service.RestartSafeExactly`).
- An insert is acknowledged whether or not its row was written; after the next good restart
  it is known exactly when it was, or an imported file holds it
  (`Service.AcknowledgedSurvives`).
- `docs/MemoryDomainDesign.md:42-43` says debug mode tolerates unknown arguments; the
  parser runs before the scan that turns debug mode on, so `--debug` on the command line
  does not (`Arguments.DebugFlagNotRelaxing`).

## Model

| member | source | states |
|---|---|---|
| Pool.StepKeeps | src/network/Server.h:30-56 | every step of workers, `enqueue`, notifications and destructor keeps: no wakeup is lost, tasks start first-in first-out and exactly once, and no worker sleeps or leaves wrongly during shutdown |
| Pool.RunKeeps | src/network/Server.h:27-69 | the same in every state of every run of a pool of any size |
| Pool.WaitsOnlyWhenAllRun | src/network/Server.h:33-42 | with no wakeup under way a queued task waits only while every worker is running one |
| Pool.QueuedNotStuck | src/network/Server.h:33-56 | with a task queued some worker, notification or running task can go on without a spurious wakeup |
| Pool.StoppedStep | src/network/Server.h:37-69 | once stopping, `enqueue` accepts nothing and every other step uses up a measure over queue, workers and notifications |
| Pool.StoppedProgress | src/network/Server.h:58-69 | once stopping, some step can be taken as long as a worker has not left, so `join` is not blocked forever |
| Pool.AllExitedAllDone | src/network/Server.h:37-44 | when all workers have left the queue is empty and the done tasks are exactly the accepted ones |
| Pool.ShutdownTerminates | src/network/Server.h:37-69 | in any run of a stopped pool the steps other than refused `enqueue` calls are no more than its measure, and when none but those is left all workers have left and all accepted tasks are done once |
| Pool.ThreadPool.EnqueueLocked | src/network/Server.h:49-56 | the locked section of `enqueue` is one step, and a notification follows unless the pool is stopping |
| Pool.ThreadPool.EnterLocked | src/network/Server.h:31-42 | the locked section of the worker loop is one step: run the front task, leave, or wait |
| Pool.ThreadPool.StopLocked | src/network/Server.h:58-62 | the locked section of the destructor is one step |
| Server.StepKeeps | src/network/Server.cpp:114-206 | every step of event loop, handlers, stray closes, lockdown and pool keeps each connection serial |
| Server.RunSerial | src/network/Server.cpp:114-206 | in every reachable state an armed connection has no work outstanding and a suspended one exactly one of: queued job, handler that has not posted, action of its handler |
| Server.OneHandlerAtATime | src/network/Server.cpp:180-190 | no two workers are in unanswered handlers of one connection |
| Server.AnsweredInOrder | src/network/Server.cpp:180-190 | the chunks of a connection are answered in receive order, all but at most the last one |
| Outcome.PostedDecides | src/network/Server.cpp:120-144 | at the next batch after a handler posts its action, its polled connection is armed again iff the action enables polling, no close of it was pending or came in, and no lockdown began; otherwise it is not polled any more |
| Outcome.ChunksAccepted | src/network/Server.cpp:180-190 | in every run the jobs accepted for a connection hold exactly the chunks received from it, in order |
| Outcome.ChunksAnswered | src/network/Server.cpp:180-190 | the chunks answered are the first ones received, all but at most the last |
| Server.SuspendedNotStuck | src/network/Server.cpp:120-144 | while a connection is suspended a serving step is enabled: the batch that takes its handler's action, a handler's post or return, or a pool step other than a spurious wakeup |
| Server.ServedBounded | src/network/Server.cpp:114-206 | in every run the serving steps, with the measure reached, are at most the first measure, six for each chunk received, and one for each stray close and spurious wakeup |
| Server.QuietMeansServed | src/network/Server.cpp:120-192 | when no serving step is left no connection is suspended; with the bound, each is re-armed or closed after boundedly many |
| Server.SurvivorIn | src/network/Server.cpp:121-144 | after a batch a descriptor is polled iff it was and no close names it, armed iff it was armed or an enable names it, whatever their order |
| Server.FirstStays | src/network/Server.cpp:121-144 | the listener stays at position 0 when no action closes it, and the batch acts on the rest on its own |
| Loop.EventLoop.Iterate | src/network/Server.cpp:114-195 | one iteration takes exactly: a lockdown that begins, one batch, an accept, then one receive or hang-up for each armed readable entry in order; it yields exactly their jobs, and leaves open, distinct entries behind the listener for the next one |
| Loop.IterationIsRun | src/network/Server.cpp:114-195 | such steps, with any enabled steps of workers, handlers and stray closes in between, form a run of the server's state machine; none of them disables a loop step, and the pool accepts the loop's jobs in order |
| Loop.EventLoop.ProcessPending | src/network/Server.cpp:120-144 | the nested loops and the erase leave exactly the surviving entries in order, and an empty queue |
| Loop.EventLoop.ReceiveAll | src/network/Server.cpp:170-194 | the receive loop over the index and the erase take exactly one receive or hang-up step for each armed readable entry, in order, and enqueue exactly their jobs |
| Loop.EventLoop.ReceiveAt | src/network/Server.cpp:170-192 | one pass of the receive loop hangs up or suspends exactly the readable entry and yields its job |
| Loop.EventLoop.EraseClosed | src/network/Server.cpp:194 | the erase keeps exactly the entries not closed, in order |
| Loop.EventLoop.DisconnectAll | src/network/Server.cpp:43-49 | a lockdown keeps the listener only |
| Handler.HandleData | src/main.cpp:259-476 | exactly one action is posted, for the own connection, unless the buffer of a WebSocket client makes decoding throw, when none is; it enables polling iff the connection is a WebSocket client afterwards and there is no lockdown, and an upgrade alone adds one; index and store change on the insert route alone; only the exists route answers |
| Frames.ParseWire | src/network/protocols/WebSocketHandler.cpp:183-245 | a frame of any opcode, key and length form parses to itself whatever follows |
| Frames.ParsedIsWire | src/network/protocols/WebSocketHandler.cpp:183-245 | and whatever parses is the wire form of a valid frame |
| Frames.DecodeConcat | src/network/protocols/WebSocketHandler.cpp:177-250 | any frames followed by an incomplete one decode to the unmasked payloads of the text and binary frames in order |
| Frames.Split | src/network/protocols/WebSocketHandler.cpp:177-250 | every buffer is frames and a tail that is none, and decoding throws exactly when the tail's length wraps |
| Frames.TooLongMeansWrapped | src/network/protocols/WebSocketHandler.cpp:208-231 | the throwing case is exactly a header and 8-byte length that add up to 2^64 or more |
| Frames.HugeLengthThrows | src/network/protocols/WebSocketHandler.cpp:208-231 | a buffer throws with an 8-byte length of 2^64 - 10 or more if unmasked, of 2^64 - 14 or more after a complete masked header, whatever follows |
| Frames.TenBytesThrow | src/network/protocols/WebSocketHandler.cpp:208-231 | for instance 0x81 0x7F and eight 0xFF |
| FrameExamples.OpcodeDecides | src/network/protocols/WebSocketHandler.cpp:177-250 | one whole frame yields its payload iff its opcode is text or binary |
| FrameExamples.UnmaskedExamples | src/network/protocols/WebSocketHandler.cpp:177-250 | of the unmasked examples of RFC 6455 "Hello" and the first fragment are delivered, the ping and the continuation are not |
| FrameExamples.MaskedExamples | src/network/protocols/WebSocketHandler.cpp:153-250 | both decoders read the masked "Hello"; the masked pong is not delivered |
| FrameExamples.LongExamples | src/network/protocols/WebSocketHandler.cpp:177-250 | 256 bytes and 64 kilobytes of binary data with their two- and eight-byte lengths |
| FrameExamples.EncodedExample | src/network/protocols/WebSocketHandler.cpp:139-151 | the encoder sends "Hello" as the standard does |
| Frames.DecodePrefix | src/network/protocols/WebSocketHandler.cpp:177-250 | decoding a prefix of a buffer gives a prefix of its payloads |
| Frames.DecodeFrames | src/network/protocols/WebSocketHandler.cpp:177-250 | the loop over `index` and `bytes_left` stays inside the buffer, ends, and decodes as specified |
| Frames.ReadLength | src/network/protocols/WebSocketHandler.cpp:208-216 | shifting bytes in yields the big-endian number, without overflow |
| Frames.EncodeFrame | src/network/protocols/WebSocketHandler.cpp:139-151 | the encoder builds an unmasked text frame with at most a two-byte length |
| Frames.DecodeEncoded | src/network/protocols/WebSocketHandler.cpp:139-250 | an encoded message decodes to itself iff it has at most 65535 bytes |
| Frames.DecodeMessages | src/network/protocols/WebSocketHandler.cpp:139-250 | any list of such messages, encoded one after the other, decodes to itself |
| Frames.DecodeFrame | src/network/protocols/WebSocketHandler.cpp:153-175 | the single-frame decoder unmasks everything after the header, and throws when the key starts past the end |
| Frames.DecodeSingleEncoded | src/network/protocols/WebSocketHandler.cpp:139-175 | it recovers an encoded message of any length |
| Frames.DecodersAgree | src/network/protocols/WebSocketHandler.cpp:153-250 | both decoders give the payload of a buffer that is one data frame |
| Masking.XorUndo | src/network/protocols/WebSocketHandler.cpp:233-239 | masking a byte twice with one key byte gives it back |
| Masking.XorExactly | src/network/protocols/WebSocketHandler.cpp:233-239 | each binary digit of a masked byte is 1 iff the digits of byte and key byte differ |
| Handshake.GenerateHandshakeResponse | src/network/protocols/WebSocketHandler.cpp:110-137 | the response is built from the key field by the standard's Base64 and SHA-1, and empty without the header |
| Handshake.AnswerToHeader | src/network/protocols/WebSocketHandler.cpp:110-137 | for a request with the header in any letter case, the accept value comes from exactly the trimmed value on that line and the fixed GUID |
| Handshake.EmptyExactly | src/network/protocols/WebSocketHandler.cpp:114-116 | the response is empty iff nowhere in the request the header's name and colon are followed by a space |
| Handshake.KeyAfterColon | src/network/protocols/WebSocketHandler.cpp:114-116 | a request whose only such header has the key right after the colon gets the empty response |
| Handshake.NoSpaceRequest | src/network/protocols/WebSocketHandler.cpp:114-116 | for instance an upgrade request with `Sec-WebSocket-Key:MDEyMzQ=` |
| Handshake.NameCaseIrrelevant | src/network/protocols/WebSocketHandler.cpp:111-118 | changing letter case up to the end of the header's name does not change the response |
| Handshake.AcceptValueDecodes | src/network/protocols/WebSocketHandler.cpp:126-130 | the accept value has 28 characters and decodes to the 20-byte digest |
| Handshake.TrimExact | src/network/protocols/WebSocketHandler.cpp:122-124 | the trimming loops remove exactly the white space around the key |
| Handshake.PaddedKey | src/network/protocols/WebSocketHandler.cpp:122-124 | exactly space, tab, line feed, vertical tab, form feed and carriage return are trimmed around a key |
| Handshake.LowerExactly | src/network/protocols/WebSocketHandler.cpp:111-112 | lower-casing maps the 26 capital letters and nothing else |
| HandshakeExample.AcceptOfSample | src/network/protocols/WebSocketHandler.cpp:126-130 | the sample key of RFC 6455 has the accept value given there |
| HandshakeExample.SampleResponse | src/network/protocols/WebSocketHandler.cpp:110-137 | a request with that key, white space around it, gets the response given there, byte for byte |
| Base64.EncodeBytes | src/network/protocols/WebSocketHandler.cpp:11-26 | the loop with the wrapping 32-bit accumulator yields the encoding of the standard for any bytes |
| Base64.DecodeEncode | src/network/protocols/WebSocketHandler.cpp:11-26 | a strict decoder recovers every input |
| Base64.EncodeDecode | src/network/protocols/WebSocketHandler.cpp:11-26 | and accepts nothing but encodings |
| Base64.EncodeLength | src/network/protocols/WebSocketHandler.cpp:11-26 | the output has 4 * ceil(n / 3) characters |
| Base64.Table | src/network/protocols/WebSocketHandler.cpp:11-26 | the letters are those of Table 1 of RFC 4648 |
| Base64.TestVectors | src/network/protocols/WebSocketHandler.cpp:11-26 | the test vectors of section 10 of RFC 4648 |
| Base64.LowBits | src/network/protocols/WebSocketHandler.cpp:16 | the sixteen low bits of the accumulator survive the wrap |
| Padding.AppendPadding | src/crypto/Hash.cpp:79-89 | the push loops end and build the padded message |
| Padding.PadLeast | src/crypto/Hash.cpp:79-89 | the padded message extends the message, is whole blocks, and no shorter string with room for marker and length is |
| Padding.StripPad | src/network/protocols/WebSocketHandler.cpp:35-43 | reading the length field gives back the message iff it has fewer than 2^61 bytes |
| Padding.PadInjective | src/crypto/Hash.cpp:79-89 | below that bound padding is injective |
| Sha256.Transform | src/crypto/Hash.cpp:38-71 | the in-place loops fold the blocks at the 32-bit offsets by the compression of the standard, for any block count |
| Sha256.ShiftRound | src/crypto/Hash.cpp:55-66 | one pass of in-place shifts is one round of the standard |
| Sha256.RotationsByShifts | src/crypto/Hash.cpp:28-36 | the shift macros are the rotations of the standard |
| Sha256.FoldSplit | src/crypto/Hash.cpp:44-70 | folding n1 + n2 blocks is folding n1, then n2 from the state reached |
| Sha256.OffsetExact | src/crypto/Hash.cpp:44-45 | the 32-bit block offset is right iff the index is below 2^26 |
| Sha256.WrappedFoldExact | src/crypto/Hash.cpp:44-70 | up to 2^26 blocks the fold is the standard's |
| Sha256.Sha256 | src/crypto/Hash.cpp:73-99 | the digest text of any input |
| Sha256.DigestExact | src/crypto/Hash.cpp:73-99 | for padded inputs of at most 2^32 bytes it is the digest of the standard |
| Sha256Vectors.DigestOfAbc | src/crypto/Hash.cpp:73-99 | the eight digest words of "abc" |
| Sha256Vectors.TextOfAbc | src/crypto/Hash.cpp:91-99 | the digest text of "abc" |
| Sha256Vectors.DigestOfTwoBlocks | src/crypto/Hash.cpp:38-71 | the digest words of a message of two blocks |
| HashConstants.ConstantsAreCubeRoots | src/crypto/Hash.cpp:8-26 | the round constants are the fractions of the cube roots of the first 64 primes |
| HashConstants.InitialIsSquareRoots | src/crypto/Hash.cpp:73-78 | the initial hash value are those of the square roots of the first eight |
| Hex.WordTextRoundTrip | src/crypto/Hash.cpp:94-97 | eight printed digits parse back to the word |
| Hex.ParseChunk | src/index/BloomFilter.cpp:16-19 | chunk i of the digest text parses to word i |
| Hex.WordsTextInjective | src/crypto/Hash.cpp:94-97 | the digest text determines the digest |
| Sha1.Sha1 | src/network/protocols/WebSocketHandler.cpp:28-100 | the loops compute the digest of section 6.1.2 of FIPS 180-4 |
| Sha1.RunRounds | src/network/protocols/WebSocketHandler.cpp:58-86 | the 80 rounds on five local words are those of the standard |
| Sha1.ChoiceByOr | src/network/protocols/WebSocketHandler.cpp:66-75 | selecting with inclusive or equals the standard's exclusive or |
| Sha1Vectors.DigestOfSample | src/network/protocols/WebSocketHandler.cpp:28-100 | the digest of the sample key and the GUID given in section 1.3 of RFC 6455 |
| HashConstants.Sha1ConstantsAreSquareRoots | src/network/protocols/WebSocketHandler.cpp:58-79 | the four constants are the square roots of 2, 3, 5 and 10 with 30 binary places |
| Index.BloomFilter.Hash | src/index/BloomFilter.cpp:9-23 | the positions are the leading digest words modulo the size, through printed and parsed text |
| Index.PositionsAreDigestWords | src/index/BloomFilter.cpp:9-23 | these are words of the standard's digest |
| Index.BloomFilter.Add | src/index/BloomFilter.cpp:25-30 | sets exactly the bits of the item and clears none |
| Index.BloomFilter.PossiblyContains | src/index/BloomFilter.cpp:32-40 | true iff all bits of the item are set |
| Index.QueryEngine.Insert | src/index/QueryEngine.cpp:10-13 | keeps: a bit is set iff some stored item hashes to it |
| Index.QueryEngine.Query | src/index/QueryEngine.cpp:15-25 | DEFINITELY_YES iff inserted; DEFINITELY_NO iff some position of the item is a position of no inserted item; else PROBABLY_YES |
| Index.EmptyAnswersNo | src/index/QueryEngine.cpp:15-25 | an empty index rules every item out |
| IndexExample.PositionsOfAbc | src/index/BloomFilter.cpp:9-23 | the seven positions of "abc" for any filter size |
| Index.AnswerMonotone | src/index/QueryEngine.cpp:15-25 | more inserts never turn an answer back towards no |
| Storage.DataStorage.InsertEntity | src/db/DataStorage.cpp:38-88 | one insert step: refusal leaves everything, an attempt advances the round robin, success appends the row; true iff the row is stored |
| Storage.DataStorage.Initialize | src/db/DataStorage.cpp:18-36 | opens the shards SQLite can open, in order |
| Storage.Rounds | src/db/DataStorage.cpp:61-67 | after any calls the first r shards from the start were tried q + 1 times and the others q times |
| Storage.Balanced | src/db/DataStorage.cpp:61-67 | write attempts on two shards differ by at most one |
| Storage.RowsPerShard | src/db/DataStorage.cpp:61-88 | each open shard gains exactly the rows written in its turns, and no other shard any |
| Storage.RowsBalanced | src/db/DataStorage.cpp:61-88 | when all writes succeed the rows added to two open shards differ by at most one |
| Storage.RowsConserved | src/db/DataStorage.cpp:38-88 | the new rows are as many as the calls that returned true |
| Storage.OrphansNeverStored | src/db/DataStorage.cpp:41-45 | no stored row has a uuid but no identifier |
| Service.HandleInsert | src/main.cpp:363-415 | the insert route on engine and storage is one step of the system, with its status |
| Service.HandleExists | src/main.cpp:419-440 | the exists route answers for identifiers of 64 characters what the index calls for |
| Service.LoadAllIdentifiers | src/db/DataStorage.cpp:90-105 | the index gains exactly the identifiers of the rows delivered |
| Service.Boot | src/main.cpp:137-146 | startup opens the shards and loads the index |
| Service.StepKeeps | src/main.cpp:385-398 | identifiers distinct, and indexed iff stored or acknowledged without a write: inserts and queries keep this, and a restart iff the files found, imported ones included, hold no identifier twice and deliver every row |
| Service.RunKeeps | src/main.cpp:133-146 | over every run whose restarts so far were such, every stored identifier is answered DEFINITELY_YES and none is in two rows |
| Service.RunKeepsExactly | src/main.cpp:133-146 | a run keeps this throughout iff all its restarts are such |
| Service.ReadAllExactly | src/db/DataStorage.cpp:90-105 | after a restart the index equals the stored identifiers iff every row of every shard was delivered |
| Service.InsertDistinctExactly | src/main.cpp:385-398 | an insert makes a duplicate row iff it writes an identifier that is stored but not indexed |
| Service.RunFromBootExactly | src/main.cpp:133-146 | a run from startup keeps it throughout iff the shard files hold no identifier twice, startup loads every row, and all restarts are such |
| Service.AcknowledgedUntil | src/main.cpp:385-407 | whatever inserts and queries follow an acknowledged insert, its identifier stays indexed, and is stored iff its row was written at once |
| Service.AcknowledgedSurvives | src/main.cpp:393-407 | in every run, after the next good restart it is indexed iff its row was written or an imported file holds it |
| Rows.WrittenRowKept | src/main.cpp:393-398 | in every state after an accepted and written insert some row holds the client's identifier and key, and the printed SHA-256 digest of both as uuid |
| Rows.RowLands | src/db/DataStorage.cpp:61-88 | that row is appended to the shard whose turn it is |
| Rows.RowStays | src/db/DataStorage.cpp:18-88 | every row is at the same place, unchanged, in all later states |
| Rows.StatusExactly | src/main.cpp:363-415 | between restarts an insert is malformed, short of space, a conflict or accepted exactly by its lengths, the space, and whether its identifier was known or accepted before |
| Service.MissedRowDuplicates | src/main.cpp:385-398 | after any restart that opens a shard and leaves a stored 64-character identifier undelivered, inserting that identifier stores it twice |
| Service.RestartSafeExactly | src/main.cpp:133-146 | all inserts and queries after a restart keep identifiers distinct iff it opens no shard or delivers every row with a 64-character identifier |
| Service.MissedShardDuplicates | src/main.cpp:385-398 | for instance with two shards of which the first does not open |
| Arena.Disjoint | src/memory/ArenaAllocator.cpp:22-57 | header, user and footer regions of live blocks are disjoint, in order, inside the used part of the capacity |
| Arena.Aligned | src/memory/ArenaAllocator.cpp:27-29 | every user pointer is 64-byte aligned for any buffer address |
| Arena.Accounting | src/memory/ArenaAllocator.cpp:32-51 | the bump pointer is the sum of padding, size and canaries of the live blocks |
| Arena.OnlyFirstPadded | src/main.cpp:318 | after a block whose size is a multiple of 64 the next block needs no padding |
| Arena.AcceptsExactly | src/memory/ArenaAllocator.cpp:34-37 | the 64-bit bounds test accepts exactly what fits and what wraps to at most the capacity |
| Arena.WrappedFooter | src/memory/ArenaAllocator.cpp:44-51 | after a wrapping request the footer lies before its user block, between offset -64 and the capacity |
| Arena.UserBytesKept | src/memory/ArenaAllocator.cpp:32-48 | a request that does not wrap leaves the user bytes of earlier blocks |
| Arena.FreshBlock | src/memory/ArenaAllocator.cpp:32-57 | a fitting request gets a block after all others, with 64 bytes 0xDB before and after it, and changes no other byte |
| Arena.WrappedBytesExactly | src/memory/ArenaAllocator.cpp:46-48 | one that wraps leaves the user bytes of a live block iff its footer meets only bytes of it that are 0xDB already |
| Arena.RequestKeepsExactly | src/memory/ArenaAllocator.cpp:22-57 | any 64-bit request keeps the blocks placed iff it does not wrap to at most the capacity, and then some block ends beyond the capacity; the canaries that verification reads are intact either way |
| Arena.WrappedRequest | src/memory/ArenaAllocator.cpp:22-91 | 2^64 - 192 bytes asked of a 1024-byte arena with one 64-byte block are accepted and the footer overwrites that block; verification notices nothing until the block's owner writes to it |
| Arena.RunSafe | src/memory/ArenaAllocator.cpp:22-91 | at any point of any run of requests, resets and writes inside live blocks, blocks are placed iff no request has wrapped since the last reset, and then canaries are intact |
| Arena.WrapsUndetected | src/memory/ArenaAllocator.cpp:22-91 | in a run of requests and resets alone every canary byte that verification reads stays 0xDB, whatever wraps |
| Arena.RunSafeExactly | src/memory/ArenaAllocator.cpp:22-91 | a run is safe throughout iff none of its requests wraps |
| Arena.BlocksAccessible | src/memory/ArenaAllocator.cpp:93-103 | every access inside a live block passes the check |
| Arena.AccessExactly | src/memory/ArenaAllocator.cpp:93-103 | a nonempty access that does not wrap passes iff all its bytes are in the arena |
| Arena.ArenaAllocator.AllocateBlock | src/memory/ArenaAllocator.cpp:22-57 | for every 64-bit size and any bump pointer: nothing is returned or changed iff the wrapped test refuses; unless the request wraps a block is placed iff it fits, and lies inside the capacity |
| Arena.ArenaAllocator.ResetAll | src/memory/ArenaAllocator.cpp:59-63 | forgets the blocks and keeps the bytes |
| Arena.ArenaAllocator.Verify | src/memory/ArenaAllocator.cpp:65-91 | succeeds iff every canary byte of every live block in the buffer is 0xDB, after any requests and writes, with the footer address reduced to 64 bits |
| Arena.ArenaAllocator.CheckAccess | src/memory/ArenaAllocator.cpp:93-103 | passes exactly null, ranges inside the capacity, and ranges above the base whose end wraps to an address up to the capacity's end |
| Arguments.ArgumentRegistry.RegisterArgument | src/shell/ArgumentRegistry.cpp:12-19 | the first registration of a name wins and names stay unique |
| Arguments.ArgumentRegistry.Parse | src/shell/ArgumentRegistry.cpp:21-57 | the loop computes the specified result, with the tokens gathered before an error |
| Arguments.TokensConserved | src/shell/ArgumentRegistry.cpp:21-57 | on success the arguments are an order-preserving merge of parsed and unregistered tokens |
| Arguments.ReparseStable | src/shell/ArgumentRegistry.cpp:21-57 | parsing the parsed tokens strictly returns them unchanged |
| Arguments.StrictFailsExactly | src/shell/ArgumentRegistry.cpp:31-48 | without debug mode parsing fails iff an unknown token or a missing value stands where an argument starts |
| Arguments.ScanFollowsParse | src/shell/Shell.cpp:59-77 | the shell's scan finds the same flags and values as the parser |
| Arguments.EffectsFailExactly | src/shell/Shell.cpp:63-69 | the scan fails iff some `-c` value is not a number |
| Arguments.RunSettingsExactly | src/shell/Shell.cpp:48-77 | each flag is set iff it occurs, and the last number of databases counts |
| Arguments.ErrorNames | src/shell/ArgumentRegistry.cpp:36-48 | a failing parse names in its error the unknown token, or the last token whose value is missing |
| Arguments.WarningsName | src/shell/ArgumentRegistry.cpp:31-35 | in debug mode each unregistered token gets its own warning, in order |
| Arguments.Shell.RegisterAllArguments | src/shell/Shell.cpp:23-31 | the registry ends up with the six arguments |
| Arguments.Shell.Scan | src/shell/Shell.cpp:54-77 | the loop has the effects of the scan |
| Arguments.Shell.Run | src/shell/Shell.cpp:33-77 | the settings are the effects of the parser's groups, or none for bad arguments |
| Arguments.DebugFlagNotRelaxing | src/shell/Shell.cpp:39 | with `--debug` on the command line an unknown argument still fails, though debug mode would accept it |

## Left out

- Server.StepKeeps: descriptors are never reused; after reuse a pending action could name a later connection.
- Server.RunSerial: the pool is not stopped while the event loop runs, as the destructor runs after `start` has returned; a handler posts its action last and exactly once, which `Handler.HandleData` shows of the routes except where decoding throws and the exception leaves the worker thread.
- Pool.ShutdownTerminates: assumes that running tasks return; exceptions that leave a task are not modelled.
- Handler.HandleData: what the text of a request says about its route is an input; response texts, the batch query over WebSocket frames and the log callback are not modelled.
- Sha256.DigestExact: one direction only; on longer inputs the code hashes early blocks again, and whether the two digests then coincide is a question of collisions. `Sha256.Sha256` says what is computed for every input.
- Index.PositionsAreDigestWords: one direction only, for the same reason.
- Index.QueryEngine.Query: the filter size is positive, since the code divides by it.
- Arena.ArenaAllocator.AllocateBlock: of canaries and client writes only what lies inside the buffer is seen; the memory around it is not modelled.
- Service.RunKeeps: requests are handled one after the other; the query and the insert of one request are not under one lock, so two concurrent inserts of one identifier could both be stored. Shard files do not disappear or change between runs.
- Service.HandleInsert: the free-space checks and SQLite's outcome are inputs; identifiers hold no NUL.
- Handshake.GenerateHandshakeResponse: letter case and white space are those of the "C" locale.
- Frames.DecodeFrames: the FIN bit is read but not used by the code; nothing is said about frames split over two reads.
- Sockets, `poll`, SQLite, disk space, lockdown state and clocks are inputs or events that may happen at any time.
- The races between handlers on index, storage and arenas, hash-table internals and the false-positive rate of the filter.
- `MasterDB`, `SystemMonitor`, `HealthMonitor`, `LifecycleManager`, the static file server, the JSON helpers and the web view: calls to the outside or shallow text work.
