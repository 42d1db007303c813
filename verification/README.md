# A verified model of the beanstalk-rs wire layer and tube bookkeeping

This project models, in Dafny, four parts of a beanstalkd-compatible work queue
and proves what they promise:

1. **The streaming decoder** (`Decoder.dfy`): three states over a growing byte
   buffer, turning a client's stream into commands, job-body chunks and errors.
2. **The command parser** (`Parser.dfy`, `Protocol.dfy`, `Decimal.dfy`): a cursor
   over one command line.
3. **The response encoder** (`Encoder.dfy`): line framing and length-prefixed
   framing of the server's replies.
4. **Tubes and reservation** (`Tubes.dfy`, `Servers.dfy`): serial-numbered queues
   with counters, and reserving a job by its id.

`dafny verify dfyconfig.toml` checks everything.

## How the model is built

Code that changes things in place is imperative here too: `Buffer`, `Decoder`,
`ParseState`, `TubeState` and `Server` are classes whose methods follow the
source's branches, and each method is proved against a function of the old
state (`DecodeStep`, `Parse`, `Wire`, `Put`, `Take`, `Reserve`). Slicing,
splitting and advancing carry the bounds whose violation panics in the source,
so their panic-freedom is proved. The theorems are about those functions.

The other half of each theorem is written independently of the code:

- `Reference.dfy` reads the client's stream one byte at a time, with no buffer.
  `Simulation.dfy` shows one decode call to agree with it, `Runs.dfy` whole runs:
  any interleaving of input in any pieces with any number of decode calls.
- `Grammar.dfy` defines the language of command lines by derivations and gives a
  canonical printer (the repository has none) after `doc/protocol.md`.
- `Wording.dfy` states, keyword by keyword, which lines mean which command, in the
  letters a client types and apart from the command table (`CommandTable`), from
  which parser and grammar both take words and argument order; likewise names and
  number limits. `Encoder.dfy` does the same for every response.
- `Events.dfy` defines which answers may follow which, tied to the bytes taken,
  and the normal form of a sequence of answers: `Discarded` dropped, adjacent
  chunks joined.
- `Pieces.dfy` takes a stream apart into requests, bad lines and broken jobs.
- `Replies.dfy` is a small client-side reader of responses, and `Sessions.dfy`
  one of everything a server sends, jobs included.
- `Streams.dfy` composes printer, parser and decoder.

Headline results: `Runs.ChunkingIndependence` and `Runs.ChunkingAgreement`
(where input is cut never matters), `Streams.RequestRoundTrip`,
`Pieces.PieceStream` with `Pieces.EveryStreamIsPieces`,
`Streams.Resynchronisation`, `Events.JobBodyIntegrity`,
`Grammar.ParserLanguage`, `Grammar.LineBound`, `Sessions.SessionReadsBack`,
`Sessions.SessionsUniquelyDecodable`, `Tubes.QueueIsFifo`, `Servers.ReservationsPanic`.

## Where code and documentation disagree

The model follows the code.

- `src/wire/protocol.rs:12`, `:49` and `:117` abbreviate `put`, `bury` and
  `stats-tube`; the parser and `doc/protocol.md:121`, `:326`, `:517` agree with
  each other and are followed.
- `doc/protocol.md:244` and `:416` promise `RESERVED <id> <bytes>` and
  `FOUND <id> <bytes>`; `src/wire/encoder.rs:123-124` writes no byte count.
  A client can then only read a body up to the next CRLF, and that gives the body
  back exactly when it holds no CRLF (`Sessions.JobReadsBack`; for whole sessions
  `Sessions.SessionReadsBack`). `Replies.BodiesAreAmbiguous` gives two different
  response streams, one with an empty body and one whose body contains a reply
  line, that are the same bytes.
- `src/types/tube.rs:100-101` says that putting a job already present panics.
  Only positions are checked, and they are always new:
  `Tubes.SameJobTwice` puts one job twice, and `Tubes.PutSucceeds` gives the
  exact condition for a panic.
- `src/wire/protocol.rs:29-30` says that a job already reserved is refused.
  `reserve_by_id` leaves the job marked ready, so that asking for it again panics:
  `Servers.SecondReservationPanics` is a concrete case and
  `Servers.ReservationsPanic` the exact condition.
- `doc/protocol.md:269-270` also lets a delayed or buried job be reserved by id;
  `reserve_by_id` refuses those (`Servers.ReserveRefuses`, and
  `Servers.DelayedJobIsRefused` for a server of one delayed job).

## Model

| member | source | states |
|---|---|---|
| `Decoder.Decoder.Decode` | src/wire/decoder.rs:36-159 | one decode call on the object does exactly what the step function says of the old state and buffer: answer, new state and remaining bytes, with no slicing out of bounds |
| `Runs.Replay` | src/wire/decoder.rs:36-159 | a decoder object and its buffer, played any sequence of inputs and decode calls, give the answers and end in the state of the run that the theorems speak of |
| `Simulation.StepAgrees` | src/wire/decoder.rs:36-159 | what a decode call says, followed by the byte-at-a-time reading of what it leaves, is the byte-at-a-time reading of what it found |
| `Simulation.CommandAgrees` | src/wire/decoder.rs:41-85 | the same for a command line: complete within 224 bytes, still short, or overlong |
| `Simulation.JobEndAgrees` | src/wire/decoder.rs:86-103 | the same for the two bytes after a job body |
| `Simulation.DiscardAgrees` | src/wire/decoder.rs:129-157 | the same while skipping; keeping the last byte is enough not to miss a CRLF cut in two |
| `Runs.ChunkingIndependence` | src/wire/decoder.rs:36-159 | for every interleaving of input and decode calls from any state, and every continuation of the stream, the trace so far plus the reference reading of the rest is the reference reading of everything |
| `Runs.TraceIsReferencePrefix` | src/wire/decoder.rs:36-159 | the trace so far is a prefix of the reference trace of the bytes fed, and all of it when the decoder is at rest |
| `Runs.ChunkingAgreement` | src/wire/decoder.rs:36-159 | two runs over the same bytes that have come to rest have the same trace and the same state and buffer |
| `Events.NormalFormDecidesTrace` | src/wire/events.rs:7-17 | two runs' answers, with discards dropped and adjacent chunks joined, are equal exactly when the runs said the same |
| `Simulation.Progress` | src/wire/decoder.rs:46-157 | a decode call decreases twice the buffer length plus one outside of discarding, exactly unless it answers "not yet" or discards with a single byte buffered |
| `Simulation.QuiescentIsSilent` | src/wire/decoder.rs:146-156 | in those two situations the call changes nothing and the reference, too, has nothing to say |
| `Runs.DrainReachesQuiescence` | src/wire/decoder.rs:46-157 | from any configuration, a number of decode calls linear in the buffer length leaves nothing to decode |
| `Runs.DrainCompletesTrace` | src/wire/decoder.rs:46-157 | after any run, that many further calls make the trace the whole reference trace |
| `Runs.DiscardKeepsAByte` | src/wire/decoder.rs:75-79 | in every run from the start, discarding implies a non-empty buffer, so that the next call answers "discarded" and never "not yet" |
| `Runs.Conservation` | src/wire/decoder.rs:52-58 | in every run, the bytes taken by the calls followed by the bytes buffered are the bytes fed |
| `Simulation.PrefixStability` | src/wire/decoder.rs:46-103 | an answer other than "not yet" is the same, with the same leftover, on any longer buffer exactly when reading a command, a body whose bytes are all there, its terminator, or a discard that finds its CRLF |
| `Simulation.NotYetExactly` | src/wire/decoder.rs:74-132 | a decode call answers "not yet" exactly on fewer than 224 bytes without a CRLF, fewer than two bytes after a body, or nothing at all within a body or while discarding |
| `Events.RunObeysGrammar` | src/wire/decoder.rs:36-159 | every run's answers, with the bytes each took, follow the grammar: chunks and ends only within a job, commands and line errors only with a whole line of at most 224 bytes that parses to them, discards only after an error that took nothing |
| `Events.JobBodyIntegrity` | src/wire/decoder.rs:62-128 | wherever a job ends, a `put` precedes it with only chunks between; the stream's bytes right after that command line are the chunks, exactly as many as announced, then CRLF |
| `Events.JobInProgress` | src/wire/decoder.rs:104-128 | while a body is read, the bytes so far directly follow the `put`, and with the remaining count make up the announced size |
| `Streams.RequestRoundTrip` | src/wire/decoder.rs:41-128 | well-formed requests, bodies with any bytes included, printed and fed in any pieces decode to a prefix of exactly those requests; at rest to all of them, in normal form, with the decoder back at the start and the buffer empty |
| `Streams.RequestsArrive` | src/wire/decoder.rs:41-128 | and enough decode calls do bring all of them |
| `Streams.LineArrives` | src/wire/decoder.rs:41-128 | a line as typed, leading zeros or not, with `\r\n` and after a `put` the body with `\r\n`: at rest exactly that command, body and end have come out, for every chunking |
| `Streams.PutArrives` | src/wire/parser.rs:228-233 | the same for the text `put <pri> <delay> <ttr> <bytes>` in that order and a body of that many bytes |
| `Pieces.PieceStream` | src/wire/decoder.rs:41-157 | for a stream of pieces in any order, each a command line with its job if any, a malformed or overlong line, or a `put` whose body lacks its CRLF, followed by anything: what has been said is always a prefix of the pieces' answers, one error for each bad piece, followed by the reading of what comes after as from the start; at rest it is all of that, for every chunking |
| `Pieces.PieceStreamEnds` | src/wire/decoder.rs:41-157 | at rest after pieces alone, the normalised answers are exactly theirs, the state is the start of a command and the buffer is empty |
| `Pieces.ErrorContainment` | src/wire/decoder.rs:46-103 | after any pieces, good and bad, what follows is decoded as by an actual run of a fresh decoder |
| `Pieces.EveryStreamIsPieces` | src/wire/decoder.rs:41-157 | every byte stream is such pieces followed by one that has not ended: a line without its CRLF, a job whose body or terminator is incomplete, or a broken job without a CRLF yet |
| `Streams.Resynchronisation` | src/wire/decoder.rs:129-157 | from any discarding configuration nothing is said until the first CRLF of buffer and further input, and from there on what the reference says of the rest, wherever input was cut |
| `Streams.ResynchronisesLikeFresh` | src/wire/decoder.rs:129-157 | the same against an actual run of a fresh decoder |
| `Bytes.FindPosition` | src/wire/decoder.rs:46-50 | the scan over adjacent pairs finds the first CRLF |
| `Bytes.FindCrlf` | src/wire/decoder.rs:135-138 | the position is that of a CRLF with none before it, or there is none |
| `Bytes.Separators` | src/wire/decoder.rs:50 | CRLF and space are the bytes of the texts `\r\n` and a blank |
| `Parser.TryFrom` | src/wire/parser.rs:149-239 | the cursor-based parser computes the parsing function on every line |
| `Parser.ParseState.NextToken` | src/wire/parser.rs:121-136 | takes the bytes before the next space, and nothing only at the end |
| `Parser.ParseState.ExpectNextToken` | src/wire/parser.rs:22-30 | the next token, refused when empty |
| `Parser.ParseState.ExpectSpace` | src/wire/parser.rs:108-115 | exactly one space is consumed, or none and an error |
| `Parser.ParseState.ExpectNextU32` | src/wire/parser.rs:33-53 | one space and one 32-bit number; result and cursor |
| `Parser.ParseState.ExpectNextU64` | src/wire/parser.rs:56-76 | one space and one 64-bit number; result and cursor |
| `Parser.ParseState.ExpectNextName` | src/wire/parser.rs:79-105 | one space and one valid name; result and cursor |
| `Parser.NameAlphabet` | src/wire/parser.rs:85-93 | a byte is allowed in a name exactly when it is a letter, a digit or one of `-+/;.$_()`, and not a hyphen in front |
| `Wording.NamesAreTubeTexts` | doc/protocol.md:12-17 | a token is a name exactly when it is 1 to 200 such characters not starting with a hyphen |
| `Parser.ParseState.ExpectArguments` | src/wire/parser.rs:154-236 | the arms of the command table read each keyword's own argument list |
| `Decimal.ReadDigits` | src/wire/parser.rs:38-52 | the overflow-checked loop succeeds exactly when all bytes are digits and the number they denote fits, however many leading zeros, and returns that number |
| `Decimal.DigitBytes` | src/wire/parser.rs:41-46 | the digits are the characters 0 to 9 and count their distance from 0 |
| `Decimal.ValueAppend` | src/wire/parser.rs:42-46 | positional notation: a digit string before another counts for a power of ten |
| `Wording.NumberLimits` | src/wire/parser.rs:38-72 | every number's decimal spelling after a space is read back as it up to 4294967295 and 18446744073709551615 respectively, and refused above |
| `Wording.Largest32` | src/wire/parser.rs:38-48 | the text of the largest 32-bit number is read as it, the next one is refused |
| `Wording.Largest64` | src/wire/parser.rs:61-71 | the same for 64 bits |
| `Decimal.ValueGrows` | src/wire/parser.rs:61-75 | an intermediate value is never above the final one, so that an intermediate overflow is a real one |
| `CommandTable.SpellingInjective` | src/wire/parser.rs:154-235 | no two keywords are spelt alike |
| `Grammar.ParserLanguage` | src/wire/parser.rs:149-239 | a line parses to a command if and only if some keyword followed by its argument list, one space before each token, in-range digits and valid names, derives the line and denotes the command |
| `Grammar.DerivationUnique` | src/wire/parser.rs:149-239 | a line has at most one derivation |
| `Grammar.ErrorClassification` | src/wire/parser.rs:154-238 | the error is "unknown command" exactly when the leading space-free word is non-empty and no keyword, whatever follows; any other is "bad format" |
| `Grammar.ParseOfPrint` | src/wire/parser.rs:149-239 | parsing a valid command's canonical line gives the command |
| `Grammar.PrintOfParse` | src/wire/parser.rs:33-105 | printing what a line parsed to gives the line with only its numbers' leading zeros gone, and the command is always valid |
| `Grammar.ParseInjective` | src/wire/parser.rs:33-105 | two accepted lines mean the same command exactly when they differ in leading zeros only |
| `Decimal.SpellOfValue` | src/wire/parser.rs:38-52 | spelling a digit token's value gives the token without its leading zeros |
| `Decimal.ValueOfSpell` | src/wire/encoder.rs:59 | a number's decimal spelling denotes it and has no leading zero |
| `Grammar.LineBound` | src/wire/decoder.rs:46-50 | every valid command's line with CRLF is at most 224 bytes, and exactly 224 only for `pause-tube` with a 200-byte name and a ten-digit delay |
| `Wording.ListLines` | src/wire/parser.rs:156-158 | a line means a listing command exactly when it is that text |
| `Wording.PeekLines` | src/wire/parser.rs:159-161 | the same for `peek-ready`, `peek-delayed`, `peek-buried` |
| `Wording.PlainLines` | src/wire/parser.rs:162-164 | the same for `quit`, `reserve`, `stats` |
| `Wording.IdLines` | src/wire/parser.rs:167-187 | a line means deleting, touching or peeking at job `id` exactly when it is that word, a space and a numeral for `id` |
| `Wording.JobLines` | src/wire/parser.rs:173-184 | the same for `reserve-job`, `kick-job`, `stats-job` |
| `Wording.KickLines` | src/wire/parser.rs:170-172 | the same for `kick` and its bound |
| `Wording.TimeoutLines` | src/wire/parser.rs:190-192 | the same for `reserve-with-timeout` and its 32-bit seconds |
| `Wording.UseLines` | src/wire/parser.rs:195-206 | a line means `use` or `stats-tube` of a tube exactly when it is that word, a space and the tube's name, and the name is a valid one |
| `Wording.WatchLines` | src/wire/parser.rs:198-203 | the same for `watch` and `ignore` |
| `Wording.BuryLines` | src/wire/parser.rs:209-212 | a line means `bury` of `id` with `pri` exactly when it is that word and numerals for the two in that order, one space before each |
| `Wording.ReleaseLines` | src/wire/parser.rs:221-225 | the same for `release` with id, priority, delay |
| `Wording.PutLines` | src/wire/parser.rs:228-233 | the same for `put` with priority, delay, time to run, size |
| `Wording.PauseLines` | src/wire/parser.rs:215-218 | the same for `pause-tube` with a valid name and a delay |
| `Wording.UnknownWords` | src/wire/parser.rs:154-235 | a line is an unknown command exactly when its leading word is non-empty and none of the 25 texts |
| `Encoder.Encode` | src/wire/encoder.rs:16-128 | appends exactly the response's wire form, whose letters the `...Texts` rows give, and fails only for data that cannot be serialised |
| `Encoder.PutOkAndData` | src/wire/encoder.rs:23-51 | `OK`, the data's length, the data; or `INTERNAL_ERROR` and a failure |
| `Encoder.PutStrAndNumber` | src/wire/encoder.rs:53-83 | a word, a space, the number and CRLF |
| `Encoder.ErrorTexts` | src/wire/encoder.rs:86-102 | the bytes of the four general errors, in letters |
| `Encoder.PutTexts` | src/wire/encoder.rs:87-93 | the same for `BURIED`, `EXPECTED_CRLF`, `JOB_TOO_BIG`, `DRAINING` |
| `Encoder.ReserveTexts` | src/wire/encoder.rs:88-100 | the same for `DEADLINE_SOON`, `TIMED_OUT`, `NOT_FOUND`, `NOT_IGNORED` |
| `Encoder.JobTexts` | src/wire/encoder.rs:89-101 | the same for `DELETED`, `RELEASED`, `TOUCHED` |
| `Encoder.KickTexts` | src/wire/encoder.rs:94-98 | the same for `KICKED`, `PAUSED` |
| `Encoder.NumberTexts` | src/wire/encoder.rs:104-124 | the same for the six responses with a number, for every number |
| `Encoder.DataTexts` | src/wire/encoder.rs:114-126 | the same for `USING` with any name, for job chunks and the end of a job |
| `Encoder.OkTexts` | src/wire/encoder.rs:109-112 | each of the four `OK` responses is `OK`, the data's length, the data, or the internal error when it cannot be serialised |
| `Replies.ResponsesReadBack` | src/wire/encoder.rs:85-127 | any sequence of responses without job bodies reads back, reply by reply, `OK` data by its length even where it contains CRLF |
| `Replies.UniquelyDecodable` | src/wire/encoder.rs:85-127 | two such sequences are the same bytes if and only if they are the same responses, up to which of the four `OK` kinds was asked for and up to failed data being an internal error |
| `Replies.UsingReadsBack` | src/wire/encoder.rs:114-121 | a tube name is recovered exactly when it contains no CRLF |
| `Replies.NamesAreCrlfFree` | src/wire/parser.rs:85-100 | names that the command parser accepts contain none |
| `Sessions.JobReadsBack` | src/wire/encoder.rs:123-126 | after a `RESERVED` or `FOUND` line, a client reads back the job's body, and nothing beyond, exactly when the body holds no CRLF |
| `Sessions.SessionReadsBack` | src/wire/encoder.rs:85-127 | everything a server sends, responses and jobs in any chunks, reads back as exactly its messages if and only if no job body and no tube name holds a CRLF |
| `Sessions.SessionsUniquelyDecodable` | src/wire/encoder.rs:85-127 | two such sessions are the same bytes if and only if they are the same responses and jobs, chunks joined and up to what a client cannot see |
| `Replies.BodiesAreAmbiguous` | src/wire/encoder.rs:123-126 | with job bodies, two different sequences can be the same bytes |
| `Tubes.TubeState.PutReady` | src/types/tube.rs:102-111 | inserts the job at the old ready serial number, which was free, adds one to the serial number and to the ready counter, changes no other field, and is the tube's put-ready step |
| `Tubes.TubeState.PutBuried` | src/types/tube.rs:114-123 | the same for the buried queue with its own serial number and counter |
| `Tubes.TubeState.PutDelayed` | src/types/tube.rs:126-130 | adds the pair of moment and job and one to the delayed counter, changes no other field, and is the tube's put-delayed step |
| `Tubes.TubeState.TakeBuried` | src/types/tube.rs:133-137 | removes the buried entry at the position and one from the buried counter, without underflow, changes no other field, and is the tube's take-buried step |
| `Tubes.TubeState.TakeReady` | src/types/tube.rs:141-145 | removes the ready entry at the position and one from the ready counter, without underflow, changes no other field, and is the tube's take-ready step |
| `Tubes.PutSucceeds` | src/types/tube.rs:102-111 | on a sound queue putting panics exactly when serial numbers run out, and keeps every position below the serial number and the counter at the size |
| `Tubes.TakeSucceeds` | src/types/tube.rs:133-145 | on a sound queue taking panics exactly when the position is free; the counter never underflows |
| `Tubes.SameJobTwice` | src/types/tube.rs:100-111 | the same job can be put twice and is then queued twice |
| `Tubes.PutAppends` | src/types/tube.rs:102-123 | in order of position, a put job is the last |
| `Tubes.TakeDeletesOne` | src/types/tube.rs:133-145 | in order of position, taking deletes exactly the element there |
| `Tubes.LegalRuns` | src/types/tube.rs:102-145 | a run of puts and takes goes through if and only if each take names a position put and not yet taken and fewer jobs are put than there are serial numbers; the n-th job put keeps position n |
| `Tubes.QueueIsFifo` | src/types/tube.rs:102-145 | after any such run the queue, in order of position, is the jobs put, in that order, without those taken, and the counter is their number |
| `Tubes.TubePartsAreIndependent` | src/types/tube.rs:84-146 | over any run of a whole tube, ready, buried and delayed jobs behave as in their separate runs, and every counter is the size of its collection |
| `Servers.Server.ReserveById` | src/types/tube.rs:157-171 | returns a ready job and removes its entry from its tube's ready queue, lowering that counter by one and leaving every other field and tube alone; otherwise returns nothing and changes nothing; agrees with the reservation function |
| `Servers.ReserveKeepsTheOthers` | src/types/tube.rs:157-171 | reserving a ready job returns it, removes exactly its entry from exactly its tube, and keeps jobs and indexes in agreement for every other job and tube |
| `Servers.ReserveRefuses` | src/types/tube.rs:158-162 | nothing is returned and nothing changes exactly for jobs that are unknown or not ready |
| `Servers.DelayedJobIsRefused` | src/types/tube.rs:157-162 | a coherent server of one delayed job, which reserving by id refuses |
| `Servers.ReservationsPanic` | src/types/tube.rs:157-171 | from a server whose jobs and indexes agree, a list of reservations goes through without a panic if and only if no ready job is asked for twice |
| `Servers.SecondReservationPanics` | src/types/tube.rs:157-171 | a server of one ready job on which the second request panics |

## Left out

- The operations without an implementation (`release`, `reserve_by_queue`, `bury`, `kick`, `touch`, `handle_delayed_jobs`): there is no behaviour to model; nothing is claimed about priorities, which `put_ready` ignores.
- The server binary: sockets, signals, cancellation, the command line, and closing the connection after an error. The driver of the decoder is any interleaving of input and decode calls.
- The end-of-stream behaviour of tokio's `FramedRead`, which is not part of this repository.
- YAML text and the statistics records: the data of an `OK` response is an opaque byte string, or absent when serialising fails.
- Buffer capacity (`reserve`) and zero-copy sharing (`freeze`), which have no observable effect; `usize` is assumed to hold 32-bit sizes.
- `pause_until`, the tube name's ownership and the statistics counters that no implemented method changes.
- Serial numbers in a build without overflow checks: at 2^64 - 1 the model panics, as a build with checks does, and does not wrap around.
- Encoder.PutStrAndNumber: stands for both the 32-bit and the 64-bit helper, which differ only in the type of the number.
- Decimal.ReadDigits: stands for both number loops, which differ only in the width; the limit is a parameter.
- Tubes.TubeState.PutDelayed: requires that the delayed counter does not overflow, as the put methods require of serial numbers.
- Replies.ResponsesReadBack: is about responses without job bodies; sessions with jobs are `Sessions.SessionReadsBack`.
- Replies.UniquelyDecodable: is about responses without job bodies; sessions with jobs are `Sessions.SessionsUniquelyDecodable`.
- Reading back job bodies that hold a CRLF: the encoder sends no length, and a client cannot (`Sessions.JobReadsBack`, `Replies.BodiesAreAmbiguous`).
- Clocks: moments are values that are stored and compared, nothing more.
