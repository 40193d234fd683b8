# IAN: the schema front end, the cluster link and front admission, verified

A Dafny model of the three parts of IAN that carry real state, and proofs of what they promise.

* **`happy`**, the schema-language front end (`tools/happy/src`): a streaming lexer over a window that
  is refilled in pieces and trimmed, a one-symbol lookahead cache, a recursive-descent parser, and the
  printer.
* **The cluster link** (`server/common/src/cluster`, `MessageQueue`): length-prefixed frames, a handshake,
  one writer with a queue, two-stage teardown, two nodes joined by a byte link, and the watcher that
  reconnects.
* **Front admission** (`server/front/src/ws`): the lazily reset rate limiter, the connection around it, and
  several acceptors racing on one connection count.

## How it is organised

| file | contents |
|---|---|
| `Common.dfy` | what both kinds of connection share |
| `HappyAst.dfy` | the syntax tree |
| `HappyLexer.dfy` | layout, symbols, extents and positions on one fixed text; the token stream |
| `HappyGrammar.dfy` | the productions as functions on token streams |
| `HappySyntax.dfy` | the grammar without a parser: concrete trees that keep every choice and position; soundness, completeness, braces |
| `HappyParser.dfy` | the `Parser` class: window, cache and all productions, proved to follow the lexer and grammar |
| `HappyOrigins.dfy`, `HappyLayout.dfy`, `HappyPositions.dfy` | positions and layout do not matter; maximal munch; exact positions; where errors point; when parsing ends |
| `HappyErrors.dfy`, `HappyPrefixes.dfy` | an error is raised exactly at the first token that cannot stand where it does; when parsing has no outcome |
| `HappySpelling.dfy`, `HappyTexts.dfy` | which token streams are those of a text; every tree has a text; tokens and accepted texts from characters alone |
| `HappyPrint.dfy`, `HappyRoundTrip.dfy`, `HappyRepair.dfy` | the printer, and what is read back from it |
| `ClusterFraming.dfy`, `MessageQueue.dfy` | frames and their decoder; the outgoing queue |
| `ClusterNode.dfy`, `ClusterConnection.dfy` | one end of the link as a state machine, and the object that follows it |
| `ClusterHandshake.dfy`, `ClusterHistory.dfy`, `ClusterLink.dfy`, `ClusterWatcher.dfy` | the handshake over chunks; what an end owes to its events; runs of two joined nodes; reconnecting |
| `FrontLimiter.dfy`, `FrontSession.dfy`, `FrontHistory.dfy`, `FrontConnection.dfy` | the limiter; the connection as a state machine, what it owes to its events, and the object that follows it |
| `FrontAcceptor.dfy` | acceptors and the shared count |

Where the source updates an object in place there is a class whose methods are proved against a
specification function of the old state (`ensures View() == OnRead(old(View()), ...)`, `ensures
Follows(ParseStruct(old(Rest())), r)`), and the properties are proved of those functions over all inputs
and all runs. What a connection must have done is said from the events of a run alone (`Sent`, `Delivered`,
`FateAfter`, ...), not from fields it keeps itself. Asynchronous operations are recorded when they are started; a handler runs for any of the
recorded ones, with any result, in any order. Exceptions are a `Result`; `Stuck` marks the two places where
the code has no defined outcome.

## What turned out to be false, and exactly when it holds

* A printed document is not always read back: the printer writes `DATA` where the parser wants `STRUCT`,
  leaves mappings and encodings out, and does not escape include paths. `DocumentComesBackIff` says which
  documents come back; `PathReadsBackIffClean` which paths do. With `STRUCT` in the place of `DATA` the text is
  read back but for mappings and encodings (`OnlyTheKeywordIsWrong`).
* The least 64-bit array size is printed but not read back (`LeastIntegerIsLost`); every other is.
* A frame does not carry every message: `FrameRoundTripIff` gives 1 to 2^32 - 1 bytes.
* A queued message does not always have an operation ahead of it: a cancelled read of the handshake leaves
  the link as it is, with nothing under way and no teardown (`CanceledReadStalls`). `LinkDiscipline` gives the
  exact condition: the handshake is complete, or no read has failed.
* The hard connection limit is not a limit on connections: with n acceptors n - 1 more can get in, and no
  more (`AdmissionBound`, `BoundIsReached`).
* An accept can start on an acceptor that does not listen (`PortInUse`), exactly when a bind or listen of its
  last `open` failed and was closed without error, because the close overwrites the error (`DeafIff`). It then
  goes on accepting in vain until it finds the hard limit reached (`DeafUntilTheLimit`, `DeafnessEndsIff`).
* The rate limit is not a bound per second: `Ceiling` is the exact bound for an interval of any length, and
  `CeilingIsReached` gives a run that reaches it for messages and bytes at once. `RateCeiling` is the same in
  whole seconds; `RateCeilingIsExactIff` says when it can be reached.
* Parsing does not always end: `StuckIff` says exactly when it has no outcome, and `SomeTextIsEndless` gives a text.

## Model

| member | source | states |
|---|---|---|
| `HappyParser.StreamReader.Read` | tools/happy/src/Parser.hpp:65-74 | the reader contract: a non-empty next piece of one fixed text, of any size up to the one asked for, and nothing once it is exhausted |
| `HappyParser.Parser.PeekAt` | tools/happy/src/Parser.cpp:130-146 | peeking gives the k-th character after the logical position, NUL past the end, whatever pieces the reader delivers; the logical position does not move |
| `HappyParser.Parser.TrimOpportunity` | tools/happy/src/Parser.cpp:148-158 | trimming changes nothing that can be observed |
| `HappyParser.Parser.Advance` | tools/happy/src/Parser.cpp:110-128 | advancing consumes exactly that many characters, moves line and column over them and clears the cache |
| `HappyParser.Parser.SkipWhitespace` | tools/happy/src/Parser.cpp:74-108 | exactly the layout is skipped, with its effect on the position |
| `HappyParser.Parser.PeekSymbol` | tools/happy/src/Parser.cpp:162-238 | a cached symbol is the one a fresh classification gives at the current position with layout skipped; peeking leaves the remaining tokens as they are |
| `HappyParser.Parser.ClassifyWord` | tools/happy/src/Parser.cpp:206-235 | keywords and identifiers are told apart on the longest run of name characters |
| `HappyParser.FixedToken` | tools/happy/src/Parser.cpp:240-272 | the keyword or sign that was classified is as long as `parse_symbol` advances |
| `HappyParser.Parser.ParseSymbol` | tools/happy/src/Parser.cpp:240-272 | consumes the wanted symbol, or raises the error at the token that is there instead |
| `HappyParser.Parser.ParseIdentifier` | tools/happy/src/Parser.cpp:276-295 | consumes an identifier token and returns its whole text |
| `HappyParser.Parser.ParseString` | tools/happy/src/Parser.cpp:313-350 | ends on every closed literal, with its unescaped content |
| `HappyParser.Parser.ParseInteger` | tools/happy/src/Parser.cpp:352-384 | no intermediate value overflows 64 bits when the value fits; the signed value is returned |
| `HappyParser.Parser.ParseQualifiedIdentifier` | tools/happy/src/Parser.cpp:297-311 | follows the grammar on the remaining tokens |
| `HappyParser.Parser.ParseTypeName` | tools/happy/src/Parser.cpp:439-453 | follows the grammar on the remaining tokens |
| `HappyParser.Parser.Expect` | tools/happy/src/Parser.cpp:457-461 | accepts exactly the expected symbol; the error carries the position and symbol of the next token even when nothing had been peeked |
| `HappyParser.Parser.Unexpected` | tools/happy/src/Parser.cpp:463-482 | the error is at the start of the next token and names its symbol |
| `HappyParser.Parser.ParseIncludeNode` | tools/happy/src/Parser.cpp:486-494 | follows the grammar; the origin is the start of the first token |
| `HappyParser.Parser.ParseStructNode` | tools/happy/src/Parser.cpp:498-513 | follows the grammar; the origin is the start of the first token |
| `HappyParser.Parser.ParseStructBody` | tools/happy/src/Parser.cpp:506-512 | the field loop ends, and collects the fields the grammar gives |
| `HappyParser.Parser.ParseStructFieldNode` | tools/happy/src/Parser.cpp:516-526 | follows the grammar; the origin is the start of the first token |
| `HappyParser.Parser.ParseMappingNode` | tools/happy/src/Parser.cpp:530-549 | follows the grammar; the origin is the start of the first token |
| `HappyParser.Parser.ParseMappingFieldNode` | tools/happy/src/Parser.cpp:552-562 | follows the grammar; the origin is the start of the first token |
| `HappyParser.Parser.ParseEncodingDeclaration` | tools/happy/src/Parser.cpp:566-592 | follows the grammar, with DEFAULT for an omitted encoding name |
| `HappyParser.Parser.ParseEncodingTree` | tools/happy/src/Parser.cpp:594-602 | follows the grammar through the recursion with DELTA blocks, which ends |
| `HappyParser.Parser.ParseEncodingFieldNode` | tools/happy/src/Parser.cpp:604-621 | follows the grammar, with DEFAULT for an omitted encoding name |
| `HappyParser.Parser.ParseDeltaTree` | tools/happy/src/Parser.cpp:623-653 | follows the grammar for both forms of a DELTA block |
| `HappyParser.Parser.ParseWholeDocument` | tools/happy/src/Parser.cpp:657-687 | follows the grammar from the first token to the end of input |
| `HappyParser.Parser.Parse` | tools/happy/src/Parser.cpp:66-70 | tree, origins and error depend on the text only, not on how the reader cuts it |
| `HappySyntax.DocumentComplete` | tools/happy/src/Parser.cpp:486-687 | every document the grammar writes, with DELTA blocks nested to any depth, is accepted and read as the tree it stands for |
| `HappySyntax.EveryTreeIsParsed` | tools/happy/src/Ast.hpp:26-161 | every syntax tree, with whatever origins, is the tree of a document, and parsing the tokens of that document gives the tree back |
| `HappySyntax.DocumentSound` | tools/happy/src/Parser.cpp:486-687 | every accepted token stream is written by the grammar from a document that stands for the result |
| `HappySyntax.ParsesExactlyTheGrammar` | tools/happy/src/Parser.cpp:657-687 | the two together: accepted with a result exactly when written by a document standing for it, origins included |
| `HappySyntax.GrammarIsUnambiguous` | tools/happy/src/Parser.cpp:486-687 | one token stream stands for at most one tree |
| `HappySyntax.NodeComplete` | tools/happy/src/Parser.cpp:594-653 | encoding nodes, bare and braced DELTA blocks are read back whatever follows but a colon |
| `HappySyntax.NodeSound` | tools/happy/src/Parser.cpp:594-653 | an accepted encoding node is a field, a bare DELTA field or a braced block |
| `HappyOrigins.DocumentForgets` | tools/happy/src/Parser.cpp:486-687 | parsing commutes with forgetting all positions |
| `HappyOrigins.PositionsDoNotMatter` | tools/happy/src/Parser.cpp:486-687 | token streams that differ in positions only have outcomes that differ in positions only |
| `HappyLayout.MaximalMunch` | tools/happy/src/Parser.cpp:174-234 | every token takes the longest text that can belong to it, and that text spells it; a literal ends at its first delimiter that is not escaped and holds what is before it, unescaped |
| `HappyLayout.ScanLocal` | tools/happy/src/Parser.cpp:162-238 | a token is scanned the same wherever its text stands, if the next character cannot belong to it |
| `HappyLayout.SkipsGap` | tools/happy/src/Parser.cpp:74-108 | a run of blanks and comments is skipped, and nothing after it; only where the input ends may the last comment be open |
| `HappyLayout.LayoutIsGap` | tools/happy/src/Parser.cpp:74-108 | what is skipped is always such a run |
| `HappyLayout.RespaceKeepsTokens` | tools/happy/src/Parser.cpp:74-108 | replacing all layout of a text by other gaps keeps its tokens |
| `HappyLayout.LayoutDoesNotMatter` | tools/happy/src/Parser.cpp:657-687 | and so leaves the outcome of parsing any text, accepted or not, unchanged but for positions |
| `HappyTexts.ScansExactly` | tools/happy/src/Parser.cpp:162-384 | from characters alone: a token is scanned exactly when the text spells it and takes the longest text that can belong to it |
| `HappyTexts.StopsExactly` | tools/happy/src/Parser.cpp:162-238 | from characters alone: exactly when scanning stops at the end or a NUL, a number with a dot, an integer beyond 64 bits, an unclosed literal, a character that starts no token |
| `HappyTexts.ReadsExactly` | tools/happy/src/Parser.cpp:74-238 | the tokens of a text are exactly those it is written with, layout between them, up to where scanning stops |
| `HappyTexts.TextIsParsedIff` | tools/happy/src/Parser.cpp:657-687 | a text is parsed as a tree exactly when it is the tokens of a document for that tree and layout, up to its end or its first NUL outside a literal |
| `HappyTexts.CharacterClasses` | tools/happy/src/Parser.cpp:174-234 | the characters of digits, letters, names and layout, one by one |
| `HappyPositions.LayoutIsExact` | tools/happy/src/Parser.cpp:79-100 | skipping layout keeps the line at 1 plus the newlines passed and, without carriage returns, the column at the distance from the last newline |
| `HappyPositions.AdvanceIsExact` | tools/happy/src/Parser.cpp:112-123 | so does advancing |
| `HappyPositions.LayoutMoves` | tools/happy/src/Parser.cpp:74-108 | skipped layout moves down a line for every newline and over every character but a carriage return |
| `HappyPositions.AdvanceMoves` | tools/happy/src/Parser.cpp:110-128 | a token moves down a line for every newline and over every other character |
| `HappyPositions.TokensAreExact` | tools/happy/src/Parser.cpp:74-128 | every token of a text carries the file and the exact position of a place where the text starts with that token |
| `HappyPositions.ErrorsPointAtTokens` | tools/happy/src/Parser.cpp:457-482 | every parse error carries the exact position and the symbol of a token of the text, the one parsing had reached |
| `HappyPositions.ParsingEnds` | tools/happy/src/Parser.cpp:322-346 | parsing gives a tree or an error unless the tokens end in an unclosed literal or an integer beyond 64 bits |
| `HappyPositions.UnclosedMeansEndless` | tools/happy/src/Parser.cpp:322-346 | a literal is unclosed exactly when no iteration of the string loop ever finds the delimiter |
| `HappyErrors.DocumentSettled` | tools/happy/src/Parser.cpp:486-687 | parsing decides on what it has read: streams that share their tokens up to a place have the same outcome if it was settled there, for every production and any nesting of DELTA blocks |
| `HappyErrors.ErrorsAreUnavoidable` | tools/happy/src/Parser.cpp:457-482 | every other input that has the same tokens before the one an error points at, and the same symbol there, gets the same error, and no document of the grammar starts that way |
| `HappyPrefixes.DocumentPrefix` | tools/happy/src/Parser.cpp:457-482 | the tokens before the place where parsing stops start a document, which goes on there with the very symbol the error asks for, or with one the context it names can go on with |
| `HappyPrefixes.ErrorIff` | tools/happy/src/Parser.cpp:457-482 | an error is raised at a token exactly when it is the first that cannot stand where it does: those before it start a document, and with a token of its symbol they start none |
| `HappyPrefixes.StuckIff` | tools/happy/src/Parser.cpp:322-384 | parsing has no outcome exactly when the tokens end in an unclosed literal or an integer beyond 64 bits and some document has a literal or an integer in that place |
| `HappyPrefixes.UnbalancedIsRejected` | tools/happy/src/Parser.cpp:508-653 | input that ends inside a brace block, or closes one that is not open, raises an error, unless it ends in an unclosed literal or an integer beyond 64 bits, and is not accepted then either |
| `HappySpelling.TextsWriteExactlyTheSpellable` | tools/happy/src/Parser.cpp:162-384 | a complete token stream is that of some text, positions aside, exactly when its names are identifiers and no integer is the least of 64 bits |
| `HappySpelling.EveryTreeHasAText` | tools/happy/src/Parser.cpp:66-70 | so every syntax tree with such names and sizes has a text that is parsed as that tree |
| `HappySpelling.SomeTextIsEndless` | tools/happy/src/Parser.cpp:322-346 | a text on which parsing has no outcome |
| `HappyPrint.Output.PutQualified` | tools/happy/src/AstPrint.hpp:14-21 | appends the name space parts and the name, separated by dots |
| `HappyPrint.Output.PutType` | tools/happy/src/AstPrint.hpp:23-30 | appends the identifier and, for arrays, the size in brackets |
| `HappyPrint.Output.PutStruct` | tools/happy/src/AstPrint.hpp:53-60 | appends the struct as DATA with one field a line |
| `HappyPrint.Output.PutRoot` | tools/happy/src/AstPrint.hpp:33-44 | appends includes, name space and structs, and nothing of mappings and encodings |
| `HappyRoundTrip.QualifiedReadsBack` | tools/happy/src/AstPrint.hpp:14-21 | a printed qualified identifier is read back |
| `HappyRoundTrip.TypeReadsBack` | tools/happy/src/AstPrint.hpp:23-30 | a printed type is read back, for every array size of magnitude below 2^63 |
| `HappyRoundTrip.LeastIntegerIsLost` | tools/happy/src/Parser.cpp:372-383 | the least 64-bit size is printed and overflows when read |
| `HappyRoundTrip.FieldsReadBack` | tools/happy/src/AstPrint.hpp:57-66 | a struct's printed field list is read back |
| `HappyRoundTrip.EveryStringCanBeWritten` | tools/happy/src/Parser.cpp:322-346 | every content has a spelling with escapes that the lexer reads back as it |
| `HappyRoundTrip.PathReadsBackIffClean` | tools/happy/src/AstPrint.hpp:46-51 | a printed path is read back exactly when it has no single quote and no backslash |
| `HappyRoundTrip.DocumentComesBackIff` | tools/happy/src/AstPrint.hpp:33-44 | a printed document is read back exactly when it has no declarations and only clean include paths |
| `HappyRepair.OnlyTheKeywordIsWrong` | tools/happy/src/AstPrint.hpp:33-60 | a printed document with STRUCT in the place of every DATA is parsed as the document without its mappings and encodings |
| `ClusterFraming.LittleRoundTrip` | server/common/src/cluster/ClusterConnection.cpp:199-203 | the little-endian length of 32 bits is read back |
| `ClusterFraming.LowestByteFirst` | server/common/src/cluster/ClusterConnection.cpp:202-203 | byte k of the length counts for 256 to the k |
| `ClusterFraming.DecodeInPieces` | server/common/src/cluster/ClusterConnection.cpp:427-469 | reading a stream in two pieces is reading it at once; a zero length stops both alike |
| `ClusterFraming.ChunksDoNotMatter` | server/common/src/cluster/ClusterConnection.cpp:417-472 | however a stream is cut into chunks, the same messages come out and the same zero length stops it |
| `ClusterFraming.DecodeSound` | server/common/src/cluster/ClusterConnection.cpp:430-469 | the stream is the frames of the messages read, all of 1 to 2^32 - 1 bytes, and then an incomplete frame or a zero length |
| `ClusterFraming.PrefixDecodes` | server/common/src/cluster/ClusterConnection.cpp:430-469 | of any part of a stream of good frames only messages of that stream are read, in order |
| `ClusterFraming.FrameRoundTripIff` | server/common/src/cluster/ClusterConnection.cpp:199-208 | a message survives framing exactly when its size is 1 to 2^32 - 1 |
| `MessageQueues.MessageQueue.Push` | server/common/src/MessageQueue.cpp:12-16 | the message goes to the end of the queue, and the byte count stays the sum of the queued sizes |
| `MessageQueues.MessageQueue.TryPop` | server/common/src/MessageQueue.cpp:18-27 | the oldest message leaves, if there is one |
| `MessageQueues.MessageQueue.Clear` | server/common/include/common/MessageQueue.hpp:28 | nothing is left and nothing is counted |
| `MessageQueues.ReversedLast` | server/common/src/MessageQueue.cpp:12-27 | pushing in front and popping at the back is first in, first out |
| `ClusterConnections.ClusterConnection.Run` | server/common/src/cluster/ClusterConnection.cpp:75-106 | on an open socket the writer is held until the handshake is done, and a new connection becomes the one the runs start from; on a closed one nothing happens |
| `ClusterConnections.ClusterConnection.SendMessage` | server/common/src/cluster/ClusterConnection.cpp:108-131 | the step of the link for a posted send |
| `ClusterConnections.ClusterConnection.Abort` | server/common/src/cluster/ClusterConnection.cpp:133-150 | the step of the link for abort |
| `ClusterConnections.ClusterConnection.Shutdown` | server/common/src/cluster/ClusterConnection.cpp:152-177 | the step of the link for shutdown |
| `ClusterConnections.ClusterConnection.OnShutdown` | server/common/src/cluster/ClusterConnection.cpp:230-250 | the step of the link for a completed TLS shutdown |
| `ClusterConnections.ClusterConnection.DoWriteMessage` | server/common/src/cluster/ClusterConnection.cpp:199-228 | one frame, length and payload, is started |
| `ClusterConnections.ClusterConnection.OnTlsHandshake` | server/common/src/cluster/ClusterConnection.cpp:252-278 | the step of the link for the TLS handshake |
| `ClusterConnections.ClusterConnection.OnHandshakeSent` | server/common/src/cluster/ClusterConnection.cpp:280-299 | the step of the link for the handshake written |
| `ClusterConnections.ClusterConnection.OnHandshake` | server/common/src/cluster/ClusterConnection.cpp:301-415 | the step of the link for a chunk of the peer's handshake |
| `ClusterConnections.ClusterConnection.ReadMessages` | server/common/src/cluster/ClusterConnection.cpp:430-469 | the data loop ends, processes exactly the messages the decoder gives and keeps exactly the rest |
| `ClusterConnections.ClusterConnection.OnRead` | server/common/src/cluster/ClusterConnection.cpp:417-472 | the step of the link for a chunk of messages |
| `ClusterConnections.ClusterConnection.OnWriteMessage` | server/common/src/cluster/ClusterConnection.cpp:474-497 | the step of the link for a completed write |
| `ClusterConnections.ClusterConnection.OnWriteFailed` | server/common/src/cluster/ClusterConnection.cpp:479-483 | the step of the link for a failed write, which leaves the writer held |
| `ClusterConnections.ClusterConnection.HandleError` | server/common/src/cluster/ClusterConnection.cpp:499-537 | reset errors abort, cancelled ones are ignored, others shut down |
| `ClusterHandshake.HandshakeCompletesIff` | server/common/src/cluster/ClusterConnection.cpp:301-415 | over any chunks the handshake completes exactly when the first holds a whole non-zero length and some chunk ends exactly with the handshake |
| `ClusterHandshake.HandshakeRefusedIff` | server/common/src/cluster/ClusterConnection.cpp:314-361 | it is refused exactly when it opens badly or runs past its end without stopping there |
| `ClusterNode.StepInv` | server/common/src/cluster/ClusterConnection.cpp:108-537 | every handler, in any order and with any result, keeps the invariant of a link end |
| `ClusterLink.PrefixDelivery` | server/common/src/cluster/ClusterConnection.cpp:108-497 | in every state of every run of two joined nodes, in both directions, what is delivered is a prefix of the messages the sender was given while it was not torn down, by the moves of the run, byte for byte, for sizes 1 to 2^32 - 1 |
| `ClusterLink.CompleteDelivery` | server/common/src/cluster/ClusterConnection.cpp:108-497 | and all of it, once the sender is idle and not torn down and the receiver, past the handshake, has read what was handed over |
| `ClusterLink.LinkDiscipline` | server/common/src/cluster/ClusterConnection.cpp:98-177 | in every run at most one write and one read are outstanding, an idle writer means empty queue and completed handshake, until a write fails a queued message has an operation ahead of it exactly if the handshake is complete or no read has failed, what it was given is started or queued, in order, TLS shutdown and close happen at most once and leave nothing queued |
| `ClusterLink.CanceledReadStalls` | server/common/src/cluster/ClusterConnection.cpp:301-312 | for every handshake and message a run in which a cancelled read leaves the message queued with nothing under way, no failed write and no teardown |
| `ClusterLink.HeldBack` | server/common/src/cluster/ClusterConnection.cpp:433-455 | between reads less than a length, or less than the announced message, is held |
| `ClusterHistory.StepHistory` | server/common/src/cluster/ClusterConnection.cpp:108-537 | every handler does to the accepted messages, the handshake, the outstanding operations and the teardown what its event calls for |
| `ClusterLink.ReadsOn` | server/common/src/cluster/ClusterConnection.cpp:301-472 | in every run, from the chunks read: exactly when the handshake is complete, what has been delivered, and that an end reads on unless a read has failed or its peer has offended |
| `ClusterLink.FateIsExact` | server/common/src/cluster/ClusterConnection.cpp:133-250 | in every run, from the events: exactly when an end shuts down or is closed, that resets close it, other failures shut it down and cancelled ones do nothing, and that the socket is closed when the TLS shutdown ends |
| `ClusterLink.OffenceIsFatal` | server/common/src/cluster/ClusterConnection.cpp:314-451 | in every run an end whose peer sent a bad handshake or a zero length is being torn down and reads no more |
| `ClusterLink.SilenceIsFinal` | server/common/src/cluster/ClusterConnection.cpp:474-497 | in every run nothing is written after a failed write, and no frame is started once teardown has begun, even when a pending write completes later |
| `ClusterWatchers.ClusterWatcher.OnConnect` | server/common/src/cluster/ClusterWatcher.cpp:38-63 | the step of the watcher for a connect attempt; under the invariant, which is kept, the timer is then the one thing pending and one connection lives exactly after a success |
| `ClusterWatchers.ClusterWatcher.OnTimer` | server/common/src/cluster/ClusterWatcher.cpp:65-74 | the step of the watcher for its timer; under the invariant, which is kept, a new attempt is made exactly when no connection of the watcher lives |
| `ClusterWatchers.WatcherUnique` | server/common/src/cluster/ClusterWatcher.cpp:23-74 | in every run exactly one connect or timer is pending, no connection lives while connecting, at most one ever lives, and the aborted-timer branch is never taken |
| `ClusterWatchers.WatcherReacts` | server/common/src/cluster/ClusterWatcher.cpp:38-74 | in every run a new attempt is made exactly when the timer finds no living connection, and one lives after an attempt exactly if it succeeded |
| `ClusterWatchers.Reconnects` | server/common/src/cluster/ClusterWatcher.cpp:38-74 | in every run a watcher without a connection is a timer and an attempt away from one |
| `FrontLimiter.Ceiling` | server/front/src/ws/WsConnection.cpp:209-233 | the most messages and bytes that pass in a closed interval of any length without a kill, by the number of resets that fit in it |
| `FrontLimiter.RateCeiling` | server/front/src/ws/WsConnection.cpp:209-233 | without a kill at most (T+1)*L + T messages and (T+1)*B + T*M bytes pass in any closed interval of T whole seconds |
| `FrontLimiter.RateCeilingIsExactIff` | server/front/src/ws/WsConnection.cpp:209-233 | the bound in whole seconds is the exact ceiling for messages exactly up to 10^9 + 1 seconds, and for bytes exactly if also L messages can carry B bytes |
| `FrontLimiter.CeilingIsReached` | server/front/src/ws/WsConnection.cpp:209-233 | for all limits, message sizes and lengths some run without a kill reaches the exact ceiling, for messages and bytes at once |
| `FrontLimiter.PoliteIsNeverKilled` | server/front/src/ws/WsConnection.cpp:209-233 | a client that keeps to the limits in every closed second is never killed |
| `FrontConnections.WsConnection.CheckRateLimit` | server/front/src/ws/WsConnection.cpp:209-233 | kills exactly on an overflow in a window of at most one second; an older window is reset |
| `FrontConnections.WsConnection.OnRead` | server/front/src/ws/WsConnection.cpp:397-439 | the step of the session for a message: counting, kill, refusal of text, delivery |
| `FrontConnections.WsConnection.SendMessage` | server/front/src/ws/WsConnection.cpp:105-128 | the step of the session for a posted send |
| `FrontConnections.WsConnection.Abort` | server/front/src/ws/WsConnection.cpp:130-149 | the step of the session for abort |
| `FrontConnections.WsConnection.Shutdown` | server/front/src/ws/WsConnection.cpp:151-171 | the step of the session for shutdown |
| `FrontConnections.WsConnection.OnShutdown` | server/front/src/ws/WsConnection.cpp:244-262 | the step of the session for a completed TLS shutdown |
| `FrontConnections.WsConnection.OnTimeout` | server/front/src/ws/WsConnection.cpp:235-242 | the step of the session for a timer |
| `FrontConnections.WsConnection.OnReadRequest` | server/front/src/ws/WsConnection.cpp:283-330 | the step of the session for the first request: refused above the soft limit, upgraded, or answered as not implemented |
| `FrontConnections.WsConnection.OnWsHandshake` | server/front/src/ws/WsConnection.cpp:332-370 | the step of the session for the upgrade, ignored once dropped |
| `FrontConnections.WsConnection.OnWriteMessage` | server/front/src/ws/WsConnection.cpp:442-465 | the step of the session for a completed write |
| `FrontConnections.WsConnection.HandleError` | server/front/src/ws/WsConnection.cpp:467-505 | reset errors abort, cancelled ones are ignored, others shut down |
| `FrontSession.StepInv` | server/front/src/ws/WsConnection.cpp:105-505 | every handler, in any order and with any result, keeps the invariant of a session |
| `FrontSession.SessionDiscipline` | server/front/src/ws/WsConnection.cpp:105-171 | in every run one write, of the message started last, and one read at most, an idle writer means an empty queue, a busy one has a write in flight unless one has failed, TLS shutdown and close at most once, teardown leaves nothing queued, a refused client is never read from |
| `FrontSession.SilenceIsFinal` | server/front/src/ws/WsConnection.cpp:442-465 | in every run no message is started once a write has failed or teardown has begun, even when a pending write completes later |
| `FrontHistory.SessionCeiling` | server/front/src/ws/WsConnection.cpp:397-412 | in every run of a session that is not killed the ceiling holds for the messages that were read |
| `FrontHistory.SessionNotKilled` | server/front/src/ws/WsConnection.cpp:397-412 | in every run a client whose messages keep to the limits is not killed |
| `FrontHistory.RunHistory` | server/front/src/ws/WsConnection.cpp:105-505 | in every run, from the events alone: what arrived, whether the limiter kills, that exactly the binary messages it let pass are delivered, the reply by the soft limit and the upgrade, what is waited for, how far the connection is torn down, and what it took for sending |
| `FrontHistory.NothingIsLost` | server/front/src/ws/WsConnection.cpp:105-128 | in every run, until teardown, what the connection was given is started or queued, in order |
| `FrontHistory.TextEndsReading` | server/front/src/ws/WsConnection.cpp:414-419 | in every run a text message that is not killed begins teardown and ends reading for good |
| `FrontHistory.FateIsExact` | server/front/src/ws/WsConnection.cpp:130-262 | in every run, from the events: exactly when the connection shuts down or is closed, and the socket with it |
| `FrontSession.KillIsFinal` | server/front/src/ws/WsConnection.cpp:411-412 | in every run nothing is delivered after a kill |
| `FrontAcceptor.WsAcceptor.OpenSocket` | server/front/src/ws/WsAcceptor.cpp:53-91 | which error is left by the calls of `open`, and whether the acceptor listens |
| `FrontAcceptor.DeafIff` | server/front/src/ws/WsAcceptor.cpp:53-106 | in every run an acceptor in service, an outstanding accept included, does not listen exactly when a bind or listen of its last `open` failed and was closed without error |
| `FrontAcceptor.DeafUntilTheLimit` | server/front/src/ws/WsAcceptor.cpp:109-158 | in every run such an acceptor stays so and admits nobody until it finds the hard limit reached |
| `FrontAcceptor.DeafnessEndsIff` | server/front/src/ws/WsAcceptor.cpp:109-126 | it stops being so by that move and no other |
| `FrontAcceptor.PortInUse` | server/front/src/ws/WsAcceptor.cpp:74-80 | a run in which a port in use leads to an accept on a socket that does not listen |
| `FrontAcceptor.WsAcceptor.Open` | server/front/src/ws/WsAcceptor.cpp:44-107 | moves of the front by this acceptor, from its opening to where it waits for an operation |
| `FrontAcceptor.WsAcceptor.OnTimerOpen` | server/front/src/ws/WsAcceptor.cpp:93-99 | the same from the timer of a failed `open` |
| `FrontAcceptor.WsAcceptor.AcceptNext` | server/front/src/ws/WsAcceptor.cpp:109-126 | on all acceptors and the count, exactly the move that looks at the count: no other acceptor changes |
| `FrontAcceptor.WsAcceptor.OnAccept` | server/front/src/ws/WsAcceptor.cpp:128-158 | moves of the front by this acceptor, from the end of its accept, counted unconditionally, to where it waits again |
| `FrontAcceptor.WsAcceptor.OnTimerAccept` | server/front/src/ws/WsAcceptor.cpp:160-160 | the same from the timer that delays an accept |
| `FrontAcceptor.WsAcceptor.OnTimerReopen` | server/front/src/ws/WsAcceptor.cpp:162-177 | the same from the timer of a closed acceptor |
| `FrontAcceptor.LeadsBounded` | server/front/src/ws/WsAcceptor.cpp:109-177 | so every handler keeps the admission bound |
| `FrontAcceptor.AdmissionBound` | server/front/src/ws/WsAcceptor.cpp:109-177 | in every state of every run live connections and outstanding accepts are at most H - 1 + N, and none if H is not positive |
| `FrontAcceptor.BoundIsReached` | server/front/src/ws/WsAcceptor.cpp:109-177 | H - 1 + N live connections can really be reached, for every H and N |
| `FrontAcceptor.CountIsExact` | server/front/src/ws/WsConnection.cpp:77-80 | in every run the count is the accepts that succeeded less the connections that are gone |
| `FrontAcceptor.CountDecides` | server/front/src/ws/WsAcceptor.cpp:109-177 | in every run an acceptor accepts, or opens again, exactly below the hard limit, and delays exactly above half of it |
| `FrontAcceptor.Recovers` | server/front/src/ws/WsAcceptor.cpp:93-177 | below the hard limit every acceptor, a closed one included, gets to an accept by moves of its own if its socket calls succeed, and listens then unless it was in service and deaf |

## Left out

- HappyParser.Parser.ParseString: a literal that is never closed has no outcome in the source (its loop does not end), so the method requires that the text does not stop in one; `UnclosedMeansEndless` states the loop's behaviour there.
- HappyParser.Parser.ParseInteger: a value beyond 64 bits is undefined in the source, so the method requires that it fits.
- HappyParser.Parser.Parse: the text is a sequence of characters, of which bytes are a special case; literals and tokens longer than an `int` can index, and line and column counters that overflow, are not modelled.
- FrontAcceptor.WsAcceptor.OnAccept: in the class the moves of a handler are not interleaved with those of other acceptors; the runs of the front interleave them freely. A connection is taken to come only from a socket that listens.
- FrontHistory.SessionCeiling: limits are constants during a run and not negative; counters do not wrap.
- `parse_number`: no production calls it.
- TLS, sockets and timers themselves: operations are started and later complete in any order with any result, the link is a reliable byte channel, and both ends agree on `safe_link`.
- The handshake payload: the source leaves it to be written, so it is any payload of 1 to 2^32 - 1 bytes; `downgraded_` is never set and is not modelled.
- Timer durations and re-arming: a timeout may come at any moment.
- `WsConnection::run` on a socket that is already closed: the source calls it a case that should never happen.
- HTTP requests and the WebSocket upgrade: only which way they send the connection.
- Configuration, logging, thread pools, the cluster acceptor, process start-up, and the client: no state that the properties above depend on.
