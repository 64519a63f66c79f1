# Verified model of the air-travel server and its web framework

The repository is a small air-travel server (`server.cpp`, `airdp.cpp`) together with the source of
the Crow web framework it is built on (`crow/`). This project models the parts of both in which a
mistake would be hard to see, and proves what they promise:

- **HTTP/1.x requests** (`Http*.dfy`): the resumable parser with its inner scan loops, marks and
  64-bit lengths, against a reference that reads one byte at a time; bodies of a declared length and
  chunked bodies against the formats of RFC 7230.
- **Routing** (`Routing*.dfy`): the trie of patterns, its path compression and its backtracking search,
  against a scan of the registered patterns; and the delivery of the captured parameters to the handler.
- **Mustache** (`Mustache*.dfy`): the compiler to a flat action array with jump links and the
  interpreter with a context stack, against a recursive renderer of nested blocks.
- **JSON** (`Json*.dfy`): the printer, and the parser that works in place on one mutable buffer.
- **Sessions** (`Sessions.dfy`, `SessionExits.dfy`, `SessionMiddleware.dfy`): concurrent requests that share cached,
  reference-counted sessions over a store, as atomic steps in any interleaving, also when a request
  leaves twice or not at all.
- **WebSocket** (`WebSocket*.dfy`): frames, partial reads, unmasking and reassembly of fragments
  (sections 5.2 to 5.4 of RFC 6455).
- **Codecs** (`Sha1`, `Crc`, `Zip`, `Base64`, `Csv`, `Multipart`): table-driven and streaming forms
  against the definitions, and writers against readers.
- **The application** (`Routes`, `Reports`, `Middleware`): the one-hop join, the route-count reports,
  and the bracketing of before- and after-handlers.

Code that changes fields or buffers step by step is written as classes and methods; what each method
computes is a specification function, and the lemmas are about these functions. Bytes of text are
`char`, bytes of binary data are numbers below 256. `dafny verify dfyconfig.toml` checks the project.

## Findings

Promises that do not hold on all inputs. Each has an input on which it fails and the exact condition
under which it holds.

| promise | where it fails | exactly when it holds |
|---|---|---|
| The parser's result does not depend on how the stream is cut into buffers. | `HttpAsserts.CutReached`: "upgrade:h" cut from "2" | `HttpSplits.CutNoticed`, `HttpSplits.AtTheCut`: no cut hides the "2" behind the "h" that begins an `Upgrade` value while the upgrade flag is clear |
| The `assert`s in the parser never fail. | `HttpAsserts.AssertReached`: a `Connection` value that begins with a NUL byte | `HttpAsserts.AssertFails`: no byte meets the parser inside a `Connection` value taken for white space; without NUL bytes never (`HttpAsserts.AssertsHold`) |
| Only hexadecimal digits are accepted in a chunk size. | `HttpChunks.HighByteIsZero`: the byte 128 is read as a zero, and so as the last chunk | `HttpChunks.HexDigitOrNot`: for all bytes below 128 |
| A value that is dumped can be loaded again. | `JsonPrint.NestedLists`: 5001 lists, one inside the other | `JsonPrint.RoundTrip`: nested at most 5000 deep |
| The message is padded for SHA-1 as the standard says. | `Sha1.LongZeros`: 2^29 zero bytes | `Sha1.PaddingAgrees`: under 2^29 bytes |
| After-handlers run for the middlewares whose before-handlers ran. | `Middleware.OptionsUnbracketed`: every OPTIONS request | `Middleware.RequestBracketed`: there is no global middleware, or something was found for the request and it is not upgraded, or a before-handler ends the response of an upgraded one |
| A session's count is the number of requests that hold it, and it is loaded between two saves. | `SessionExits.ExitTwice`: an OPTIONS request on the connection of a request that has left a session another request still holds | `SessionExits.KeptExactly`: no further exit finds a session in its context, and no request that is handed over holds a stored one |
| The tag of a pattern stands for the types of its parameters. | `RoutingArguments.ManyStrings`: 25 string parameters | `RoutingArguments.TagDecodes`: their base-6 code is under 2^64, as for up to 24 parameters (`RoutingArguments.FewParameters`) |
| Multipart parts that are printed can be read back. | `Multipart.UnnamedPart`: a part with a header but no name | `Multipart.RoundTrip`: every part has a `Content-Disposition` header with a `name` parameter |
| Decoding base64 does not throw. | `Base64.OnlyLonePad`: the text "=" | `Base64.OnlyLonePad`: for every other text |

## Model

| member | source | states |
|---|---|---|
| `HttpInvariant.DispatchKept` | crow/http_parser_merged.h:754-1895 | one pass of the switch, from any state: counters and lengths stay in range, a span opens, goes on and closes only where the state says so, and an assert of the source fails exactly in one described situation |
| `HttpInvariant.StepGood` | crow/http_parser_merged.h:730-1926 | every byte keeps the invariant of the parser, and an assert fails exactly if the byte meets the described situation and does not exceed the header limit |
| `HttpScans.DeliverAppend` | crow/parser.h:30-93 | delivering a span in two pieces has the effect of delivering it at once, for URL, header names, header values and body |
| `HttpSpans.ActKept` | crow/http_parser_merged.h:200-280 | for every callback action: the request plus the bytes marked but not delivered is what the byte-at-a-time reference has recorded |
| `HttpSpans.InitialPending` | crow/http_parser_merged.h:729-747 | the marks set on entering with a new buffer lose and repeat nothing |
| `HttpParser.HTTPParser.ScanName` | crow/http_parser_merged.h:1106-1248 | the inner loop over a header name leaves fields, counted bytes and delivered name as the reference does byte by byte |
| `HttpParser.HTTPParser.ScanValue` | crow/http_parser_merged.h:1341-1516 | the inner loop over a header value, with its local header state and its search for the line end, agrees with the reference |
| `HttpParser.HTTPParser.TakeBody` | crow/http_parser_merged.h:1723-1758 | skipping a whole stretch of a body at once agrees with the reference taking one byte at a time |
| `HttpParser.HTTPParser.Execute` | crow/http_parser_merged.h:633-1927 | for every buffer and every state a parser can be in: it succeeds exactly if the fold of the one-byte reference does, then with the same fields and the same assembled request; an empty buffer does what the end of input does |
| `HttpSplits.StepBlind` | crow/http_parser_merged.h:1273-1289 | the byte that follows matters to one byte exactly if that byte is the "h" of an `Upgrade` value with the flag clear and one look-ahead is "2" and the other not |
| `HttpSplits.AtTheCut` | crow/http_parser_merged.h:1273-1289 | the state at a cut is what it would be without the cut, if and only if the cut does not hide that "2" |
| `HttpSplits.CutUnnoticed` | crow/http_parser_merged.h:633-1927 | two buffers have the effect of their concatenation unless the cut hides that "2" |
| `HttpSplits.CutNoticed` | crow/http_parser_merged.h:1273-1289 | a buffer followed by a single byte differs from both at once exactly if the cut hides that "2" |
| `HttpSplits.AnyTwoCuts` | crow/http_parser_merged.h:633-1927 | two ways of cutting the same stream into non-empty buffers that separate no "h" from a "2" end in the same fields and the same request |
| `HttpSplits.FeedBuffers` | crow/parser.h:111-133 | feeding such buffers one after the other to the parser object gives the reference's result on the whole stream, and an error exactly if that has one |
| `HttpAsserts.AssertsHold` | crow/http_parser_merged.h:1397-1430 | on input without NUL bytes no assert fails |
| `HttpAsserts.AssertFails` | crow/http_parser_merged.h:1364-1500 | on any input an assert has failed after `p` bytes if and only if one of them met the parser in the described situation |
| `HttpAsserts.AssertReached` | crow/http_parser_merged.h:1306-1325 | a concrete request with a NUL as the first byte of a `Connection` value makes an assert fail |
| `HttpAsserts.CutReached` | crow/http_parser_merged.h:1273-1289 | a concrete stream that ends differently in one buffer and in two |
| `HttpBodies.DeclaredLength` | crow/http_parser_merged.h:1397-1430 | the decimal accumulator accepts a numeral exactly up to a bound below the all-ones marker, and then holds its value, never a wrapped one |
| `HttpBodies.LengthSurvives` | crow/http_parser_merged.h:1056-1720 | no header after `Content-Length` changes the declared length before the body begins |
| `HttpBodies.IdentityBody` | crow/http_parser_merged.h:1723-1768 | a body of a declared length is exactly the next that many bytes, and the message is complete with the last of them and not before |
| `HttpBodies.DeclaredBody` | crow/http_parser_merged.h:1397-1768 | from the numeral, spaces behind it and any further headers to the last byte: the body is as long as the numeral says |
| `HttpMessages.MessageBody` | crow/http_parser_merged.h:730-1888 | for every error-free input from the first byte on: without a body nothing is delivered; with a length, the request carries a `Content-Length` header of that number and the body is exactly that many bytes, complete exactly when they are there; with chunks, the body is exactly their payload |
| `HttpMessages.RunTracked` | crow/http_parser_merged.h:730-1720 | up to the body nothing is delivered to it, and a length the parser holds is that of a header in the list or of the header being read |
| `HttpChunks.SizeRun` | crow/http_parser_merged.h:1770-1821 | the hexadecimal accumulator holds the value of the digits read or has refused them, never a wrapped value and never the all-ones marker |
| `HttpChunks.ChunkedBody` | crow/http_parser_merged.h:1770-1888 | on every input a parser at the start of a chunk does what a decoder written from the chunked format says: the same payload, the same end, the same refusals |
| `HttpChunks.EncodeDechunk` | crow/http_parser_merged.h:1770-1888 | the decoder gives back the payloads of every list of well-formed chunks, and what follows the last chunk |
| `HttpChunks.ChunksDelivered` | crow/http_parser_merged.h:1770-1888 | every list of well-formed chunks is delivered as the concatenation of its payloads; what follows is read as trailing headers |
| `HttpChunks.TrailersKeepBody` | crow/http_parser_merged.h:1056-1600 | trailing headers add nothing to the body, and a request stays in them until it is complete or fails |
| `HttpChunks.BodyIsPayload` | crow/http_parser_merged.h:1770-1888 | on every error-free run of a chunked body, up to any point and through trailing headers, the body delivered is exactly the payload |
| `HttpChunks.HexDigitOrNot` | crow/http_parser_merged.h:681-690 | the table accepts the ASCII hexadecimal digits and every byte from 128 up, which it takes for zero |
| `HttpChunks.HighByteIsZero` | crow/http_parser_merged.h:681-690 | a parser at the start of a chunk takes a chunk whose size is the byte 128 for the last one and goes on to the trailing headers |
| `RoutingSearch.RoutingParams.PopValue` | crow/routing.h:894-1000 | taking a captured value off the list of its type undoes the push that came before it: all four lists are as they were |
| `RoutingSearch.Find` | crow/routing.h:855-1011 | from any node and position: the result is a candidate of lowest rule index, or index 0 if there is none, and the shared parameter lists are as before the call |
| `RoutingSearch.OptimizeNode` | crow/routing.h:775-796 | compresses a node until it is not simple; ends because nodes disappear |
| `RoutingSearch.OptimizedEnter` | crow/routing.h:737-796 | for every unoptimized tree, URL and position, compression preserves the set of candidates below a node |
| `RoutingSearch.OptimizedIsCompressed` | crow/routing.h:775-796 | no simple node is left below a compressed node |
| `RoutingTrie.Trie.Add` | crow/routing.h:1019-1102 | inserts the steps of the pattern exactly if they were not there, and otherwise changes nothing and reports it |
| `RoutingTrie.Trie.Validate` | crow/routing.h:847-852 | fails exactly if the root is not simple, and else compresses everything below it |
| `RoutingCorrect.RuleAfterInsert` | crow/routing.h:1019-1102 | after an insertion the tree holds the new rule at its steps and every other rule where it was |
| `RoutingCorrect.InsertCands` | crow/routing.h:855-1102 | an insertion adds exactly the matches of the new pattern to what a search can find |
| `RoutingCorrect.SearchIsScan` | crow/routing.h:737-1102 | the search in the compressed tree finds exactly what a scan of the registered patterns finds, with the same captures |
| `RoutingCorrect.WinnerCaptures` | crow/routing.h:855-1011 | if the winning index is unique, the captures are those of its pattern, in URL order |
| `RoutingCorrect.NotFound` | crow/routing.h:855-1011 | the result is 0 exactly if no pattern matches, and is never above the index of a matching pattern |
| `RoutingCorrect.BuildTrie` | crow/routing.h:677-683 | adding all rules and compressing succeeds exactly if every pattern begins with "/" and no two take the same steps |
| `RoutingCorrect.TreeSlashed` | crow/routing.h:847-852 | while every pattern begins with "/" the root has at most the one child "/", so the check of the root never fails |
| `RoutingCorrect.FindRule` | crow/routing.h:1013-1016 | the search on the trie that was built returns a match of lowest index among all registered patterns |
| `RoutingArguments.TagIsCode` | crow/utility.h:195-230 | the tag of a pattern is the base-6 code of its parameters, modulo 2^64 |
| `RoutingArguments.TagExists` | crow/utility.h:202-217 | a tag is computed exactly if every "<" begins a known parameter |
| `RoutingArguments.TagDecodes` | crow/utility.h:202-365 | the argument types read back from the tag are those of the pattern, in order, if and only if the code of its parameters is under 2^64 |
| `RoutingArguments.FewParameters` | crow/utility.h:202-217 | the code of up to 24 parameters, of any types, is under 2^64 |
| `RoutingArguments.ManyStrings` | crow/utility.h:202-365 | a pattern of string parameters is read back from its tag exactly up to 24 of them |
| `RoutingArguments.MatchPushes` | crow/routing.h:884-990 | the lists filled by a match hold the captured values, each in the list of its type and in order |
| `RoutingArguments.DeliverPushed` | crow/routing.h:176-245 | any captured values, pushed by type, are delivered in their original order |
| `RoutingArguments.HandlerReceives` | crow/routing.h:176-245 | from pattern and URL to the call: the handler of a matching pattern receives exactly the captured values, in URL order and of its types, if and only if the code of its parameters is under 2^64 |
| `MustacheContexts.InnermostWins` | crow/mustache.h:168-233 | a name without dots is resolved in the innermost context that has it, and in none exactly if none has it |
| `MustacheContexts.EscapedIsInert` | crow/mustache.h:236-253 | escaped text holds none of the characters that end text or attributes in HTML |
| `MustacheParse.LinkFinds` | crow/mustache.h:519-574 | the stack of open blocks finds the links of every text whose tags can be matched up |
| `MustacheParse.LinksAreUnique` | crow/mustache.h:519-574 | there is at most one way to match up the tags |
| `MustacheParse.Parser.Add` | crow/mustache.h:519-660 | one tag: the links made so far and the tags to come are linked together, or cannot be |
| `MustacheParse.Parse` | crow/mustache.h:495-745 | succeeds exactly if every tag can be read and the blocks match up by name, nested or disjoint; the result is linked both ways, with as many fragments as actions, and without the blanks of standalone lines |
| `MustacheParse.RemoveStandalones` | crow/mustache.h:678-745 | exactly the tags that stand alone on their lines lose the blanks around them |
| `MustacheScan.TrimmedIsBlank` | crow/mustache.h:678-745 | what is removed around a tag is blanks and at most one line end |
| `MustacheRender.RenderInternal` | crow/mustache.h:280-425 | the jump-driven interpreter appends exactly what the recursive renderer yields for the nested blocks of its range, and gives the context stack back unchanged, never popped below what it was given |
| `MustacheRender.OpenBlockOrElse` | crow/mustache.h:345-415 | at an opening tag: the block is entered once with the right context, skipped, or repeated for every element, as the recursive renderer says |
| `MustacheRender.RenderList` | crow/mustache.h:385-400 | a block over a list is rendered once for every element, in order, with that element as the context |
| `MustacheRender.RenderTag` | crow/mustache.h:306-340 | a tag shows the value the contexts give it, escaped or not |
| `MustacheRender.RenderTemplate` | crow/mustache.h:444-492 | rendering a linked template is the recursive rendering of its blocks |
| `JsonPrint.EscapeRoundTrip` | crow/json.h:45-71 | unescaping the escaped form of any byte string gives it back |
| `JsonPrint.NumberRoundTrip` | crow/json.h:1933-1940 | the printed form of an integer is a numeral of that value |
| `JsonPrint.KindOfText` | crow/json.h:743-760 | a printed integer is recognised as one, and as signed exactly when it is negative |
| `JsonPrint.ValueRoundTrip` | crow/json.h:875-1259 | the grammar of the parser reads every printed value back wherever it stands, in either layout, and refuses it exactly if it is nested too deep |
| `JsonPrint.FitsDepth` | crow/json.h:875-1250 | the depth counter rises by two per level, so the limit is met exactly at 5000 levels |
| `JsonPrint.RoundTrip` | crow/json.h:875-2028 | parsing what was printed gives the value, compact or indented, if and only if it is nested at most 5000 deep |
| `JsonPrint.NestedLists` | crow/json.h:962-1000 | printed lists nested in each other are refused by the parser exactly from 5001 on |
| `JsonPrint.DumpInternal` | crow/json.h:1852-2028 | the printer appends the specified text of every value |
| `JsonParser.Unescape` | crow/json.h:480-542 | the text is replaced in place by the bytes it stands for, the write position never passes the read position, nothing outside is touched, and a second call changes nothing |
| `JsonParser.CopyUnit` | crow/json.h:489-530 | one byte or escape is replaced by what it stands for, one to three bytes, at or before the place it was read from |
| `JsonParser.Growing.EmplaceBack` | crow/json.h:720-742 | appending keeps what is there, also when the array has to grow |
| `JsonParser.DenoteFrame` | crow/json.h:875-1259 | what a parsed value stands for depends only on its part of the buffer |
| `JsonParser.NumberLoaded` | crow/json.h:743-760 | a loaded value that stands for a printed integer is a number of that value and of the right type, signed exactly when it is negative |
| `JsonParser.Parser.DecodeString` | crow/json.h:902-960 | accepts exactly the strings of the grammar; ends them with a NUL in place, and the flag in the opening quote says whether there is an escape |
| `JsonParser.Parser.DecodeValue` | crow/json.h:1129-1181 | the recursive descent accepts exactly what the grammar does and gives a value that stands for the same document, touching nothing before it |
| `JsonParser.Parser.Parse` | crow/json.h:1246-1258 | the whole text is accepted exactly if the grammar accepts it, and the value in the overwritten buffer stands for its document |
| `JsonParser.DumpThenLoad` | crow/json.h:1260-1281 | printing a value and loading it into a buffer of its own gives the value back if it is nested at most 5000 deep, and an error otherwise |
| `Sessions.NextGood` | crow/middlewares/session.h:227-402 | every critical section of every request keeps the invariant: counts are the numbers of holders, cached sessions are out of the store, loads and saves alternate |
| `Sessions.Refines` | crow/middlewares/session.h:227-402 | one step with cache, moving store and counts is one step on a plain map from ids to contents |
| `Sessions.EveryRun` | crow/middlewares/session.h:227-402 | after every interleaving of requests that each enter once and leave once, the invariant holds, a cached session's count is the number of requests that hold it, and the contents of all sessions are those of all sets and removes applied in order to one map |
| `Sessions.SaveBetweenLoads` | crow/middlewares/session.h:440-463 | between two loads of one id there is a save of it |
| `Sessions.SeenIsLogical` | crow/middlewares/session.h:195-225 | a request that holds a stored session sees its contents, whoever else holds it |
| `Sessions.CleanIsUnchanged` | crow/middlewares/session.h:227-264 | a session in which nothing is marked dirty is as it was loaded |
| `SessionExits.ExitIsAfter` | crow/middlewares/session.h:366-402 | `after_handle`, as it acts on any context and any count, is the leaving step when the request is in flight |
| `SessionExits.KeptExactly` | crow/http_connection.h:112-145 | a step keeps counts, store and alternation if and only if it is an ordinary one, or a further exit on a context without a session, or a request handed over that holds no stored session |
| `SessionExits.EveryWideRun` | crow/http_connection.h:112-145 | after every run of such steps, further exits and hand-overs among them, the invariant holds, counts are numbers of holders, and the contents are those of one map |
| `SessionExits.ExitTwice` | crow/http_connection.h:112-122 | two requests share a session, one has left and its connection brings a request for which nothing is found: the held session leaves the cache, is saved a second time without a load, and its contents are lost |
| `SessionMiddleware.InMemoryStore.LoadEntries` | crow/middlewares/session.h:444-449 | loading moves the entries out of the store |
| `SessionMiddleware.Middleware.BeforeHandle` | crow/middlewares/session.h:327-363 | attaches a request to the cached session, to a loaded one or to none, as the step says |
| `SessionMiddleware.Middleware.SetValue` | crow/middlewares/session.h:227-236 | sets a value in the request's session, made on the spot if it has none, and marks the key dirty |
| `SessionMiddleware.Middleware.RemoveValue` | crow/middlewares/session.h:257-264 | removes a key of the request's session and marks it dirty |
| `SessionMiddleware.Middleware.GetValue` | crow/middlewares/session.h:207-225 | returns the value the session holds at that moment, or the fallback |
| `SessionMiddleware.Middleware.AfterHandle` | crow/middlewares/session.h:366-402 | the last request to leave saves the session and drops it from the cache; the cookie is set for a new session or on request, and else not |
| `WebSocketFrames.BuildHeader` | crow/websocket.h:297-318 | writes the two header bytes and the length in one of three encodings |
| `WebSocketFrames.MaskTwice` | crow/websocket.h:613-621 | unmasking undoes masking |
| `WebSocketFrames.FrameRoundTrip` | crow/websocket.h:354-595 | a frame, masked or not and with its length in any form that can hold it, is read back and leaves the rest of the stream; above the limit it is refused |
| `WebSocketFrames.HeaderRoundTrip` | crow/websocket.h:297-318 | a header that was built and a payload are read back with the same opcode and payload, in all three length encodings |
| `WebSocketReader.Connection.DoRead` | crow/websocket.h:354-595 | one round of the reading state machine, with any number of payload bytes: what it does and what is left do together what the whole stream does |
| `WebSocketReader.Connection.HandleFragment` | crow/websocket.h:613-711 | unmasks the payload and does what the frame's opcode and final flag ask |
| `WebSocketReader.Connection.Receive` | crow/websocket.h:354-595 | from any state, whatever has arrived is handled as if its frames had arrived whole; it stops in the middle of a frame and gives back what it could not use |
| `WebSocketReader.AbsorbMore` | crow/websocket.h:354-595 | reading may be interrupted anywhere and resumed with what was left |
| `WebSocketReader.Connection.ReceivePieces` | crow/websocket.h:354-595 | a stream that arrives in any pieces has the effect of the whole stream |
| `WebSocketMessages.WireAbsorbed` | crow/websocket.h:354-595 | reading a wire of encoded frames is handling the frames one after the other |
| `WebSocketMessages.Reassembled` | crow/websocket.h:613-711 | the message handler gets exactly the messages that were split into fragments, in order and with the right binary flag, and every ping is answered with its payload |
| `WebSocketMessages.ReadMessages` | crow/websocket.h:354-711 | the same from end to end, for any fragmentation, masking, interleaved control frames, and any cutting of the wire |
| `Sha1.RoundAgrees` | crow/TinySHA1.hpp:157-205 | a round in the code's form is the round of section 6.1.2 of FIPS 180-4 |
| `Sha1.SHA1.ProcessByte` | crow/TinySHA1.hpp:75-83 | one byte more: the digest state is the hash of all full blocks fed, the buffer holds the rest |
| `Sha1.SHA1.ProcessBytes` | crow/TinySHA1.hpp:84-97 | any piece is fed as its bytes, so feeding in pieces is feeding the whole |
| `Sha1.SHA1.ProcessBlock` | crow/TinySHA1.hpp:157-205 | the loops over the schedule and the 80 rounds compute the compression function |
| `Sha1.SHA1.GetDigest` | crow/TinySHA1.hpp:98-122 | from all 64 offsets it ends on a block boundary, and under 2^29 bytes the result is the digest of the standard |
| `Sha1.PaddingAgrees` | crow/TinySHA1.hpp:98-120 | the padding that is fed is that of section 5.1.1 of FIPS 180-4 if and only if the message is under 2^29 bytes |
| `Sha1.LongZeros` | crow/TinySHA1.hpp:98-120 | a run of zeros is padded otherwise than the standard says exactly from 2^29 bytes on |
| `Crc.MakeTable` | server.cpp:50-61 | every table entry is its index after eight bit steps |
| `Crc.BitStepLinear` | server.cpp:50-70 | a bit step is linear over exclusive or |
| `Crc.EightSteps` | server.cpp:63-70 | eight bit steps are a table look-up of the low byte and a shift of the rest |
| `Crc.TableCrc32` | server.cpp:63-70 | the table-driven checksum of every byte string is that of the reflected polynomial, bit by bit |
| `Zip.WriteLe32` | server.cpp:77-82 | appends the number, least significant byte first |
| `Zip.BuildZip` | server.cpp:93-161 | nothing if a file cannot be read; else local records with data, the central directory and the end record, with offsets, sizes and the checksums computed from the table |
| `Zip.EntryRead` | server.cpp:101-148 | a directory entry leads a reader to the local record, name, data and checksum of its file, and to the next entry |
| `Zip.ArchiveRoundTrip` | server.cpp:93-161 | a reader that starts at the end record recovers exactly the names, data and checksums, in order, whenever counts, names and sizes fit their fields |
| `Base64.SymbolsSpelled` | crow/utility.h:560-609 | the symbols are those of the two alphabets of RFC 4648 |
| `Base64.Encode` | crow/utility.h:560-594 | the encoder computes the specified text, of exactly ceil(n/3)*4 characters |
| `Base64.Decode` | crow/utility.h:611-684 | the decoder computes the specified bytes, and fails only where its size computation goes below zero |
| `Base64.OnlyLonePad` | crow/utility.h:611-640 | decoding throws for the text "=" and for no other |
| `Base64.SizeFits` | crow/utility.h:611-640 | the computed size is negative exactly for the text "=", and otherwise the decoder reads no character that is not there |
| `Base64.RoundTrip` | crow/utility.h:560-694 | decoding undoes encoding for every byte string, in both alphabets |
| `Base64.StrippedRoundTrip` | crow/utility.h:560-694 | also after the trailing padding is removed |
| `Csv.EscapeInServer` | server.cpp:171-181 | computes the escaped field |
| `Csv.EscapeInDatabase` | airdp.cpp:89-96 | computes the same escaped field |
| `Csv.ParseLine` | airdp.cpp:76-87 | cuts the line at the commas outside quotes and cleans every piece |
| `Csv.FieldCount` | airdp.cpp:76-87 | there is one field more than there are commas outside quotes |
| `Csv.RoundTrip` | airdp.cpp:62-96 | for every non-empty list of fields, parsing the comma-joined escaped fields gives exactly those fields, whatever they contain |
| `Multipart.Dump` | crow/multipart.h:97-128 | prints every part behind a delimiter, and the closing delimiter |
| `Multipart.FindName` | crow/multipart.h:34-50 | looks up the `name` parameter of the `Content-Disposition` header, whatever the case of its name |
| `Multipart.FromParts` | crow/multipart.h:131-144 | a message can be made from parts, each entered under its name, exactly if every part has a name |
| `Multipart.ParseBody` | crow/multipart.h:178-209 | ends, and gives the parts and their names, an exception, or the lookup of a name that is not there, as the recursive definition says |
| `Multipart.SectionBack` | crow/multipart.h:211-268 | a printed part is read back exactly if it has a header |
| `Multipart.DelimiterFound` | crow/multipart.h:185-193 | the first delimiter found behind a part is the one that was written there |
| `Multipart.RoundTrip` | crow/multipart.h:97-268 | the printed parts are read back, with headers, parameters, bodies and names, in order, if and only if every part has a name |
| `Multipart.UnnamedPart` | crow/multipart.h:198-201 | a part with a header but no name, which prints and parses, ends in the lookup that fails |
| `Routes.SearchRoutes` | airdp.cpp:237-251 | keeps, in order, exactly the routes one of whose codes contains the token in any case |
| `Routes.SearchLosesNothing` | server.cpp:399-405 | the search keeps every route that has the token for a code |
| `Routes.OneHops` | server.cpp:656-716 | the handler replies with an empty list, not found, or the connections sorted by miles, which are a permutation of the join |
| `Routes.OneHopsAreTheJoin` | server.cpp:656-716 | every connection appears exactly as often as there are pairs of routes without stops that make it through a known airport other than the destination |
| `Sorting.OneOrder` | server.cpp:413-416 | two orders of the same elements are the same sequence if different elements never tie |
| `Reports.CountAirports` | server.cpp:399-405 | after the search for the airline, the counts are those over all routes of the table |
| `Reports.CountAirlines` | server.cpp:476-482 | after the search for the airport, the counts are those over all routes of the table |
| `Reports.AirportsByRoutes` | server.cpp:399-460 | the rows are one for each counted airport, with its name, sorted |
| `Reports.AirlinesByRoutes` | server.cpp:476-494 | the rows are one for each counted airline, with its name, sorted |
| `Reports.AirportCount` | server.cpp:401-405 | an airport's count is the number of the airline's routes that leave it plus the number that arrive |
| `Reports.AirlineCount` | server.cpp:477-482 | an airline's count is the number of its routes at the airport, each once |
| `Reports.OneReport` | server.cpp:407-416 | the rows and their order do not depend on the order in which the hash map yields its keys |
| `Reports.ReportsAddUp` | server.cpp:399-494 | the counts of an airline's report add up to twice its routes, those of an airport's report to the routes at it |
| `Middleware.MiddlewareIndices.Pack` | crow/routing.h:68-73 | the indices become strictly increasing and stay the same set |
| `Middleware.Criteria.Enabled` | crow/middleware.h:282-328 | one comparison with the slider answers whether the list contains the index, asked for in increasing or decreasing order |
| `Middleware.DownIsUpReversed` | crow/middleware.h:175-200 | going down calls the same middlewares as going up, in the opposite order |
| `Middleware.UpIsTheList` | crow/middleware.h:282-305 | for packed indices going up calls exactly the listed middlewares, each once |
| `Middleware.Exchange.CallBefore` | crow/middleware.h:136-172 | before-handlers run up to the first that ends the response, and then the after-handlers of the same middlewares, last first |
| `Middleware.Exchange.CallAfter` | crow/middleware.h:174-200 | runs the after-handlers of the enabled middlewares, from the last to the first |
| `Middleware.Exchange.HandleRule` | crow/routing.h:1740-1776 | the rule's middlewares, its handler and their after-handlers, on both completion paths |
| `Middleware.BegunIsPrefix` | crow/middleware.h:136-172 | the before-handlers that run are the first ones of the list, all of them or up to the one that ends the response |
| `Middleware.Exchange.HandleFound` | crow/routing.h:1692-1738 | runs the rule, the catch-all or the redirect that was found, as the outcome says |
| `Middleware.Exchange.Handle` | crow/http_connection.h:136-213 | from the Host check to the after-handlers: an invalid request calls nothing, an upgraded one the global before-handlers, any other these and what was found |
| `Middleware.Exchange.Serve` | crow/http_connection.h:112-213 | a whole request calls what the specified run says, also if nothing is found for its URL |
| `Middleware.RoutedBracketed` | crow/http_connection.h:183-231 | a request that is passed on to a rule, a catch-all or a redirect runs the after-handlers of exactly the middlewares whose before-handlers ran, last first; a handler runs exactly if there is one and no before-handler ends the response |
| `Middleware.RequestBracketed` | crow/http_connection.h:112-231 | for every request: before- and after-handlers nest if and only if there is no global middleware, or something was found and the request is not upgraded, or it is upgraded and a before-handler ends the response |
| `Middleware.OptionsUnbracketed` | crow/routing.h:1569-1647 | an OPTIONS request, whatever is routed, runs the after-handler of the one global middleware and no before-handler |

## Left out

- Foreign code and I/O: sockets, TLS, the event loop, logging, clocks, compression, file access. What
  a socket, a file or a distance computation yields is a parameter.
- HTTP: `qs_point`, which is measured from a mark of one call; what happens after the first complete
  message, when the parser is cleared; responses; the `upgrade` hand-over. Buffers are under 2^31 bytes.
  Callbacks only record: `handle_url`, which runs inside the URL callback, ends the parse with an error
  when nothing is found for the URL (crow/http_connection.h:112-122), and runs once for every piece of
  a URL that arrives in several buffers.
- HttpSplits.AnyTwoCuts: does not model cuts between an "h" and a "2", because there the code does depend on
  the cut; `HttpSplits.CutNoticed` says exactly when.
- HttpParser.HTTPParser.Execute: does not model the fields after an error, because the inner loops stop at
  another byte than the reference when the header block is too large.
- A header whose value is empty is dropped by the request unless it is the last one; the model follows
  the code in this (crow/parser.h:41-58) and nothing is claimed about it.
- Routing: blueprints, the narrowing of rule indices to 16 bits, method fall-backs, trailing-slash
  redirects. Which text a numeric parameter takes is modelled; the conversion of floating-point
  parameters is a function given to the model.
- MustacheParse.Parse: does not model templates with a delimiter change ("{{="), because the tag is treated as
  one that cannot be read, where the code goes on with the new delimiters.
- Mustache at rendering: partials, lambdas and dotted tag names.
- JSON: fractions and exponents, the accessors of values, `operator<<` on a parsed value.
- Sessions: the file store, expiration, exceptions thrown by a store, `apply`, `string`, `contains` and the
  listing of keys. Generated ids are assumed to be new. Each access is one atomic step, also the ones that
  take no lock.
- Sessions.EveryRun: does not model exits without an entry and entries without an exit, because the claim fails
  for them; `SessionExits.KeptExactly` says exactly when, and `SessionExits.EveryWideRun` covers the rest.
- SessionMiddleware.Middleware.GetValue: does not model the conversion to the type of the fallback, because
  values are kept as they were set.
- WebSocket: the order of writes, how often the close handler runs, short reads of a header (they are
  waited for), and the extension bits of a frame, which the code ignores.
- Multipart.RoundTrip: does not model several `Content-Disposition` headers in one part faithfully, because
  which of them a hash map finds is not specified; the model takes the first that is listed.
- Multipart: the extraction of the boundary from a header.
- ZIP beyond the 16- and 32-bit fields: `Zip.BuildZip` follows the code in cutting the numbers, but only
  archives that fit are claimed to be readable.
- Reports and routes: counts do not overflow; the JSON and CSV forms of the rows; the order of
  connections of equal length.
- Middleware: responses that are never ended, exceptions in handlers, and what an upgraded connection does
  with the request it takes over. A before-handler is what it does to the response, decided by everything
  called before.
- The server's pages, lookups by name and country, loaders of the data files, and the source viewer
  would only add easy members.
