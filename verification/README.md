# The protocol core of the web server, modelled and proved in Dafny

The project models the byte-level heart of the server in Dafny: the two incremental HTTP parsers and
the printers that go with them, the connection that reuses one parser for many requests, the
configuration parser and the dispatcher that depends on its tables, and the path, form, echo and blog
code whose results have to agree with each other. It proves what these parts promise one another:
round trips, independence from how bytes are cut, invariants over every run, and end-to-end
statements that cross several components.

`dafny verify dfyconfig.toml` checks everything.

## How it is built

Code that updates objects and loops is imperative Dafny: classes with the same fields, methods with
loops and invariants. Each method is proved against a function of the old state (`Step`, `Run`,
`Recognize`, `Observe`, `Unescape`, `PairsOf`, ...), and the promises are lemmas about those functions.

| files | part of the server |
|---|---|
| `Text`, `Headers` | bytes, character classes, `stoi` and `to_string`, `std::map` as its sorted sequence, what Content-Length headers declare |
| `MessageLines`, `Requests`, `RequestParser`, `RequestSplitting`, `RequestInvariant`, `RequestRoundTrip`, `RequestGrammar` | request builder and printer, the 21-state parser, its invariant, its round trips, and the exact language it accepts |
| `Session`, `SessionRequests` | reads, dispatch and reset on one connection |
| `Responses`, `ResponseParser`, `ResponseSplitting`, `ChunkedCoding`, `ResponseRoundTrip`, `ResponseGrammar`, `Pages`, `Forwarding` | serialiser, the 28-state parser with chunked decoding, the exact language it accepts, the read loop, pages on the wire, what the proxy sends on |
| `ConfigLexer`, `ConfigGrammar`, `ConfigText`, `ConfigExtraction`, `ConfigParser`, `ConfigAwaits`, `ConfigProperties`, `ConfigComments` | tokenizer and layouts, recognizer with its two stacks, flag machine, the parse loop, the one way it fails, what comments do |
| `ConfigDeclarations`, `ConfigSteps`, `ConfigTables`, `ConfigTrees`, `ConfigRouting`, `ConfigFiles` | what a configuration means: from declarations in any layout to tables, tree and registered handlers |
| `StaticPaths`, `Dispatcher` | unescaping, the two path loops, registration and choice of handlers |
| `Forms`, `Blogs`, `BlogDelivery`, `Echo` | form decoding, the blog handler over the mock database, its answers on the wire, the echo handler |

## Main results

1. **Sessions** (`SessionFollows`, `KeepAliveSession`, `OpenAfterRequest`): for all reads, what a connection does is said
   by the language of requests alone: the first reads that are a request are answered with it, the connection then
   closes or goes on with the reads that are left, and without such reads it waits or is closed as bad. Requests
   sent one after another and cut into reads anywhere are all dispatched, in order and without a 400, if and only
   if each ends where a read ends. A connection stays open if and only if some header is, in small letters,
   `connection: keep-alive`. It rests on the parser invariant: `reset()` keeps `contentsize_`, which is safe only
   because every good answer leaves it 0.
2. **Requests** (`AcceptsExactlyMessages`, `RequestRoundTrip`, `NormalisationIsStable`): the parser accepts exactly the
   messages of a grammar written out in `RequestGrammar`, with continued lines, repeated lengths and leading zeros,
   and fills the builder each one describes. A printed request parses back to itself if and only if it is well formed
   and its headers declare its body. Whatever the parser accepts and the builder builds is well formed; it survives
   printing and parsing again if and only if the built header map still declares the body. `NormalisationCanFail`
   gives a request where it does not.
3. **Responses** (`ReadsExactlyResponses`, `ResponseRoundTrip`, `ChunkedResponseRead`, `ChunkedDecoding`): for all reads, the
   read loop returns a response if and only if some first reads are a response of the grammar in `ResponseGrammar`,
   and then the one that the shortest of them describe. It returns what was serialised, for every cut into reads
   and every content of the uninitialised counters, if and only if the headers declare the body; the chunked
   decoder accepts exactly the chunked codings, with sizes in small or capital hexadecimal digits (`HexRoundTrip`).
4. **Proxy** (`FinishCases`, `SentOnIsRead`, `ChunkedIsNotSentOn`): which responses are followed, rewritten and sent on, from
   the code and the Content-Type. Of what is sent on, a client reads back the responses that announce no chunked
   coding and declare their body, and no others.
5. **Configuration grammar** (`AcceptsExactlyTheGrammar`, `ParseAccepts`, `ParseAcceptsGrammar`, `TokensOfLayout`): the
   tokenizer reads every layout of tokens, blanks, line ends and comments as its tokens; the two-stack recognizer
   accepts exactly the nested grammar and builds the one tree it has. A text in the grammar fails in one way
   only: some token is read as the port of a proxy and is no port number. Such a token stands right after a word
   `port` and somewhere after a word `ProxyHandler`, so a text whose ports after such a word are port numbers is
   accepted if and only if it is in the grammar.
6. **Configuration meaning** (`DeclaredTables`, `DeclaredTree`, `ConfiguredRoutes`, `FileRoutes`, `CommentsChangeNothing`): any
   list of declarations, in any layout without a comment right after a word that asks for a value, is accepted; the
   tables hold what was declared; the dispatcher registers exactly the declared paths, each with the handler its
   declaration asks for. A comment changes nothing if and
   only if no value is awaited where it stands (`CommentIsHarmless`).
7. **Routing** (`ChoiceIsBest`, `RequestDispatcher.GetHandler`, `NoNullHandler`, `RequestDispatcher.StaticFile`,
   `EveryUriIsRouted`): the handler chosen is a match of the first rank; for every configuration text whose blogs
   have their four fields and every uri it is not null, even when a location is in several tables; and the two
   path loops agree on the file that is opened.
8. **Blog** (`GetAnswers`, `ReadYourWrites`, `PostThenRead`, `PrefixListsPosts`, `FormPostedIsShown`): what every GET is
   answered with; over any history of requests, a GET of the Location that answered a POST shows what that POST
   stored, exactly when the prefix does not end in "/", and the same by way of the wire; the prefix lists every
   post in order; what was typed into the form is shown exactly when it holds no "=" and no "&".
9. **Echo** (`EchoRoundTrip`): bytes the server accepts come back to the client as a body that parses to the request the
   server built, exactly when its method is GET, POST or DELETE and its header map declares its body.

## Where the code differs from what one would expect

The model follows the code in each of these.

- With a nonzero length, any byte is accepted in place of the line feed that ends the request head
  (`src/request_parser.cc:235-241`).
- A continued header line loses its leading blanks, where section 3.2.4 of RFC 7230 asks for one space
  (`src/request_parser.cc:173-185`).
- Two Content-Length headers in different spellings are both kept by the header map, in its own order;
  printing may turn them around (`NormalisationCanFail`).
- Every status code but 200, 302, 400 and 404 is serialised as 400 (`ShownCode`).
- A carriage return does not end a bare configuration word (`src/NginxConfigParser.cc:127-128`).
- The flag machine looks at comments too, so a comment right after a word that asks for a value is read as the
  value: with a comment between `port` and its number the port is the number after the first colon of the comment,
  or stays unset (`CommentTakesPort`, `CommentIsHarmless`; `src/NginxConfigParser.cc:237-240`).
- Of a proxy's port with a colon in it, the number after the colon is checked and the number before it is stored
  (`ProxyPortWithColon`; `src/NginxConfigParser.cc:243-247`).
- Only the root of a static location loses its quotes in the statement tree (`DeclaredTree`).
- The list of handler types also collects the tokens between a handler type and the value that ends its
  block: braces, keywords, values (`src/NginxConfigParser.cc:320-324`). The dispatcher skips names it does not
  know. `DeclaredTables` leaves the list out; `TablesConsistent` says what routing needs of it.
- The echo handler leaves out the method for five of the eight methods, and such an echo is never a
  request (`EchoesExactly`, `NamelessIsBad`).
- A proxy port that is no port number ends the configuration parse with an exception or without a
  return value (`src/NginxConfigParser.cc:154-172`, `src/NginxConfigParser.cc:242-252`); nothing else can make a text of the grammar fail
  (`FailsOnlyOnPorts`).
- The proxy decodes a chunked body and leaves `Transfer-Encoding: chunked` in the header map, so a client
  never reads back such a response unless it is a page that the proxy rewrites (`ChunkedIsNotSentOn`).
- With a prefix that ends in "/", the blog handler drops the first digit of the id (`SlashLosesPost`).
- The blog handler looks for the uri in the prefix, not the prefix in the uri: it also lists all posts for the prefix
  without its first byte but with a "/" behind it (`GetAnswers`; `src/blog_upload_request_handler.cc:56-58`).
- The form decoder undoes escapes before it splits pairs, so an escaped separator is a separator
  (`SeparatorsAreLost`, `FormRoundTrip`).

## Model

| member | source | states |
|---|---|---|
| `Text.DecimalRoundTrip` | include/request_builder.h:61 | the digits `to_string` prints stand for the number they were printed from |
| `Text.StoiOfDecimal` | src/request_parser.cc:208-209 | `stoi` gives a printed number back exactly when it is at most the largest int |
| `Text.DecimalOfValue` | include/request_builder.h:61 | every text of digits without a leading zero is what `to_string` prints of its number |
| `Text.StoiReads` | src/request_parser.cc:208-209 | what `stoi` makes of blanks, a sign, digits and a rest: the signed number, or an exception without digits and outside the range of an int |
| `Text.HexRoundTrip` | src/response_parser.cc:282 | a number printed by repeated division by 16, in small or capital digits, is the number read back |
| `Text.HexIsValue` | src/response_parser.cc:282 | every run of hexadecimal digits is some zeros and the printed form of the number it is read as |
| `Text.SameInLowerCase` | src/request_parser.cc:203-217 | `strcasecmp` finds equal exactly the texts that are the same in small letters |
| `Text.TokenChars` | src/request_parser.cc:256-280 | the characters of a name as a positive list: letters, digits, fifteen marks, and no byte from 128 on |
| `Text.ValueChars` | src/request_parser.cc:261-263 | the bytes of a value: blanks, printable characters and every byte from 128 on |
| `Headers.CollectLastWins` | include/request_builder.h:63-66 | the header map is sorted and holds for every name the value of the last header of that name |
| `Headers.CollectKeepsDeclared` | src/request_parser.cc:203-221 | with one spelling of Content-Length, collecting the headers into a map keeps the length they declare |
| `Headers.LengthName` | src/request_parser.cc:203-206 | a length is declared under the name content-length in any mixture of letters, and no other |
| `Headers.KeepAliveHeader` | src/request_parser.cc:215-219 | a header keeps the connection exactly when it is connection: keep-alive in small letters |
| `Headers.ChunkedHeader` | src/response_parser.cc:218-222 | a header announces a chunked body exactly when it is transfer-encoding: chunked in small letters |
| `Requests.RequestBuilder.BuildRequest` | include/request_builder.h:41-70 | the loop over the header list builds the request of the builder's fields |
| `Requests.PrintRequest` | src/proxy_request_handler.cc:75-108 | the printer's loop produces the text that the round-trip lemmas are about |
| `Requests.MethodWords` | include/request_builder.h:41-60 | the eight names that are methods, each of its own, and no other name is one |
| `RequestParsing.RequestParser.Reset` | src/request_parser.cc:34-36 | only the state is set back; the remaining length stays |
| `RequestParsing.RequestParser.FinishValue` | src/request_parser.cc:203-221 | the end of a header value: length, keep-alive flag, or bad when `stoi` or `reserve` throws |
| `RequestParsing.RequestParser.ConsumeTarget` | src/request_parser.cc:50-77 | one byte in the method or the uri |
| `RequestParsing.RequestParser.ConsumeVersion` | src/request_parser.cc:78-157 | one byte in the version, with the decimal numbers built up digit by digit |
| `RequestParsing.RequestParser.ConsumeHeader` | src/request_parser.cc:158-234 | one byte in the headers, continued lines included |
| `RequestParsing.RequestParser.ConsumeBody` | src/request_parser.cc:235-248 | one byte at the end of the head or in the body, with the countdown |
| `RequestParsing.RequestParser.Consume` | src/request_parser.cc:47-254 | the method with all states takes the machine of parser and builder one step |
| `RequestParsing.RequestParser.Parse` | include/request_parser.h:43-59 | the loop is the run over the bytes; good with bytes left over becomes bad; says how many bytes were taken |
| `RequestSplitting.SplitAnywhere` | include/request_parser.h:43-59 | one run over a + b is the run over b continued from a; bad on a is bad at the same byte; good on a is bad on a + b for nonempty b |
| `RequestSplitting.CutsDoNotMatter` | include/request_parser.h:43-59 | reads of one text, however cut, lead to the same machine, position and result as the whole text, but for good with bytes of later reads left over, which the whole text makes bad |
| `RequestInvariant.StepKeepsInv` | src/request_parser.cc:47-254 | every byte keeps the invariant: length never negative, positive inside a body and equal to what is missing of it; good leaves it 0 |
| `RequestInvariant.RunKeepsInv` | src/request_parser.cc:30-36 | the same for every run, so that `reset()` after good restores the constructor's state |
| `RequestRoundTrip.PrintedRuns` | src/request_parser.cc:47-254 | a printed well-formed request is accepted, at its last byte, exactly when its headers declare its body |
| `RequestRoundTrip.RequestRoundTrip` | src/proxy_request_handler.cc:75-108 | print, parse, build gives the same request exactly for well-formed requests that declare their body |
| `RequestRoundTrip.AcceptedIsWellFormed` | src/request_parser.cc:47-254 | every request built from accepted bytes is well formed |
| `RequestRoundTrip.NormalisationIsStable` | include/request_builder.h:41-70 | an accepted request survives printing and parsing exactly when its header map declares its body; one spelling of Content-Length is enough |
| `RequestRoundTrip.NormalisationCanFail` | src/request_parser.cc:203-214 | a concrete accepted request with two spellings whose header map declares another length |
| `RequestGrammar.MessageIsAccepted` | src/request_parser.cc:47-254 | every message of the grammar is accepted at its last byte and leaves the builder it describes: continued lines, repeated lengths, leading zeros, any byte for the last line feed of a head with a body |
| `RequestGrammar.AcceptsExactlyMessages` | src/request_parser.cc:47-254 | a text is accepted exactly when it is a message of the grammar |
| `Sessions.Session.HandleRead` | src/session.cc:59-113 | one read: dispatch, 400 or read on; a kept-alive connection gets a reset parser and a new builder, every other one is closed after its answer |
| `Sessions.KeepAliveSession` | src/session.cc:59-113 | all requests of a connection are dispatched in order without a 400 exactly when each ends with a read; otherwise the log is cut short by a 400 |
| `Sessions.OpenAfterRequest` | src/session.cc:80-95 | after a request that declares its body, in any reads, the connection is open exactly when some header is connection: keep-alive in small letters |
| `SessionRequests.SessionFollows` | src/session.cc:59-113 | for all reads: the first reads that are a message are answered with the request it describes, the rest goes on or is ignored as its keep-alive header says, and without such reads the connection waits or has been closed with one 400 |
| `Responses.ResponseBuilder.BuildResponse` | include/response_builder.h:39-50 | the loop over the header list builds the response of the builder's fields |
| `Responses.ToBuffers` | src/response_helper_library.cc:53-67 | the loop produces the buffers whose bytes the round trip is about |
| `Responses.StatusLines` | src/response_helper_library.cc:31-45 | the four status lines letter by letter, and the one that every other code gets |
| `Responses.PageHeadersAre` | src/echo_request_handler.cc:85-88 | the two headers every page gets, in the order of the map |
| `Pages.PageBytes` | src/response_helper_library.cc:53-67 | the bytes of a page on the wire, letter by letter around its length, type and body |
| `Pages.PageDelivered` | src/response_helper_library.cc:53-67 | a page reaches the client as it was built, in whatever reads, exactly when its length is an int |
| `ResponseParsing.ResponseParser.FinishValue` | src/response_parser.cc:207-231 | the end of a header value: length, chunked and keep-alive flags, or bad when `stoi` or `reserve` throws |
| `ResponseParsing.ResponseParser.ConsumeProtocol` | src/response_parser.cc:41-77 | one byte in the name of the protocol |
| `ResponseParsing.ResponseParser.ConsumeNumbers` | src/response_parser.cc:78-113 | one byte in the version numbers, built up digit by digit |
| `ResponseParsing.ResponseParser.ConsumeVersion` | src/response_parser.cc:41-113 | one byte in the version |
| `ResponseParsing.ResponseParser.ConsumeStatus` | src/response_parser.cc:114-161 | one byte in the status code or the reason phrase |
| `ResponseParsing.ResponseParser.ConsumeHeader` | src/response_parser.cc:162-244 | one byte in the headers, with length and chunked flag |
| `ResponseParsing.ResponseParser.ConsumeBody` | src/response_parser.cc:245-264 | one byte at the end of the head or in a counted body |
| `ResponseParsing.ResponseParser.ConsumeChunk` | src/response_parser.cc:265-315 | one byte of a chunked body: size in base 16, data countdown through 0 to -1, line ends |
| `ResponseParsing.ResponseParser.Consume` | src/response_parser.cc:38-319 | the method with all states takes the machine of parser and builder one step |
| `ResponseParsing.ResponseParser.Parse` | include/response_parser.h:39-52 | the loop is the run over the bytes; it stops at bad or at the final chunk |
| `ResponseParsing.ReadResponse` | src/proxy_request_handler.cc:173-204 | the read loop over a list of reads; no response when a read answers bad or the reads end |
| `ResponseSplitting.SplitAnywhere` | include/response_parser.h:39-52 | one run over a + b is the run over b continued from a; bad or a final chunk in a ends it at the same byte |
| `ChunkedCoding.CodingRuns` | src/response_parser.cc:265-315 | from a chunk size on, a coding is consumed chunk by chunk and adds its payload, whatever bytes the payload holds |
| `ChunkedCoding.ChunkedDecoding` | src/response_parser.cc:265-315 | good at the end of s exactly when s is a chunked coding with sizes that fit an int, and the body grew by its payload |
| `ChunkedCoding.GoodEndsACoding` | include/response_parser.h:47-49 | a good answer always ends a coding, whatever follows in the same read |
| `ChunkedCoding.HexCodedIsCoding` | src/response_parser.cc:265-315 | pieces of a body, each behind its length in hexadecimal digits, small or capital, are a coding of that body |
| `ResponseRoundTrip.ReasonChars` | src/response_parser.cc:145-155 | the bytes of a reason phrase: blanks and the characters of names |
| `ResponseRoundTrip.ResponseRoundTrip` | src/response_helper_library.cc:31-67 | the read loop returns a serialised response, with the code that was shown, exactly when its headers declare its body, for all cuts and all uninitialised counters |
| `ResponseRoundTrip.ChunkedResponse` | src/proxy_request_handler.cc:173-204 | a response with a chunked body is read as its payload, whatever the reads and whatever follows |
| `ResponseRoundTrip.HexChunkedResponse` | src/proxy_request_handler.cc:173-204 | a response sent in such pieces is read back whole |
| `ResponseRoundTrip.ChunkedResponseRead` | src/proxy_request_handler.cc:173-204 | with a chunked header the loop returns a response exactly when the headers declare lengths and some first part of the body is a coding, and then its payload |
| `ResponseGrammar.AcceptsExactlyResponses` | src/response_parser.cc:38-319 | a text is accepted exactly when it is a response of the grammar, any version, codes 100 to 599, continued lines and an unset length included, and the response built is the one it describes |
| `ResponseGrammar.ReadsExactlyResponses` | src/proxy_request_handler.cc:173-204 | for all reads the loop returns a response exactly when some first reads are one, and it is the one the shortest of them describe |
| `Forwarding.FinishProxied` | src/proxy_request_handler.cc:343-394 | follow a redirect, rewrite a page, or send the response on with a Content-Type in its map |
| `Forwarding.FinishCases` | src/proxy_request_handler.cc:343-394 | codes 301 and 302 and no others are followed, to the value of Location; of the rest a Content-Type with text/html in it is rewritten, and everything else is sent on, with an empty Content-Type when it had none |
| `Forwarding.ReadIsPrintable` | src/response_parser.cc:162-237 | whatever bytes were read, the headers of the response are a sorted map of headers that can be sent |
| `Forwarding.SentOnIsRead` | src/proxy_request_handler.cc:387-394 | a response read with another code than 301 and 302 and without text/html in a Content-Type is sent on, and the client reads it back exactly when no header announces a chunked coding and the headers declare the body |
| `Forwarding.ChunkedIsNotSentOn` | src/proxy_request_handler.cc:387-394 | a chunked response that is no redirect and no page is sent on and never arrives; something is read exactly when its payload starts with a coding |
| `ConfigLexer.InputStream.Get` | src/NginxConfigParser.cc:69-73 | reading one character, and the end of the stream |
| `ConfigLexer.InputStream.Unget` | src/NginxConfigParser.cc:129 | the last character is there again |
| `ConfigLexer.ParseToken` | src/NginxConfigParser.cc:66-144 | the loop with unget returns the next token and leaves the rest of the input |
| `ConfigLexer.NextProgress` | src/NginxConfigParser.cc:126-131 | every token but the last takes at least one byte in spite of the unget; the last leaves nothing |
| `ConfigGrammar.RecognizeKeepsValid` | src/NginxConfigParser.cc:399-458 | the config stack stays one deeper than the bracket stack and never underflows |
| `ConfigGrammar.RunSound` | src/NginxConfigParser.cc:399-472 | what was accepted is the text of the tree that was built |
| `ConfigGrammar.AcceptsExactlyTheGrammar` | src/NginxConfigParser.cc:387-472 | accepted exactly when the tokens without comments are in the grammar, and the tree is the only one with that text |
| `ConfigText.TokensOfLayout` | src/NginxConfigParser.cc:66-144 | tokens, blanks of every kind and comments in any order that keeps bare words apart are read as the tokens and comments |
| `ConfigText.CommentIsRead` | src/NginxConfigParser.cc:120-125 | a comment goes up to the next line feed or carriage return, and no further |
| `ConfigText.TokensOfWritten` | src/NginxConfigParser.cc:66-144 | in particular tokens written with blanks between them |
| `ConfigText.TokensOfSpelled` | src/NginxConfigParser.cc:66-144 | any text that is such a layout of some tokens gives back those tokens, comments aside |
| `ConfigText.SpelledIsAccepted` | src/NginxConfigParser.cc:399-458 | a tree of bare and quoted words, in any layout, is accepted by the recognizer and rebuilt |
| `ConfigText.TextAccepted` | src/NginxConfigParser.cc:387-472 | the same equivalence for every input text, an unclosed quote being rejected |
| `ConfigExtraction.ObserveKeepsInv` | src/NginxConfigParser.cc:237-385 | every token keeps: no handler type twice, and the type of every recorded location listed |
| `ConfigExtraction.CloseBlockKeepsInv` | src/NginxConfigParser.cc:440-456 | a closing brace keeps the same |
| `ConfigExtraction.WordsRaise` | src/NginxConfigParser.cc:365-385 | which value each of the six words asks for, by what the handler before it expects, and that no other word asks for one |
| `ConfigExtraction.ProxyHostEnds` | src/NginxConfigParser.cc:268-275 | after the host of a proxy the next word port asks for the proxy's port, and neither a host nor a handler type is expected |
| `ConfigExtraction.RedirectHostEnds` | src/NginxConfigParser.cc:276-287 | after the host of a redirect no word asks for a value of that block any more |
| `ConfigExtraction.RootEnds` | src/NginxConfigParser.cc:256-267 | after a static root no second one is taken, and the location is done |
| `ConfigExtraction.PortsRead` | src/NginxConfigParser.cc:515-535 | a port is a number up to 65535, alone or after the first colon; any other number changes nothing |
| `ConfigExtraction.ProxyPortWithColon` | src/NginxConfigParser.cc:242-255 | of a proxy's port a:b the number b is checked against 65535 and the number a is stored |
| `ConfigParsing.LocationScanner.TakePort` | src/NginxConfigParser.cc:237-241 | the port token is saved when it is a port number, alone or after a colon |
| `ConfigParsing.LocationScanner.TakeProxyPort` | src/NginxConfigParser.cc:242-255 | the proxy entry, an exception, or a missing return |
| `ConfigParsing.LocationScanner.TakeRoot` | src/NginxConfigParser.cc:256-267 | the static entry; the token itself loses its quotes |
| `ConfigParsing.LocationScanner.TakeProxyHost` | src/NginxConfigParser.cc:268-275 | the host of a proxy; its port is awaited next |
| `ConfigParsing.LocationScanner.TakeRedirectHost` | src/NginxConfigParser.cc:276-287 | the host of a redirect |
| `ConfigParsing.LocationScanner.TakeBlogAddress` | src/NginxConfigParser.cc:288-303 | address and port of a blog |
| `ConfigParsing.LocationScanner.TakeBlogAccount` | src/NginxConfigParser.cc:304-319 | user name and password of a blog |
| `ConfigParsing.LocationScanner.TakeHandler` | src/NginxConfigParser.cc:320-358 | the handler type is listed once, and its location recorded or its values awaited |
| `ConfigParsing.LocationScanner.TakeLocation` | src/NginxConfigParser.cc:359-363 | the path of a location |
| `ConfigParsing.LocationScanner.SetFlags` | src/NginxConfigParser.cc:365-385 | the keyword raises the flag for the next token |
| `ConfigParsing.LocationScanner.Take` | src/NginxConfigParser.cc:237-385 | all of that for one token |
| `ConfigParsing.LocationScanner.ClearFlags` | src/NginxConfigParser.cc:440-456 | a closing brace clears every flag |
| `ConfigParsing.TreeBuilder.Feed` | src/NginxConfigParser.cc:387-472 | one token on the two stacks: go on, accept or reject |
| `ConfigParsing.Parse` | src/NginxConfigParser.cc:184-473 | the loop over the stream ends on every input with the outcome of the parse function |
| `ConfigAwaits.RunAwaitsOne` | src/NginxConfigParser.cc:237-385 | after any tokens at most one flag that asks for the next token is raised |
| `ConfigAwaits.AwaitsAfter` | src/NginxConfigParser.cc:365-385 | between statements no value is awaited |
| `ConfigAwaits.FailsOnlyAsPort` | src/NginxConfigParser.cc:242-252 | a token makes the extraction fail exactly when it is read as the port of a proxy and is no port number |
| `ConfigAwaits.FailsOnlyOnPorts` | src/NginxConfigParser.cc:237-385 | the same for the tokens of a whole text of the grammar |
| `ConfigAwaits.MissedPortIsAfterProxy` | src/NginxConfigParser.cc:365-385 | such a token stands right after a word `port`, after some word `ProxyHandler` |
| `ConfigProperties.ParsedTablesConsistent` | src/NginxConfigParser.cc:237-385 | for every input text, accepted or rejected, the tables are what routing relies on |
| `ConfigProperties.ParseIsRecognition` | src/NginxConfigParser.cc:184-473 | the loop accepts exactly when the recognizer accepts the tokens as the extraction passes them on |
| `ConfigProperties.KindsDecide` | src/NginxConfigParser.cc:387-472 | the verdict depends on the kinds of the tokens only |
| `ConfigProperties.ParseAccepts` | src/NginxConfigParser.cc:184-473 | accepted exactly when the text is in the grammar and no token read as the port of a proxy is anything but a port number |
| `ConfigProperties.ParseAcceptsGrammar` | src/NginxConfigParser.cc:184-473 | when what follows a word `port` after a word `ProxyHandler` is a port number, accepted exactly when in the grammar |
| `ConfigProperties.ConfigRoundTrip` | src/NginxConfigParser.cc:66-144 | any tree of writable words without the bare word `location`, in any layout with comments anywhere, is parsed and rebuilt |
| `ConfigProperties.RootlessRoundTrip` | src/NginxConfigParser.cc:256-258 | without the bare word `root`, a tree in any layout is rebuilt exactly when no token read as the port of a proxy is anything but a port number |
| `ConfigComments.CommentIsHarmless` | src/NginxConfigParser.cc:237-385 | a comment leaves the flag machine as it was, but for the list of handler types, exactly when no value is awaited |
| `ConfigComments.CommentsChangeNothing` | src/NginxConfigParser.cc:184-473 | comments that stand after no word that asks for a value change neither verdict nor tree nor tables but that list |
| `ConfigComments.SameWithoutComments` | src/NginxConfigParser.cc:184-473 | two such layouts of the same tokens give the same verdict, tree and tables |
| `ConfigTables.DeclaredTables` | src/NginxConfigParser.cc:184-473 | declarations in any layout, with comments anywhere but right after a word that asks for a value, are accepted and the tables hold exactly what was declared |
| `ConfigTrees.DeclaredTree` | src/NginxConfigParser.cc:256-258 | the tree of such declarations has every root unquoted, and is the written one exactly when there is no static handler |
| `ConfigRouting.ConfiguredRoutes` | src/request_dispatcher.cc:48-125 | from text in any layout to handlers: for declarations with distinct paths exactly those paths are registered, each with the handler asked for |
| `ConfigRouting.EveryUriIsRouted` | src/request_dispatcher.cc:134-196 | whatever the uri, the location looked up is a declared one and gets its declaration's handler |
| `ConfigRouting.NoNullHandler` | src/request_dispatcher.cc:134-196 | for every text, accepted or rejected, with complete blogs, and every uri: the location looked up has a handler that is not null |
| `ConfigFiles.FileConfigures` | config:1-44 | a file written letter by letter, declarations and comment lines, is a layout of its declarations, with every keyword and handler type by its name |
| `ConfigFiles.FileRoutes` | src/request_dispatcher.cc:48-125 | from such a file to the registered handlers |
| `ConfigFiles.CommentTakesPort` | src/NginxConfigParser.cc:237-240 | for every comment and number: a comment between `port` and the number is read as the port, which stays unset when the comment holds no colon |
| `StaticPaths.ReplaceEscaped` | src/request_dispatcher.cc:136-143 | the in-place loop is the one-pass replacement, and terminates |
| `StaticPaths.UnescapeJoined` | src/request_dispatcher.cc:136-143 | of the pieces between the "%20"s nothing changes, and a blank stands in the place of each |
| `StaticPaths.SplitAtEscapes` | src/request_dispatcher.cc:136-143 | every uri is made of such pieces |
| `StaticPaths.UnescapedHasNone` | src/request_dispatcher.cc:136-143 | no "%20" is left |
| `StaticPaths.UnescapeIdempotent` | src/static_request_handler.cc:100-108 | unescaping twice changes nothing more |
| `StaticPaths.LongestPrefixMatch` | src/request_dispatcher.cc:219-233 | the longest nonempty location that is the uri or ends just before a "/" of it; empty when there is none |
| `StaticPaths.SplitAtLocation` | src/static_request_handler.cc:111-127 | the handler's own loop stops at its location and keeps the rest |
| `StaticPaths.FileName` | src/static_request_handler.cc:95-133 | the file opened is the root followed by the rest of the unescaped uri after the location, or after its first part when it is outside the location |
| `Dispatching.RegistersAllLocations` | src/request_dispatcher.cc:48-125 | the dispatcher's keys are exactly the union of the location tables |
| `Dispatching.DisjointKeepsKind` | src/request_dispatcher.cc:48-125 | with disjoint tables a location keeps the handler of its own type, with the values of its table |
| `Dispatching.LastTypeWins` | src/request_dispatcher.cc:48-125 | a location in several tables gets the handler of the type listed last |
| `Dispatching.ChoiceIsBest` | src/request_dispatcher.cc:134-196 | a location is chosen exactly when it is a match of the first rank (echo, static, exact, proxy, blog) and among static ones a longest; the 404 handler exactly when nothing matches |
| `Dispatching.ChosenIsRegistered` | src/request_dispatcher.cc:145-190 | whatever location is chosen was registered with a handler that is not null, overlapping tables included |
| `Dispatching.ChosenKind` | src/request_dispatcher.cc:145-190 | with disjoint tables the handler is of the matched kind |
| `Dispatching.FindPrefix` | src/request_dispatcher.cc:162-184 | some key that is a prefix of the uri, or none when there is none, in any order of the map |
| `Dispatching.RequestDispatcher.RegisterType` | src/request_dispatcher.cc:53-110 | the entries of one handler type; false exactly when a lookup throws |
| `Dispatching.RequestDispatcher.CreateHandlerMapping` | src/request_dispatcher.cc:48-125 | the map of all listed types; fails exactly when a listed blog lacks a field |
| `Dispatching.RequestDispatcher.At` | src/request_dispatcher.cc:148-159 | a lookup that inserts a null handler for an unknown key |
| `Dispatching.RequestDispatcher.GetHandler` | src/request_dispatcher.cc:134-190 | the declarative priority: echo, longest static, exact, proxy prefix, blog prefix, 404; never null after `create_handler_mapping` |
| `Dispatching.RequestDispatcher.StaticFile` | src/static_request_handler.cc:95-133 | dispatcher and static handler agree on the location and so on the file, for every uri |
| `Forms.UrlDecode` | src/blog_upload_request_handler.cc:177-196 | the index loop computes the decoding that the round trip is about |
| `Forms.ParseRequestBody` | src/blog_upload_request_handler.cc:199-227 | the loop computes the pairs of a body |
| `Forms.DecodeEncoded` | src/blog_upload_request_handler.cc:163-196 | any bytes, each sent as itself, as "+" or escaped in small or capital digits, are decoded to what they were, whatever follows |
| `Forms.DecodeMalformed` | src/blog_upload_request_handler.cc:163-196 | an escape without two hexadecimal digits: no digit counts as zero, and one too near the end stays as it is |
| `Forms.FormRoundTrip` | src/blog_upload_request_handler.cc:199-227 | fields submitted in any such spelling arrive as their last-wins map when free of "=" and "&"; with distinct keys only then |
| `Forms.PairsArePlain` | src/blog_upload_request_handler.cc:199-227 | no key and no value that comes out holds a separator |
| `Forms.SeparatorsAreLost` | src/blog_upload_request_handler.cc:52-53 | a concrete value that does not survive, in both spellings |
| `Text.Occurs` | src/proxy_request_handler.cc:389-390 | `find` succeeds exactly when the text occurs at some place |
| `Blogs.MockDatabase.InsertBlog` | src/mock_database.cc:22-40 | the post is appended with the next id |
| `Blogs.MockDatabase.GetBlog` | src/mock_database.cc:42-63 | the post with that id, or the sentinel |
| `Blogs.MockDatabase.GetAllBlogs` | src/mock_database.cc:65-69 | all posts in order |
| `Blogs.BlogHandler.IsNumber` | src/blog_upload_request_handler.cc:74-83 | nonempty and digits only |
| `Blogs.BlogHandler.HandleGetOneBlog` | src/blog_upload_request_handler.cc:89-118 | the page of one post, or the error page |
| `Blogs.BlogHandler.HandleGetAllBlogs` | src/blog_upload_request_handler.cc:120-144 | the page of all posts, in order |
| `Blogs.BlogHandler.HandlePostBlog` | src/blog_upload_request_handler.cc:146-160 | the post is stored and the answer redirects to it |
| `Blogs.BlogHandler.HandleRequest` | src/blog_upload_request_handler.cc:48-71 | one request on the store, and its answer, which `GetAnswers` describes for every GET; none when a conversion throws |
| `Blogs.GetAnswers` | src/blog_upload_request_handler.cc:56-67 | every GET: all posts for the prefix itself, the post with the number asked for, the error page without a number or without such a post, an exception for a uri that is too short and a number that is no int |
| `Blogs.StoreIsPosted` | src/blog_upload_request_handler.cc:48-71 | over any requests the store grows by exactly what was posted, numbered on in order |
| `Blogs.PrefixListsPosts` | src/blog_upload_request_handler.cc:57-58 | over any history a GET of the prefix, with or without a "/", lists every post stored, in order |
| `Blogs.PagesSay` | src/blog_upload_request_handler.cc:89-144 | the titles of the page of one post and of the page of all posts, and the message of the error page |
| `Blogs.EntryShowsPost` | src/blog_upload_request_handler.cc:120-144 | the entry of a post shows its number, its title and its text |
| `Blogs.PageShowsPost` | src/blog_upload_request_handler.cc:89-118 | the page shows the title as heading, the text as paragraph, and the id |
| `Blogs.AllPageShowsEvery` | src/blog_upload_request_handler.cc:120-144 | the page of all posts holds the entry of every post |
| `Blogs.LocationShowsPost` | src/blog_upload_request_handler.cc:56-67 | a GET of a location shows that post exactly when the prefix does not end in "/" |
| `Blogs.SlashLosesPost` | src/blog_upload_request_handler.cc:154-155 | with such a prefix no post is found at its location |
| `Blogs.ReadYourWrites` | src/blog_upload_request_handler.cc:48-71 | over any history, a GET of the Location of a POST shows what it stored, exactly when the prefix does not end in "/" |
| `BlogDelivery.PostThenRead` | src/blog_upload_request_handler.cc:48-71 | the same by way of the wire: the client reads the redirect in any reads, asks for the Location it has read, and reads a page that shows what it posted |
| `BlogDelivery.PageArrives` | src/blog_upload_request_handler.cc:89-144 | a page of the blog arrives in any reads exactly when its length is an int |
| `BlogDelivery.RedirectArrives` | src/blog_upload_request_handler.cc:146-160 | a redirect arrives in any reads with its Location |
| `Blogs.UploadFormStored` | src/blog_upload_request_handler.cc:69 | title and text are stored as typed, however the browser spells them, exactly when they hold no "=" and no "&" |
| `Blogs.FormPostedIsShown` | src/blog_upload_request_handler.cc:48-71 | the same from the form to the page, over any history |
| `Blogs.RedirectCarriesLocation` | src/blog_upload_request_handler.cc:149-159 | the 302 answer's header map has that Location |
| `Echoing.EchoHandler.BuildRequestString` | src/echo_request_handler.cc:46-68 | the loop produces the echoed text |
| `Echoing.EchoHandler.HandleRequest` | src/echo_request_handler.cc:77-91 | the echo response |
| `Echoing.EchoesExactly` | src/echo_request_handler.cc:48-54 | the echoed text is the request's printed form exactly for GET, POST and DELETE |
| `Echoing.NamelessIsBad` | src/echo_request_handler.cc:48-57 | an echo without its method never parses as a request |
| `Echoing.EchoRoundTrip` | src/echo_request_handler.cc:46-91 | accepted bytes come back as plain text that parses to the request the server built, exactly when the handler names its method and its header map declares its body |

## Left out

- Sockets, asynchronous callbacks, threads, signals and the write side of the session: input and output. A read is a string given to `HandleRead`; the read buffer's size of 1024 is not a bound here.
- `blog_database` and `blog_bigtable`: foreign stores; the mock database stands for the store.
- gzip decompression, libxml2 rewriting (`handle_html`), following a redirect, url splitting and the network half of the proxy handler: foreign calls and an unbounded chain of requests.
- Health, 404, redirect and upload-form handlers, MIME lookup, the stock 400 page: constants and one-branch code.
- The status handler's counters, and `get_status_handler` for a status location other than "/status".
- File contents in the static handler: the model stops at the file name.
- Locks of the mock database, logging, `fullmessage`, and the reading of the configuration file by name.
- Overflow of the int that holds a version number or the size of the database, and `reserve` running out of memory: ints are mathematical, with the bounds that `stoi` imposes.
- A method outside the eight listed leaves `method_` unset: the parameter `unset` stands for any value it may have.
- NUL bytes in header names or values, where `strcasecmp` would stop: the parsers refuse them.
- The markup of the blog pages around their titles, entries and the error message is a constant of the model; nothing is proved about its text.
- `ConfigParsing.TreeBuilder.Feed`: the child block of a statement is a value attached when the block closes, so the partly built tree that a rejected configuration leaves behind is not modelled.
- `ConfigTables.DeclaredTables`: says nothing about the order or the other members of the list of handler types, because the list also collects tokens that name no handler type; nor about layouts with a comment right after a word that asks for a value, where the comment is the value (`CommentTakesPort`).
- `Forms.FormRoundTrip`: the reverse direction asks for distinct keys, because a field that a later one overwrites may hold anything.
