# higuma: models and proofs

higuma is a web framework in Python and Rust. This project models the protocols and algorithms at its
core and proves what they are meant to guarantee, for every input, every run and every interleaving
that the model admits. `dafny verify dfyconfig.toml` checks all of it.

## The system and its models

- **Multipart forms** (`Bytes`, `Multipart`, `FormParser`, `FormRoundTrip`). A `Reader` object searches
  for delimiters over a source that hands out its bytes in pieces, keeping a carry-over window and looking
  ahead behind each candidate. `Reader.Until` refines a search over the whole input, so its success, what it
  writes and what it leaves do not depend on the pieces. The parser over it undoes the test client's encoder.
- **The await bridge** (`AwaitBridge`, `AwaitBridgeRuns`, `AwaitBridgeOutcomes`). Worker threads submit commands to one FIFO channel per
  thread on an event loop. A state holds the shared fields, an action is one atomic step, and a run is any list of
  actions.
- **The request lifecycle** (`Dispatch`, `FastPath`). `_dispatch` with its exception boundaries, and the list
  of dependency cleanups that the request, a local variable and the response's background share. Every user
  callback may return or raise. `FastPath` compares answering on the event loop with answering on a worker.
- **Routing** (`Patterns`, `Rules`, `RouteTables`, `RouteOrder`, `RouteBuild`). Python and Rust each parse rules, match
  paths and keep a table; the models are separate and are proved to agree. Building a URL is the matcher's inverse.
- **Graph walks** (`Manifest`, `Dependencies`, `Blueprints`, `OpenApi`). The explicit-stack walk of the static
  imports of a Vite manifest, dependency resolution with overrides, a cache and a stack, the registration of a
  tree of blueprints, and schemas of recursive classes. Each meets cyclic input.
- **Limits and shared state** (`RateLimit`, `FixedWindow`, `SessionStore`). The sliding window with its shared
  overflow bucket, the fixed window of the Redis script, and server sessions saved by compare-and-set.
- **Formats and small protocols** (`WebSocketLoop`, `EventStream`, `Tokens`, `JsonDepth`, `BodyStorage`). The
  loop that serves a WebSocket, server-sent events against the parser of section 9.2 of the WHATWG HTML
  standard, signed tokens in base64url (sections 3.2 and 5 of RFC 4648), the nesting limit of JSON bodies, and
  the bounded storage of bodies in memory and on disk.

Objects whose methods update fields are classes, loops are loops, and each method is proved against a
specification function whose own properties are the theorems.

## Where the code does less than it seems to promise

The models follow the code. These expectations fail; the exact condition under which each holds is proved, in
both directions.

- The two matchers differ on text with U+0080 to U+009F: Rust matches exactly what Python matches with no such
  character in a piece that a parameter takes (`Rules.MatchesAgree`, `RouteTables.TablesAgree`,
  `Rules.UpperControlsDisagree`).
- A rule becomes the same segments in both exactly when its first segment is not empty (`Rules.RulesAgree`,
  `Rules.EmptyHeadDisagrees`), and the two tables mirror each other exactly when no accepted rule is of that kind
  (`RouteTables.RegistrationsMirror`, `RouteTables.HeadsDisagree`).
- Only the Rust table treats a route for the method `*` as any method (`RouteTables.TablesAgree`,
  `RouteTables.StarDisagrees`).
- A blueprint registration that passes planning can still fail halfway through its commit, leaving the routes
  before the failure registered: the status code and option names of a route are looked at only then, and so are
  the methods that a route falls back to when its `methods` is an iterable that is true but yields nothing, such
  as an exhausted generator (`Blueprints.CommitSucceeds`, with two concrete cases).
- The fast path answers otherwise than the bridge exactly for a request that cannot be begun, a template that
  fails to render, a plain response whose headers cannot be encoded, and a background that is a bare callable
  and returns an awaitable with work to do (`FastPath.AnswerBoth`, `FastPath.TemplateDiffers`,
  `FastPath.HeaderDiffers`, `FastPath.BackgroundDiffers`).
- On the bridge all background work of a response and its request is done, unless some of it raises, exactly when
  the response's own is no such callable or the request has background tasks of its own (`Dispatch.Serve`).
- A rule matches the URL built from it exactly when its static text holds no percent escape
  (`RouteBuild.RoundTrip`, `RouteBuild.DecodesToItself`).
- A request is closed before its dependency cleanups run exactly when the `try` clause of `_dispatch` raises
  (`Dispatch.Serve`).
- The schemas of an OpenAPI document describe their own classes exactly when no two classes of one name have
  different schemas (`OpenApi.ReferencesResolve`, `OpenApi.SameNameMisdescribes`).
- A circle of dependencies is reported as one exactly when every callable on the path has a `__name__`
  (`Dependencies.ResolveView`).
- Server-sent data with line breaks other than line feeds, or with a last line feed, arrives changed
  (`EventStream.DataSurvives`).
- The sliding window's `retry-after` is rounded down: a caller that waits just so long is admitted exactly when the
  oldest admission charged to its bucket has left the window by then, and a second more is always enough
  (`RateLimit.WaitIsHonest`, `RateLimit.WaitFallsShort`).
- The fixed window admits up to `2 * limit - 1` calls in an interval as long as the window, and no more
  (`FixedWindow.LessThanTwice`, `FixedWindow.FillTwice`).

## Parameters and assumptions

Part headers, character sets, UTF-8, JSON, the message authentication code, HTTP header rendering and user
callbacks are parameters; where an inverse is needed (encode and decode, write and read) it is a stated
precondition. Session identifiers and payload revisions are drawn fresh. A Redis key is gone from the
instant of its expiry on, and a script runs at one instant. Which disk operations fail is a parameter. Time in
the sliding-window limiter is `real`.

## Model

| member | source | states |
|---|---|---|
| Multipart.Reader.Fill | python/higuma/multipart.py:19-23 | A read appends the next piece to the window and loses nothing; it reports the end exactly when the source is exhausted. |
| Multipart.Reader.Decide | python/higuma/multipart.py:33-42 | With the look-ahead it reads, a candidate delimiter is accepted exactly when the whole remaining input begins, behind it, with CRLF, or with `--` followed by CRLF or the end. |
| Multipart.DecidedByWindow | python/higuma/multipart.py:36-42 | A window with the look-ahead in it decides the delimiter for the whole input. |
| Multipart.Scanned | python/higuma/multipart.py:30-49 | What one search in the window says about the first match in the whole input. |
| Multipart.FirstAfterDrop | python/higuma/multipart.py:50-56 | Passing on bytes before the first match only moves the match. |
| Multipart.Reader.Scan | python/higuma/multipart.py:30-49 | The inner loops find the first match of the whole input if it fits the window, else prove it lies beyond. |
| Multipart.Reader.Round | python/higuma/multipart.py:29-58 | One round finishes at the first match, fails for a reason the whole input gives, or moves bytes on without passing a match, with fewer pieces left. |
| Multipart.Reader.Until | python/higuma/multipart.py:25-58 | For every way of cutting the source: it succeeds exactly when the whole input has a match and what precedes the first one is within the maximum, writes exactly that, and leaves exactly what follows the match. |
| Multipart.Reader.Take | python/higuma/multipart.py:60-65 | It returns the next bytes exactly when there are that many. |
| FormParser.ReadPart | python/higuma/multipart.py:98-144 | One part is what the one-shot parser makes of the remaining bytes, and an error is one that the whole input gives; field sizes stay within the budget; a file is opened at most once, stays open, is handed over also when the part fails, and holds the content. |
| FormParser.ReadParts | python/higuma/multipart.py:92-148 | The loop over parts returns the form of the one-shot parser with the files it holds, or fails exactly when that does; it hands over every temporary file that was opened, in order. |
| FormParser.ParseMultipart | python/higuma/multipart.py:68-152 | The form depends only on the bytes, not on the reads, and 400 or 413 is answered for a reason in the bytes; the files handed over are exactly those that were opened, open on success and all closed on failure. |
| FormRoundTrip.FieldHeadIsClean | python/higuma/testing.py:371-377 | The headers of an encoded field contain no blank line that would end them early. |
| FormRoundTrip.FileHeadIsClean | python/higuma/testing.py:384-394 | Neither do the headers of an encoded file, which have two lines. |
| FormRoundTrip.ContentSurvives | python/higuma/multipart.py:113-129 | The parser cuts a content at its own end exactly when no delimiter line begins inside it. |
| FormRoundTrip.IntactIs | python/higuma/multipart.py:33-42 | A delimiter line, byte by byte: the line end and the boundary line before CRLF, before `--` and CRLF, or before `--` at the very end; any other line, also one that begins with the boundary, is content. |
| FormRoundTrip.BoundaryIs | python/higuma/multipart.py:76-82 | The boundaries that are accepted are those of the grammar in section 5.1.1 of RFC 2046. |
| FormRoundTrip.ParsesTail | python/higuma/multipart.py:92-148 | Every suffix of an encoded body parses to the parts it was made from, within the part count and the field budget, and is refused for no other reason. |
| FormRoundTrip.EncodeMultipart | python/higuma/testing.py:360-397 | The encoder's loops produce the body of the fields and then the files. |
| FormRoundTrip.RoundTrip | python/higuma/multipart.py:68-152 | Parsing an encoded body returns the same fields and files in order, exactly when the parts are at most the part limit (which may be met exactly) and the field values within their limit; else it fails, and not as a bad request. |
| FormRoundTrip.Transmit | python/higuma/testing.py:360-397 | Encoding, cutting the body in any way and parsing it gives back what was sent, with the files open, exactly within the limits; else it answers 413 with every file that was opened closed. |
| AwaitBridgeRuns.InvHolds | python/higuma/execution.py:23-139 | Every reachable state satisfies the invariant on channels, queued callbacks, futures and closing. |
| AwaitBridgeRuns.RunsFollow | python/higuma/execution.py:86-139 | Along every run settlements are only added, an outcome never changes, and nothing is submitted after closing. |
| AwaitBridgeRuns.SettlesExactlyOnce | python/higuma/execution.py:39-51 | In every interleaving a future settles at most once; when `close` has returned every submitted future has settled exactly once, and no later `resolve` submits another. |
| AwaitBridgeRuns.ChannelsAreSequential | python/higuma/execution.py:23-68 | Each channel runs its commands one at a time in the order of submission, and only a command whose own future was cancelled is interrupted or skipped. |
| AwaitBridgeRuns.LatchIsFlag | python/higuma/execution.py:113-118 | The latch is set exactly when the last cancel since the latest `resolve` found nothing pending. |
| AwaitBridgeRuns.CancelIsConsumedOnce | python/higuma/execution.py:95-104 | A `resolve` is refused exactly when the bridge is closed or such a cancel is waiting, and a refusal consumes it. |
| AwaitBridgeRuns.CloseIsNotStuck | python/higuma/execution.py:70-72 | Whenever `close` waits for a channel, that channel's task can take a step or has finished. |
| AwaitBridgeRuns.CloseReturns | python/higuma/execution.py:132-139 | Once `close` has begun, whatever the threads do, the loop and the channels take at most a fixed number of steps more, ends of running commands included, and one is possible until `close` has returned: it returns if running commands end. |
| AwaitBridgeOutcomes.FinishSettles | python/higuma/execution.py:39-51 | In every run, when the command of a channel ends, its future takes exactly that result, value or exception, unless it had an outcome before; no other future changes. |
| AwaitBridgeOutcomes.OutcomeIs | python/higuma/execution.py:39-51 | In every reachable state a future is cancelled exactly when a cancel took it while it was unsettled, and holds a result exactly when its command ended with that result while it was. |
| AwaitBridgeOutcomes.CancelReachesAll | python/higuma/execution.py:113-118 | A cancel misses nothing: every future unsettled when `cancel_pending` was called has an outcome as soon as the loop is through its list, whatever happens in between. |
| AwaitBridgeOutcomes.CancelIsNoticed | python/higuma/execution.py:53-68 | The cancellation of a running command is never lost: its interruption is queued, or under way, or has happened. |
| AwaitBridgeOutcomes.CancelledNeverStarts | python/higuma/execution.py:27-33 | A command that was cancelled before it started never starts. |
| AwaitBridgeOutcomes.CloseStopsAll | python/higuma/execution.py:132-139 | When `close` has returned, the task of every channel there is has finished. |
| Dispatch.Request.Handle | python/higuma/app.py:1133-1155 | An `Exception` of a boundary is answered by the error handler, whose response is then the one in hand; nothing else is, and what the handler raises gets out. |
| Dispatch.Request.CallHooks | python/higuma/app.py:1140-1155 | The hooks of a boundary run one after the other until one raises; the response in hand is the last one's, or the handler's. |
| Dispatch.Request.PrepareFile | python/higuma/app.py:1156 | File preparation keeps the background of the response it is given. |
| Dispatch.Request.SendFinished | python/higuma/app.py:1157-1158 | The finished signal keeps the response, whose background its receivers may change. |
| Dispatch.Respond | python/higuma/app.py:1133-1158 | The calls of user code follow one another as the stages do, and the response holds the background that the last of them answered. |
| Dispatch.Request.RunCleanups | python/higuma/app.py:1230-1235 | Cleanups run newest first, each once, though any of them may raise anything. |
| Dispatch.MergeTasks | python/higuma/app.py:1159-1166 | The response ends up with its own background work and then the request's tasks, each once, or the request's alone when the two are the same object; a bare callable is then resolved, and without tasks of the request it stays bare. |
| Dispatch.Attempt | python/higuma/app.py:1132-1180 | The `try` clause either hands every registered cleanup to the response's background or leaves them all to the `finally` clause; the background holds the work that the last call of user code answered and the request's tasks. |
| Dispatch.Run | python/higuma/app.py:1132-1210 | Whichever callback, signal, finalizer or teardown raises, and only if one does, `_dispatch` fails; then every registered cleanup has run exactly once, newest first, after the request was closed if the `try` clause raised and before it if only the teardown did. If it returns, none has run and the background holds them all, behind the work of the last response the callbacks answered and the request's tasks. |
| Dispatch.Perform | python/higuma/app.py:1219-1228 | The background runs the user's work in order until a task raises, which ends it, then always the cleanups and the closing, in the order of nesting; unless it raises, all of the user's work is done exactly when the innermost callable is no bare one that returns an awaitable with work to do. |
| Dispatch.Serve | python/higuma/app.py:1069-1235 | From the call to the end of the background, every registered cleanup is invoked exactly once, in reverse order of registration; after the user's background work and before the request is closed when `_dispatch` returns, and in the two orders of `Dispatch.Run` when it raises. The work is that of the last response the callbacks answered, then the request's tasks; where none of it raises, all is done exactly when the response's own is no bare callable that returns an awaitable with work to do, or the request has tasks. The request is closed at the end exactly when there is any background or it holds files or a bridge. |
| Dispatch.ReverseKeepsEach | python/higuma/app.py:1230-1231 | Running in reverse drops and doubles nothing. |
| FastPath.Exchange.Deliver | python/higuma/gateways.py:486-539 | `respond` shows the response the specification describes, failures included, those of the background too, and calls its background exactly once; the body is the text, file, rendered template or joined chunks whole, and empty exactly for HEAD and for 204, 205 and 304. |
| FastPath.Exchange.SendPlain | python/higuma/async_dispatch.py:135-158 | The fast path's two events show the same as `respond` for a plain response, for every status and method, with the whole text unless for HEAD, 204, 205 and 304, and its background is called and awaited. |
| FastPath.Exchange.Slow | python/higuma/app.py:1132-1228 | The bridge path sends the response the callbacks chose, whole unless for HEAD, 204, 205 and 304, with a failed template replaced before it is sent; its background is called once and what the call returns is dropped. |
| FastPath.Exchange.Fast | python/higuma/async_dispatch.py:69-169 | The fast path sends the response the callbacks chose, whole unless for HEAD, 204, 205 and 304, and runs its background exactly once, resolving what it returns; for headers that cannot be encoded it is the page for that exception, and a request that cannot be begun gets no answer. |
| FastPath.FastShowsSlow | python/higuma/async_dispatch.py:69-169 | Whatever is sent by exchanges that meet those two specifications: start, body, end and background work agree exactly when the request can be begun and the response is neither a template that fails to render, nor a plain one whose headers cannot be encoded, nor one with a bare callable as background that returns an awaitable with work to do. |
| FastPath.AnswerBoth | python/higuma/async_dispatch.py:69-169 | Both paths run on one request answer alike exactly under that condition. |
| FastPath.TemplateDiffers | python/higuma/gateways.py:486-539 | A template that fails to render is answered without headers by the fast path and with the page's headers by the bridge. |
| FastPath.HeaderDiffers | python/higuma/async_dispatch.py:137-147 | A header outside Latin-1 is answered with the page's headers by the fast path and without any by the bridge. |
| FastPath.BackgroundDiffers | python/higuma/app.py:1219-1228 | A coroutine function as background runs on the fast path and is never started on the bridge. |
| Patterns.IntegersAgree | src/lib.rs:1624-1627 | The integer checker accepts exactly the texts of the regular expression. |
| Patterns.FloatsAgree | src/lib.rs:1629-1640 | So does the float checker. |
| Patterns.UuidsAgree | src/lib.rs:1616-1622 | So does the UUID checker. |
| Rules.NormalizePath | src/lib.rs:1661-1676 | The Rust loop computes Python's normal form. |
| Rules.NormalForm | python/higuma/routing.py:15-20 | Normal rules start with a slash, do not end with one unless they are the root, and are stable. |
| Rules.NormalIs | python/higuma/routing.py:15-20 | What the normal form keeps: the rule with one leading slash put before it if it has none, cut after its last character that is no slash; or the root if there is none. |
| Rules.RulesAgree | src/lib.rs:1500-1552 | A rule Python accepts becomes the same segments in Rust exactly when its first segment is not empty. |
| Rules.ParameterIsRead | python/higuma/routing.py:60-80 | `<kind:name>` is a parameter of that converter and name, for each of the kinds and every identifier. |
| Rules.BareParameterIsRead | python/higuma/routing.py:60-80 | `<name>` is a parameter for text. |
| Rules.RustReads | src/lib.rs:1500-1552 | Rust accepts every rule Python accepts, and reads it with an empty segment for each slash after the first. |
| Rules.EmptyHeadDisagrees | python/higuma/routing.py:61 | The rule `//a` is one that does not. |
| Rules.MatchSegments | src/lib.rs:1554-1614 | The Rust loop computes the recursive matcher. |
| Rules.MatchRule | python/higuma/routing.py:82-122 | The Python loop computes its own. |
| Rules.AcceptsAgree | src/lib.rs:1586-1602 | For each converter but `path` Rust accepts exactly the values Python accepts that hold no U+0080 to U+009F. |
| Rules.MatchesAgree | python/higuma/routing.py:82-128 | For all segments, paths and decoders: Rust matches exactly when Python does and no piece a parameter consumes decodes to text with U+0080 to U+009F; then `convert_params` turns the Rust texts into the Python values. |
| Rules.UpperControlsDisagree | src/lib.rs:1587-1592 | A piece that decodes to U+0085 under a text parameter is one that matches in Python only. |
| RouteTables.SortIsStable | src/lib.rs:219 | Sorting by specificity keeps the registration order of equals. |
| RouteTables.RegistrationsMirror | python/higuma/app.py:275-315 | After any registrations, refused ones among them, Rust has refused none that Python accepted; the Python table is the accepted ones sorted stably by specificity, and the Rust table the same ones as Rust reads their rules, one entry for each method. It mirrors Python's exactly when no accepted rule has an empty first segment. |
| RouteTables.MatchRoute | python/higuma/app.py:1413-1442 | The Python loop returns the first route that lists the method, else for HEAD the first that lists GET, with its values and the allowed methods. |
| RouteTables.FindHandler | src/lib.rs:223-291 | The Rust loop returns the first entry of the highest priority, its texts and the allowed methods. |
| RouteTables.TablesAgree | src/lib.rs:223-291 | For every path that no rule with an empty first segment matches, however it is read: where Python finds a route, Rust chooses it too, with texts that convert to the same values, exactly when no parameter of it takes a piece with U+0080 to U+009F; where Python finds none, Rust finds one exactly when a route that matches without such a piece lists `*`; Rust allows exactly the methods of the routes that match so. |
| RouteTables.AllowedAgree | src/lib.rs:223-291 | On such a path, where no matching route's parameter takes such a piece, both tables allow the same methods. |
| RouteTables.StarDisagrees | src/lib.rs:246-247 | A route registered for `*` answers a GET in Rust and not in Python. |
| RouteTables.HeadsDisagree | python/higuma/routing.py:61 | A route for `//a` answers `/a` in Python only and `//a` in Rust only. |
| RouteTables.MostSpecificWins | python/higuma/app.py:313-314 | After any registrations the route found is at least as specific as any other that lists the method, and the first registered of its specificity. |
| RouteOrder.RegistersExactly | python/higuma/app.py:269-315 | A registration is accepted exactly when it names a method, its rule parses, and no route of the same normal rule has one of its methods; it adds its own route and loses none. |
| RouteOrder.MoreExactWins | python/higuma/routing.py:79 | After any registrations, of two routes that match and list the method Python never answers with the one whose segments are nowhere ahead and somewhere behind: static text comes before `int`, `float` and `uuid`, these before text, and text before `path`. |
| RouteOrder.MoreExactWinsInRust | src/lib.rs:1534-1538 | Nor does the Rust table. |
| RouteBuild.Build | python/higuma/routing.py:130-142 | Building fails exactly when a parameter has no value, and otherwise gives the specified URL. |
| RouteBuild.DecodesQuoted | python/higuma/routing.py:141 | Percent-decoding inverts percent-encoding for every text. |
| RouteBuild.SplitQuoted | python/higuma/routing.py:140-141 | A quoted path splits into the quoted pieces of the path. |
| RouteBuild.QuoteKeepsPlain | python/higuma/routing.py:141 | Quoting leaves exactly letters, digits, `_.-~` and, in a path, slashes as they are, and writes every byte of other characters as a percent sign and two hexadecimal digits. |
| RouteBuild.EverySegmentHasItsPiece | python/higuma/routing.py:130-142 | In a URL built from any values, also ones no converter would carry, each segment has a piece of its own, static text as it is and a value that decodes to its text; a path has as many pieces as it had, and no value reaches into another segment. |
| RouteBuild.FittingIsAccepted | python/higuma/routing.py:110-120 | The printed form of every fitting value passes its converter and converts back to it. |
| RouteBuild.RoundTrip | python/higuma/routing.py:82-142 | Matching the URL built from values the converters can carry gives them back exactly when the rule's static text holds no percent escape. |
| RouteBuild.NoPercentDecodes | python/higuma/routing.py:145-149 | Static text without a percent sign holds no escape, so its rule makes the round trip. |
| RouteBuild.DecodesToItself | python/higuma/routing.py:145-149 | Any text decodes to itself exactly when no percent sign in it is followed by two hexadecimal digits. |
| Manifest.Entrypoint | python/higuma/frontend.py:70-87 | The explicit-stack walk ends on every finite graph, fails exactly when a reachable chunk is missing, and otherwise returns the post-order of the recursive walk. |
| Manifest.HoldsWhatIsReachable | python/higuma/frontend.py:70-87 | That list holds every chunk reachable by static imports except the entry, exactly once, and nothing else. |
| Manifest.ImportsComeFirst | python/higuma/frontend.py:76-87 | An import stands before its importer unless the two are on a cycle. |
| Manifest.AcyclicImportsComeFirst | python/higuma/frontend.py:76-87 | On an acyclic graph every import stands before its importer. |
| Manifest.ValidatedMissesNothing | python/higuma/frontend.py:32-53 | In a manifest that `reload` accepts no walk meets a missing chunk. |
| Dependencies.Request.ResolveDependency | python/higuma/parameters.py:368-413 | One dependency is answered by a call made for its marker, a new one unless it is cached; a reported circle is a real path that closes, and the report is an attribute error where a callable on it has no name; cleanups follow the calls. It fails otherwise only where a call raises or arguments are refused. |
| Dependencies.Request.ResolveArguments | python/higuma/parameters.py:130-235 | Every dependency of a callable is answered in order, nothing on the stack is called from inside, and arguments are refused only after all of them. |
| Dependencies.PathDescends | python/higuma/parameters.py:385-413 | Along every path of dependencies the first calls come earlier and earlier. |
| Dependencies.AnsweredIsAcyclic | python/higuma/parameters.py:379-381 | A resolution that succeeds proves that no circle can be reached. |
| Dependencies.CalledOnce | python/higuma/parameters.py:382-383 | After resolution every marker in use was answered, a cached one by exactly one call. |
| Dependencies.ResolveView | python/higuma/parameters.py:368-413 | Resolution ends on every finite graph with overrides. It fails for another reason than a circle exactly at the first call that raises or arguments that are refused; absent these it fails exactly when a circle can be reached, and otherwise calls each cached dependency exactly once, after everything it depends on, and nothing unreachable. Every call is of the override of what was declared, or of that itself if it has none; cleanups are those of the generators, in order. |
| Blueprints.FiniteIffAcyclic | python/higuma/app.py:377-391 | The tree of registrations is finite exactly when no cycle of children can be reached. |
| Blueprints.Collect | python/higuma/app.py:377-398 | `collect` ends on every finite graph and plans the whole tree in order exactly when it is finite and every name is free; it reports a cycle only where there is one. |
| Blueprints.UnfoldIsTree | python/higuma/app.py:377-398 | The planned list is the tree: each child's name is its parent's, a dot, and its option's name if given, else its own; its prefix is the parent's without trailing slashes and the option's prefix if given, else its own; every child of every member is in it, and nothing else. |
| Blueprints.Plan | python/higuma/app.py:399-447 | Planning succeeds exactly when every rule parses, every endpoint is new, and no two routes share a rule and method, and it changes no table. |
| Blueprints.CommitSucceeds | python/higuma/app.py:448-454 | A planned commit succeeds exactly when every route's remaining options are accepted and the methods it falls back to exist and clash with nothing. |
| Blueprints.PlannedCommits | python/higuma/app.py:448-454 | When every route names its methods, no commit step meets an endpoint or path conflict. |
| Blueprints.CommitAdds | python/higuma/app.py:448-454 | A successful commit adds every planned route under its endpoint, keeps what was there, and adds nothing else. |
| Blueprints.TreeIsAdded | python/higuma/app.py:403-454 | After a commit every route, WebSocket and static folder that a blueprint of the tree declares is held under the registered name, a dot and the endpoint, with the normal form of prefix and rule and the route's methods; nothing else is new and nothing changed. |
| Blueprints.CommitAllKeepsUnique | python/higuma/app.py:277-282 | However far a commit gets, pairs of rule and method and WebSocket rules stay unique. |
| Blueprints.App.AddUrlRule | python/higuma/app.py:269-315 | One registration with its own checks. |
| Blueprints.App.RegisterBlueprint | python/higuma/app.py:361-470 | An error before the commit leaves all tables unchanged and is raised exactly when the name, the tree or the plan is refused; success adds everything the tree below the blueprint declares, under its names and prefixes, and nothing else, names every blueprint of the tree, and merges each blueprint's application hooks exactly once. |
| Blueprints.StatusIsMetTooLate | python/higuma/app.py:275-276 | A bad status code fails the commit after an earlier route was registered. |
| Blueprints.FallbackIsMetTooLate | python/higuma/app.py:269-272 | So does a route without methods whose fallback is taken. |
| OpenApi.UniqueId | python/higuma/openapi.py:52-62 | The loop ends, and the id is new: the wanted one, else with the method, else with the least free number. |
| OpenApi.NameOperations | python/higuma/openapi.py:42-63 | No two operations get the same id, and each gets the one it wants unless an earlier one has it. |
| OpenApi.Components.SchemaFor | python/higuma/openapi.py:108-248 | Building a schema ends on recursive classes; it means what the type says, with classes told apart by name; every reference in it and in the components is defined, entries never change, and every new entry describes a class of its name. |
| OpenApi.ReferencesResolve | python/higuma/openapi.py:190-211 | In any document built so, every reference to a class met resolves to that class's own schema exactly when no two of them have the same name and different schemas. |
| OpenApi.Describe | python/higuma/openapi.py:108-248 | One type described from nothing gives such a document; each entry lists the fields of a class of its name, in order, and as required exactly the required ones. |
| OpenApi.SameNameMisdescribes | python/higuma/openapi.py:190-211 | Two classes of one name with different fields share one reference, so one of them is described by the other's fields. |
| RateLimit.RateLimiter.Admit | python/higuma/security.py:227-262 | The middleware's loops compute the step of the specification, state and verdict. |
| RateLimit.StepKeeps | python/higuma/security.py:232-262 | A dedicated bucket holds exactly the recent admissions of its identity, and the overflow bucket at least those of every identity without one. |
| RateLimit.NeverMoreThanLimit | python/higuma/security.py:232-262 | With calls in the order of their times, no identity is admitted more than `limit` times in any window, even as it moves between buckets and across cleanups. |
| RateLimit.BucketsAreBounded | python/higuma/security.py:246-262 | There are at most `max_keys` buckets, none empty, all sorted and within the limit. |
| RateLimit.RefusedExactlyWhenFull | python/higuma/security.py:236-262 | A call is charged to its identity's bucket if there is one, to a new one if there is room and nothing recent in the overflow bucket, and else to that. It is refused exactly when `limit` admissions of the last window were charged there, and otherwise told how many are left. |
| RateLimit.WaitIsHonest | python/higuma/security.py:255-260 | A refused caller that returns is admitted exactly when the first admission in its bucket has left the window, if nothing else was charged to the bucket and that was not cleared away; before the announced seconds it has not, if they are more than one, and a second after them it has. |
| RateLimit.WaitFallsShort | python/higuma/security.py:256 | A caller that returns after the announced second and is refused again. |
| RateLimit.IdleAreDropped | python/higuma/security.py:235-241 | After any call, no bucket is left of an identity last admitted two windows ago or earlier. |
| FixedWindow.Key.Script | python/higuma/redis_state.py:23-29 | The script refuses exactly when this lifetime of the key has admitted the limit, never leaves a key without an expiry, and reports the time left of the lifetime. |
| FixedWindow.LessThanTwice | python/higuma/redis_state.py:23-29 | At most `2 * limit - 1` calls are admitted in any half-open interval as long as the window. |
| FixedWindow.OneLessIsMet | python/higuma/redis_state.py:23-29 | Two windows that hold that many. |
| FixedWindow.FillTwice | python/higuma/redis_state.py:23-29 | For every limit and span, calls of the script that meet the bound: one, then `limit - 1` at the end of its window, then `limit` a millisecond later. |
| FixedWindow.Key.WaitAndRetry | python/higuma/redis_state.py:209-210 | A refused caller that waits the seconds of the `retry-after` header, the time left rounded up, is admitted if it is then the first. |
| SessionStore.InvHolds | python/higuma/redis_state.py:55-85 | In every interleaving of servers the store holds what was last written, and sessions hold what they loaded or wrote. |
| SessionStore.SavesFormChains | python/higuma/redis_state.py:18-22 | The writes of an identifier form a chain: each save replaces exactly the payload its server loaded or wrote, and each load returns the latest. |
| SessionStore.OneSavePerPayload | python/higuma/redis_state.py:78-82 | Of all saves from one loaded payload at most one succeeds. |
| SessionStore.SaveAccepted | python/higuma/redis_state.py:18-22 | A save is accepted exactly when the identifier is alive and nothing was written since its content was loaded. |
| SessionStore.NeverAgain | python/higuma/redis_state.py:71-85 | Once revoked or expired, an identifier never holds data again. |
| SessionStore.RevokedForEver | python/higuma/redis_state.py:71-85 | In every run, after a revocation its identifier is dead in every later state, and no later command of any server loads, saves or creates it. |
| SessionStore.ClearedMeansRevoked | python/higuma/redis_state.py:166-181 | In every run a session that was cleared or emptied is never saved under its identifier, and its new content goes to a new identifier only after the server has revoked the old, which is dead by then. |
| SessionStore.SavesGoOn | python/higuma/redis_state.py:139-181 | A modified session can always be saved: the save comes to a store command unless there is nothing to store and nothing to revoke, and the command it has come to can be given. |
| SessionStore.SaveTakesEffect | python/higuma/redis_state.py:18-22 | A save replaces the payload for the time to live exactly when the latest write is what the server held and the identifier is alive, else it changes nothing; the session holds the new payload if the reply arrives, else it stays to be saved again. |
| SessionStore.CreateTakesEffect | python/higuma/redis_state.py:71-76 | A creation stores the payload under an identifier never used, for the time to live. |
| SessionStore.RevokeTakesEffect | python/higuma/redis_state.py:84-85 | A revocation removes the identifier, and a server told of it creates what is left to store. |
| SessionStore.LoadTakesEffect | python/higuma/redis_state.py:68-69 | An identifier can be loaded exactly while it is stored and alive, and gives what was last written. |
| SessionStore.LivesItsTime | python/higuma/redis_state.py:71-82 | In every run what was written under an identifier is there until the time to live has passed and no longer, unless a later write or revocation comes between. |
| WebSocketLoop.Connection.PeerSends | src/lib.rs:591-628 | While closing, a message from the peer is dropped; else it is queued, or a full queue sends the close frame 1013 and starts closing, or a queue the handler has dropped ends the loop without one. |
| WebSocketLoop.Connection.PeerEnds | src/lib.rs:629-657 | The end of the peer's side queues one close marker if there is room, and ends the loop. |
| WebSocketLoop.Connection.HandlerSend | src/lib.rs:658-681 | A frame goes out unless a close frame was sent before; a close frame starts closing, and a failed send ends the loop. |
| WebSocketLoop.Connection.Turn | src/lib.rs:572-693 | Every turn does what its event says and keeps the invariant: one close frame at most, and last; the handler gets a prefix of the peer's messages, all of them until the loop is closing, then at most one marker. |
| WebSocketLoop.Connection.Serve | src/lib.rs:572-693 | In every run at most one close frame is sent and nothing after it, and what the handler received is such a prefix. While nothing has closed or ended the loop, every frame of the handler went out and every message of the peer was received or is queued. |
| EventStream.Encode | python/higuma/response.py:443-465 | Encoding fails exactly for a name or id with a line break or NUL or a negative retry, and otherwise gives the specified text. |
| EventStream.ReadsEvent | python/higuma/response.py:443-465 | The standard's parser dispatches exactly one message for an encoded event, with its name, id and retry. |
| EventStream.ReadsStream | python/higuma/response.py:490-493 | A stream of encoded events reads as those events, in order. |
| EventStream.DataSurvives | python/higuma/response.py:464 | The data arrives unchanged exactly when it has no line break but line feeds, and none of them last. |
| Tokens.UnB64 | python/higuma/security.py:304-313 | Unpadded base64url decoding inverts encoding for every byte string, and the length of the encoding. |
| Tokens.UnsignsSigned | python/higuma/security.py:147-154 | The last dot recovers payload and signature. |
| Tokens.LoadsDumped | python/higuma/security.py:136-164 | `loads(dumps(v))` is `v` exactly while the token is within the size limit, not from the future and not too old. |
| Tokens.LoadsSession | python/higuma/sessions.py:142-191 | A dumped session comes back with data and permanence under the same conditions; a cookie over 4093 bytes is not written. |
| JsonDepth.Accepts | python/higuma/request.py:370-382 | The walk with a stack of iterators accepts exactly the values nested at most 128 deep, for any limit in its place. |
| BodyStorage.StoreRequestBody | src/lib.rs:807-857 | Unless the disk refuses: 413 exactly when more bytes than the maximum were received, however they were cut, 400 exactly when a read failed below it; else the bytes are kept, in a rewound file exactly when they exceed the memory limit and then not in memory, which never holds more than that limit. |
| BodyStorage.BodyBuffer.Write | python/higuma/body.py:26-30 | A write that would exceed the maximum changes nothing; any other is done whole, and `rolled_to_disk` says what the spool did as long as writes append. |
| BodyStorage.BodyBuffer.FillFrom | python/higuma/body.py:35-51 | The loop ends, keeps exactly what `Taken` says of the replies and rewinds, or fails as it says and leaves the storage closed. |
| BodyStorage.TakenFromHonest | python/higuma/body.py:36-47 | From an input that never answers more than it was asked for, the first bytes up to the announced length are taken; 413 exactly when these exceed the room, and `incomplete` exactly when the length is not reached. |
| BodyStorage.TakenIsBounded | python/higuma/body.py:36-47 | Whatever the input answers, an announced length is met exactly, the maximum is never exceeded, and no byte is made up. |
| BodyStorage.TerminatedIsWhole | python/higuma/body.py:36 | A terminated input is read to its end exactly when that is within the maximum. |
| BodyStorage.BodyBuffer.ReceiveBody | python/higuma/body.py:67-94 | True with the whole body, rewound, exactly when the events end with a last body and their bytes fit; a disconnect, a wrong event, a cancellation or too many bytes leave the storage closed. |

## Left out

- Sockets, threads, asyncio and Rust async runtimes, pyo3 conversions and compression: only the atomic steps the code relies on are modelled.
- Header parsing, character sets, UTF-8 tables, JSON, cryptography and random tokens: parameters with stated inverses or freshness.
- AwaitBridge: a state machine on values, not on objects; the context variables and `previous` are not modelled, because they decide nothing in the protocol.
- SessionStore: a state machine on values; the JSON document, the cookie and its signature, the `vary` header and the three attempts of `create` are not modelled, because fresh identifiers never collide.
- Dispatch: what hooks and error handlers return but for its background, tasks and cleanups that teardown functions add, the websocket variant, and the application context pushed around `_dispatch`; a response object shared between requests is not modelled.
- FastPath: `eligible`, whose conditions are the assumptions (no hooks, error handlers, middleware, teardown or dependencies; hence no finalizers, which only the session middleware registers); cancellation when the peer goes away, failing sends, the pages of debug mode, and error pages whose own status or headers are invalid.
- Rules: the digit limit of Python's `int`, and floats and UUIDs other than by their printed form.
- RouteTables: methods outside ASCII, endpoints, callbacks and the WebSocket table.
- RateLimit: the order of the buckets in the `OrderedDict`, which nothing reads, and calls served out of the order of their times.
- Manifest: the lists of style sheets and preloads made from the chunks, and the URL checks.
- Dependencies: request parameters and conversions are possible failures only, which end the reading after a callable's dependencies and not between them; values are told apart by the call that gave them.
- Blueprints: view functions, hooks, template and static folders except their routes; the order of the route list is in `RouteTables`.
- OpenApi: object-relational classes, enumerations and literals, which recur into nothing, and the sorted `required` list of typed dictionaries.
- WebSocketLoop: pings, the closing handshake below the frames, and the five seconds of the close timer.
- EventStream: the byte order mark, which no encoded stream begins with.
- Tokens.LoadsSession: says nothing about cookies that are not valid base64url, which `_decode_base64` reads leniently.
- BodyStorage: seeking other than to the start, and writes by threads, which are waited for one at a time.
- Conditional and range requests, the test client's redirects, parameter conversion, multi-dictionaries, static files, configuration, commands, signals, templates and health checks: easier members of the same kinds.
