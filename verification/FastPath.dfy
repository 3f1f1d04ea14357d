/**
 * Answering a request on the event loop (`async_dispatch`) instead of on a worker thread: the fast
 * path builds and sends the response its own way, and is meant to send what the slow path sends.
 * Views and callbacks are parameters; what is observed is the response on the wire and what the
 * background did.
 */
module FastPath {
  import opened Wrappers
  import Sequences

  /** What background work does: something of the user's, or raising. */
  datatype Step = Did(task: nat) | Raise

  /**
   * A `BackgroundTask` or `BackgroundTasks`, which resolve what their functions return; or any other
   * callable, what calling it does, and what the awaitable it returns would do (nothing if it
   * returns none). Such an object may count as false.
   */
  datatype Background = Owned(tasks: seq<seq<Step>>) | Bare(called: seq<Step>, awaited: seq<Step>, truthy: bool)

  type Headers = seq<(string, string)>

  /** What a response's body is made of; None for a file or template that cannot be read. */
  datatype Content =
    | Plain(body: string)
    | File(data: Option<string>)
    | Stream(chunks: seq<string>, fails: bool)
    | Template(rendered: Option<string>)

  datatype Response = Response(status: nat, fields: Headers, content: Content, background: Option<Background>)

  type Error = nat
  type Callback = Response -> Result<Response, Error>

  /**
   * The parts both paths share: default error responses, `_headers` with its encoding to bytes (None
   * where that raises, and what it raises), `_prepare_file_response`, and the page for a failed response.
   */
  datatype Server = Server(handle: Error -> Response, headers: (Response, Option<nat>) -> Option<Headers>,
                           unencodable: Error, prepare: Response -> Response, failure: Response)

  predicate Truthy(b: Background) {
    match b
    case Owned(tasks) => tasks != []
    case Bare(_, _, truthy) => truthy
  }

  predicate Special(r: Response) {
    !r.content.Plain? || (r.background.Some? && Truthy(r.background.value))
  }

  /** The length announced for the body, if it is known. */
  function Length(r: Response): Option<nat> {
    match r.content
    case Plain(body) => Some(if r.status == 205 then 0 else |body|)
    case File(data) => if r.status == 205 then Some(0) else if data.Some? then Some(|data.value|) else None
    case Stream(_, _) => if r.status == 205 then Some(0) else None
    case Template(_) => None
  }

  ghost predicate IsPage(s: Server, r: Response) {
    && !Special(r) && r.background.None? && r.status == 500
    && s.headers(r, Length(r)).Some? && s.headers(r, Length(r)) != Some([])
  }

  /**
   * Default error responses are plain and have no background, the pages for failures can be sent and
   * have headers, only files are prepared, and they keep their background.
   */
  ghost predicate ServerOk(s: Server) {
    && (forall e: Error :: !Special(s.handle(e)) && s.handle(e).background.None?)
    && (forall r: Response :: !r.content.File? ==> s.prepare(r) == r)
    && (forall r: Response :: s.prepare(r).background == r.background)
    && (forall r: Response :: s.prepare(r).content.Template? ==> r.content.Template?)
    && IsPage(s, s.failure) && IsPage(s, s.handle(s.unencodable))
  }

  predicate Suppressed(r: Response, verb: string) {
    verb == "HEAD" || r.status in {204, 205, 304}
  }

  datatype Event = Start(status: nat, headers: Headers) | Body(data: string, more: bool)

  // ---------------------------------------------------------------------
  // What is seen on the wire
  // ---------------------------------------------------------------------

  function Joined(chunks: seq<string>): string {
    if chunks == [] then "" else Joined(chunks[..|chunks| - 1]) + chunks[|chunks| - 1]
  }

  /** The body of a list of events: its chunks joined. */
  function BodyOf(events: seq<Event>): string {
    if events == [] then ""
    else
      var last := events[|events| - 1];
      BodyOf(events[..|events| - 1]) + (if last.Body? then last.data else "")
  }

  /** A response as the client sees it, or no answer at all, and what the background did. */
  datatype Seen =
    | Seen(status: nat, headers: Headers, body: string, complete: bool, ran: seq<Step>)
    | Silent(ran: seq<Step>)

  ghost predicate ShowsAnswer(events: seq<Event>, ran: seq<Step>, seen: Seen)
    requires seen.Seen?
  {
    && events != [] && events[0] == Start(seen.status, seen.headers)
    && (forall i :: 0 < i < |events| ==> events[i].Body?)
    && (forall i :: 0 < i < |events| - 1 ==> events[i].more)
    && seen.complete == (|events| > 1 && !events[|events| - 1].more)
    && BodyOf(events) == seen.body && ran == seen.ran
  }

  ghost predicate Shows(events: seq<Event>, ran: seq<Step>, seen: Seen) {
    if seen.Silent? then events == [] && ran == seen.ran else ShowsAnswer(events, ran, seen)
  }

  /** Work stops at the first step that raises. */
  function Until(steps: seq<Step>): seq<Step> {
    if steps == [] then []
    else if steps[0].Raise? then [Raise]
    else [steps[0]] + Until(steps[1..])
  }

  function AllOf(tasks: seq<seq<Step>>): seq<Step> {
    if tasks == [] then [] else tasks[0] + AllOf(tasks[1..])
  }

  /** What calling a background does; what the call returns is dropped. */
  function Called(b: Option<Background>): seq<Step> {
    match b
    case None => []
    case Some(Owned(tasks)) => Until(AllOf(tasks))
    case Some(Bare(called, _, _)) => Until(called)
  }

  /** What it does when an awaitable it returns is resolved too, as within a `BackgroundTask`. */
  function Resolved(b: Option<Background>): seq<Step> {
    if b.Some? && b.value.Bare? then Until(b.value.called + b.value.awaited) else Called(b)
  }

  function Work(b: Option<Background>, wrapped: bool): seq<Step> {
    if wrapped then Resolved(b) else Called(b)
  }

  /** The page of `respond` for a response that could not be sent; it has no headers. */
  function Failed(s: Server, ran: seq<Step>): Seen {
    Seen(500, [], if s.failure.content.Plain? then s.failure.content.body else "", true, ran)
  }

  /** A failure before the body is opened: the background is called first, and may raise itself. */
  function FailedEarly(s: Server, work: seq<Step>): Seen {
    if Raise in work then Silent(work) else Failed(s, work)
  }

  function DeliveredReady(s: Server, r: Response, verb: string, work: seq<Step>): Seen
    requires !r.content.Template?
  {
    if r.content.File? && r.content.data.None? then FailedEarly(s, work)
    else if s.headers(r, Length(r)).None? then Failed(s, work)
    else
      var headers := s.headers(r, Length(r)).value;
      if Suppressed(r, verb) then Seen(r.status, headers, "", true, work)
      else
        match r.content
        case Plain(body) => Seen(r.status, headers, body, true, work)
        case File(data) => Seen(r.status, headers, data.value, true, work)
        case Stream(chunks, fails) => Seen(r.status, headers, Joined(chunks), !fails, work)
  }

  /** What `respond` shows for a response in hand, when calling its background does `work`. */
  function Delivered(s: Server, r: Response, verb: string, work: seq<Step>): Seen {
    if r.content.Template? then
      if r.content.rendered.None? then FailedEarly(s, work)
      else DeliveredReady(s, r.(content := Plain(r.content.rendered.value)), verb, work)
    else DeliveredReady(s, r, verb, work)
  }

  /** A template response that cannot be rendered. */
  predicate Unrendered(r: Response) {
    r.content.Template? && r.content.rendered.None?
  }

  /**
   * The slow path: `_dispatch` has wrapped the background in a function that calls it and drops what
   * it returns, and the gateway renders a template before it responds. A request that cannot be
   * begun, or a background that raises after a failed rendering, gets the page of `respond`.
   */
  function SlowSeen(s: Server, begins: bool, r: Response, verb: string): Seen {
    var work := Called(r.background);
    if !begins then Failed(s, [])
    else if Unrendered(r) then
      if Raise in work then Failed(s, work) else Delivered(s, s.failure, verb, []).(ran := work)
    else Delivered(s, r, verb, work)
  }

  /**
   * The fast path: only special responses go through `respond`, their background in a
   * `BackgroundTask`. A request that cannot be begun is not answered.
   */
  function FastSeen(s: Server, begins: bool, r: Response, verb: string): Seen {
    if !begins then Silent([])
    else if Special(r) then Delivered(s, s.prepare(r), verb, Resolved(r.background))
    else if s.headers(r, Length(r)).Some? then Delivered(s, r, verb, Resolved(r.background))
    else Delivered(s, s.handle(s.unencodable), verb, [])
  }

  lemma {:induction false} BodyOfMore(events: seq<Event>, e: Event)
    ensures BodyOf(events + [e]) == BodyOf(events) + (if e.Body? then e.data else "")
  {
    assert (events + [e])[..|events|] == events;
  }

  lemma NothingResolved()
    ensures Called(None) == Resolved(None) == []
  {
  }

  /** What raises in the first part ends the whole. */
  lemma {:induction false} UntilAppend(a: seq<Step>, b: seq<Step>)
    ensures Until(a + b) == Until(a) + (if Raise in Until(a) then [] else Until(b))
    ensures Raise in Until(a) <==> Raise in a
    ensures Raise !in a ==> Until(a) == a
    ensures Until(b) == [] <==> b == []
  {
    if a == [] {
      assert a + b == b;
    } else {
      UntilAppend(a[1..], b);
      Sequences.HeadTail(a, b);
      Sequences.ConsIs(a);
      if !a[0].Raise? {
        Sequences.Assoc([a[0]], Until(a[1..]), if Raise in Until(a[1..]) then [] else Until(b));
      }
    }
  }

  lemma StartOnly(e: Event)
    requires e.Start?
    ensures BodyOf([e]) == ""
  {
    assert [e][..0] == [];
  }

  lemma OneBody(e: Event, body: string)
    requires e.Start?
    ensures BodyOf([e, Body(body, false)]) == body
  {
    StartOnly(e);
    BodyOfMore([e], Body(body, false));
  }

  lemma {:induction false} JoinedOne(chunks: seq<string>)
    ensures Joined(chunks[..0]) == ""
    ensures |chunks| == 1 ==> Joined(chunks) == chunks[0]
  {
    if |chunks| == 1 {
      assert chunks[..0] == [];
    }
  }

  lemma JoinedMore(chunks: seq<string>, i: nat)
    requires i < |chunks|
    ensures Joined(chunks[..i + 1]) == Joined(chunks[..i]) + chunks[i]
  {
    assert chunks[..i + 1][..i] == chunks[..i];
  }

  lemma ShowsMore(events: seq<Event>, ran: seq<Step>, seen: Seen, work: seq<Step>)
    requires Shows(events, ran, seen)
    ensures Shows(events, work, seen.(ran := work))
  {
  }

  lemma FailureIsPage(s: Server, verb: string)
    requires ServerOk(s)
    ensures Called(s.failure.background) == [] && Delivered(s, s.failure, verb, []).Seen?
  {
  }

  // ---------------------------------------------------------------------
  // Which response is sent
  // ---------------------------------------------------------------------

  function Recover(s: Server, r: Result<Response, Error>): Response {
    match r
    case Ok(response) => response
    case Err(error) => s.handle(error)
  }

  function Chain(callbacks: seq<Callback>, response: Response): Result<Response, Error> {
    if callbacks == [] then Ok(response)
    else
      match callbacks[0](response)
      case Ok(next) => Chain(callbacks[1..], next)
      case Err(error) => Err(error)
  }

  lemma {:induction false} ChainAppend(a: seq<Callback>, b: seq<Callback>, response: Response)
    ensures Chain(a + b, response) ==
      match Chain(a, response)
      case Ok(next) => Chain(b, next)
      case Err(error) => Err(error)
  {
    if a == [] {
      assert a + b == b;
    } else {
      assert (a + b)[1..] == a[1..] + b;
      match a[0](response)
      case Ok(next) => ChainAppend(a[1..], b, next);
      case Err(_) =>
    }
  }

  /** After-request callbacks and finalizers have an exception boundary each. */
  function SlowResponse(s: Server, view: Result<Response, Error>, after: seq<Callback>,
                        finalizers: seq<Callback>): Response {
    s.prepare(Recover(s, Chain(finalizers, Recover(s, Chain(after, Recover(s, view))))))
  }

  /** They share one boundary. */
  function FastResponse(s: Server, view: Result<Response, Error>, after: seq<Callback>,
                        finalizers: seq<Callback>): Response {
    Recover(s,
      match Chain(after, Recover(s, view))
      case Ok(next) => Chain(finalizers, next)
      case Err(error) => Err(error))
  }

  /** The responses in hand one after the other: each callback is given what the one before returned. */
  predicate Leads(s: Server, path: seq<Response>, callbacks: seq<Callback>, r: Response) {
    && 0 < |path| <= |callbacks| + 1
    && (forall i :: 0 < i < |path| ==> callbacks[i - 1](path[i - 1]) == Ok(path[i]))
    && if |path| == |callbacks| + 1 then r == path[|callbacks|]
       else var last := callbacks[|path| - 1](path[|path| - 1]);
            last.Err? && r == s.handle(last.error)
  }

  /**
   * The response that a view's result and the callbacks come to: an exception, wherever it is raised,
   * gives its default error response.
   */
  ghost predicate Chosen(s: Server, view: Result<Response, Error>, callbacks: seq<Callback>, r: Response) {
    exists path: seq<Response> ::
      && Leads(s, path, callbacks, r)
      && path[0] == match view
                    case Ok(response) => response
                    case Err(error) => s.handle(error)
  }

  lemma LeadsFrom(s: Server, first: Response, path: seq<Response>, callbacks: seq<Callback>, r: Response)
    requires callbacks != [] && Leads(s, path, callbacks[1..], r) && callbacks[0](first) == Ok(path[0])
    ensures Leads(s, [first] + path, callbacks, r)
  {
    var whole, rest := [first] + path, callbacks[1..];
    forall i | 0 < i < |whole| ensures callbacks[i - 1](whole[i - 1]) == Ok(whole[i]) {
      if i > 1 {
        assert rest[i - 2](path[i - 2]) == Ok(path[i - 1]);
      }
    }
    assert |path| <= |rest| ==> rest[|path| - 1] == callbacks[|path|] && path[|path| - 1] == whole[|path|];
  }

  lemma {:induction false} ChosenFrom(s: Server, first: Response, callbacks: seq<Callback>)
    returns (path: seq<Response>)
    ensures Leads(s, path, callbacks, Recover(s, Chain(callbacks, first))) && path[0] == first
    decreases |callbacks|
  {
    path := [first];
    if callbacks != [] && callbacks[0](first).Ok? {
      var r := Recover(s, Chain(callbacks, first));
      var rest := ChosenFrom(s, callbacks[0](first).value, callbacks[1..]);
      hide Leads, Chain, Recover;
      LeadsFrom(s, first, rest, callbacks, r);
      path := [first] + rest;
    }
  }

  lemma {:induction false} ChosenIs(s: Server, view: Result<Response, Error>, callbacks: seq<Callback>)
    ensures Chosen(s, view, callbacks, Recover(s, Chain(callbacks, Recover(s, view))))
  {
    var path := ChosenFrom(s, Recover(s, view), callbacks);
    hide Leads, Chain;
  }

  // ---------------------------------------------------------------------
  // What a response that can be sent looks like
  // ---------------------------------------------------------------------

  /** The text of a response's content; a template's once it is rendered. */
  function TextOf(content: Content): string {
    match content
    case Plain(body) => body
    case File(Some(data)) => data
    case Template(Some(rendered)) => rendered
    case Stream(chunks, _) => Joined(chunks)
    case _ => ""
  }

  /** The headers of a response: those of the rendered template, with the length of a body that is known. */
  function HeadersOf(s: Server, r: Response): Option<Headers> {
    var length := if r.status == 205 then Some(0) else if r.content.Stream? then None else Some(|TextOf(r.content)|);
    s.headers(if r.content.Template? then r.(content := Plain(TextOf(r.content))) else r, length)
  }

  /** Its file can be read, its template rendered, and its headers encoded. */
  predicate Sendable(s: Server, r: Response) {
    && (r.content.File? ==> r.content.data.Some?) && (r.content.Template? ==> r.content.rendered.Some?)
    && HeadersOf(s, r).Some?
  }

  /** Its status, its headers and its text, and no text for HEAD and where the status forbids one. */
  predicate Sent(s: Server, events: seq<Event>, r: Response, verb: string) {
    && Sendable(s, r) && events != [] && events[0] == Start(r.status, HeadersOf(s, r).value)
    && BodyOf(events) == (if verb == "HEAD" || r.status == 204 || r.status == 205 || r.status == 304 then ""
                          else TextOf(r.content))
  }

  lemma {:induction false} SendsWhole(s: Server, r: Response, verb: string, work: seq<Step>)
    ensures forall events, ran :: Sendable(s, r) && Shows(events, ran, Delivered(s, r, verb, work)) ==>
      Sent(s, events, r, verb)
  {
    hide BodyOf;
  }

  /** The bridge sends what the view, the callbacks and the finalizers come to, if it can be sent. */
  ghost predicate SlowSends(s: Server, events: seq<Event>, view: Result<Response, Error>, after: seq<Callback>,
                            finalizers: seq<Callback>, verb: string) {
    exists first, r ::
      && Chosen(s, view, after, first) && Chosen(s, Ok(first), finalizers, r)
      && (Sendable(s, s.prepare(r)) ==> Sent(s, events, s.prepare(r), verb))
  }

  /** So does the fast path, which has one exception boundary for callbacks and finalizers. */
  ghost predicate FastSends(s: Server, events: seq<Event>, view: Result<Response, Error>, after: seq<Callback>,
                            finalizers: seq<Callback>, verb: string) {
    exists r ::
      && Chosen(s, view, after + finalizers, r)
      && (Sendable(s, s.prepare(r)) ==> Sent(s, events, s.prepare(r), verb))
  }

  lemma {:induction false} SlowIsSent(s: Server, events: seq<Event>, ran: seq<Step>, view: Result<Response, Error>,
                                      after: seq<Callback>, finalizers: seq<Callback>, verb: string)
    requires Shows(events, ran, SlowSeen(s, true, SlowResponse(s, view, after, finalizers), verb))
    ensures SlowSends(s, events, view, after, finalizers, verb)
  {
    hide Chosen, Delivered, Shows, Chain;
    var first := Recover(s, Chain(after, Recover(s, view)));
    var r := Recover(s, Chain(finalizers, first));
    ChosenIs(s, view, after);
    ChosenIs(s, Ok(first), finalizers);
    SendsWhole(s, s.prepare(r), verb, Called(s.prepare(r).background));
    assert Sendable(s, s.prepare(r)) ==> !Unrendered(s.prepare(r));
    hide Sent, Sendable;
  }

  lemma {:induction false} FastIsSent(s: Server, events: seq<Event>, ran: seq<Step>, view: Result<Response, Error>,
                                      after: seq<Callback>, finalizers: seq<Callback>, verb: string)
    requires ServerOk(s) && Shows(events, ran, FastSeen(s, true, FastResponse(s, view, after, finalizers), verb))
    ensures FastSends(s, events, view, after, finalizers, verb)
  {
    hide Chosen, Delivered, Shows, Chain;
    var first := Recover(s, view);
    ChainAppend(after, finalizers, first);
    var r := Recover(s, Chain(after + finalizers, first));
    ChosenIs(s, view, after + finalizers);
    SendsWhole(s, s.prepare(r), verb, Resolved(r.background));
    assert !Special(r) ==> s.prepare(r) == r && HeadersOf(s, r) == s.headers(r, Length(r));
    hide Sent, ServerOk;
  }

  // ---------------------------------------------------------------------
  // Sending
  // ---------------------------------------------------------------------

  class Exchange {
    const server: Server
    const verb: string
    var events: seq<Event>
    var ran: seq<Step>

    constructor (server: Server, verb: string)
      ensures this.server == server && this.verb == verb && events == [] && ran == []
    {
      this.server, this.verb := server, verb;
      events, ran := [], [];
    }

    method Perform(steps: seq<Step>) returns (raised: bool)
      modifies this`ran
      ensures ran == old(ran) + Until(steps) && (raised <==> Raise in Until(steps))
    {
      raised := false;
      for i := 0 to |steps|
        invariant !raised && ran + Until(steps[i..]) == old(ran) + Until(steps)
        invariant Raise in Until(steps[i..]) <==> Raise in Until(steps)
      {
        assert steps[i..][0] == steps[i] && steps[i..][1..] == steps[i + 1..];
        ran := ran + [steps[i]];
        if steps[i].Raise? {
          assert Until(steps[i..]) == [Raise];
          return true;
        }
      }
    }

    /** `background()`. */
    method CallBackground(b: Background) returns (raised: bool)
      modifies this`ran
      ensures ran == old(ran) + Called(Some(b)) && (raised <==> Raise in Called(Some(b)))
    {
      if b.Bare? {
        raised := Perform(b.called);
        return;
      }
      raised := false;
      for i := 0 to |b.tasks|
        invariant !raised && ran + Until(AllOf(b.tasks[i..])) == old(ran) + Until(AllOf(b.tasks))
        invariant Raise in Until(AllOf(b.tasks[i..])) <==> Raise in Until(AllOf(b.tasks))
      {
        assert b.tasks[i..][0] == b.tasks[i] && b.tasks[i..][1..] == b.tasks[i + 1..];
        UntilAppend(b.tasks[i], AllOf(b.tasks[i + 1..]));
        ghost var before := ran;
        raised := Perform(b.tasks[i]);
        Sequences.Assoc(before, Until(b.tasks[i]), Until(AllOf(b.tasks[i + 1..])));
        if raised {
          return;
        }
      }
    }

    /** A background as it is called, or within a `BackgroundTask`. */
    method RunBackground(r: Response, wrapped: bool) returns (raised: bool)
      modifies this`ran
      ensures ran == old(ran) + Work(r.background, wrapped) && (raised <==> Raise in Work(r.background, wrapped))
    {
      raised := false;
      Sequences.Nil(ran);
      if r.background.Some? {
        raised := CallBackground(r.background.value);
        if wrapped && r.background.value.Bare? {
          UntilAppend(r.background.value.called, r.background.value.awaited);
          if !raised {
            ghost var before := old(ran);
            raised := Perform(r.background.value.awaited);
            Sequences.Assoc(before, Until(r.background.value.called), Until(r.background.value.awaited));
          }
        }
      }
    }

    method SendFailure(ghost work: seq<Step>)
      requires events == []
      modifies this`events
      ensures Shows(events, work, Failed(server, work))
    {
      var body := if server.failure.content.Plain? then server.failure.content.body else "";
      events := [Start(500, []), Body(body, false)];
      OneBody(Start(500, []), body);
    }

    /** The length `_Body` announces. */
    method Measure(r: Response) returns (length: Option<nat>)
      requires !r.content.Template? && (r.content.File? ==> r.content.data.Some?)
      ensures length == Length(r)
    {
      if r.content.File? {
        length := Some(|r.content.data.value|);
      } else if r.content.Stream? {
        length := None;
      } else {
        length := Some(|r.content.body|);
      }
      if r.status == 205 {
        length := Some(0);
      }
    }

    /** `respond` for a response in hand: render, open, send, and run the background at the end. */
    method Deliver(response: Response, wrapped: bool)
      requires events == []
      modifies this`events, this`ran
      ensures var work := Work(response.background, wrapped);
        ran == old(ran) + work && Shows(events, work, Delivered(server, response, verb, work))
      ensures Sendable(server, response) ==> Sent(server, events, response, verb)
    {
      SendsWhole(server, response, verb, Work(response.background, wrapped));
      hide BodyOf, ShowsAnswer, Work;
      ghost var work := Work(response.background, wrapped);
      var r, raised := response, false;
      if r.content.Template? {
        if r.content.rendered.None? {
          raised := RunBackground(r, wrapped);
          if !raised {
            SendFailure(work);
          }
          return;
        }
        r := r.(content := Plain(r.content.rendered.value));
      }
      if r.content.File? && r.content.data.None? {
        raised := RunBackground(r, wrapped);
        if !raised {
          SendFailure(work);
        }
        return;
      }
      var length := Measure(r);
      var headers := server.headers(r, length);
      if headers.None? {
        SendFailure(work);
        raised := RunBackground(r, wrapped);
        return;
      }
      SendBody(r, headers.value, work);
      raised := RunBackground(r, wrapped);
    }

    /** The start event, the chunks, and the empty last chunk unless iteration fails. */
    method SendBody(r: Response, headers: Headers, ghost work: seq<Step>)
      requires events == [] && !r.content.Template?
      requires (r.content.File? ==> r.content.data.Some?) && server.headers(r, Length(r)) == Some(headers)
      modifies this`events
      ensures Shows(events, work, DeliveredReady(server, r, verb, work))
    {
      hide BodyOf, Joined;
      events := [Start(r.status, headers)];
      StartOnly(events[0]);
      var suppress := verb == "HEAD" || r.status in {204, 205, 304};
      if !suppress {
        var chunks :=
          match r.content
          case Plain(body) => [body]
          case File(data) => [data.value]
          case Stream(chunks, _) => chunks;
        JoinedOne(chunks);
        for i := 0 to |chunks|
          invariant events != [] && events[0] == Start(r.status, headers)
          invariant forall k :: 0 < k < |events| ==> events[k].Body? && events[k].more
          invariant BodyOf(events) == Joined(chunks[..i])
        {
          BodyOfMore(events, Body(chunks[i], true));
          JoinedMore(chunks, i);
          events := events + [Body(chunks[i], true)];
        }
        assert chunks[..|chunks|] == chunks;
        if r.content.Stream? && r.content.fails {
          return;
        }
      }
      BodyOfMore(events, Body("", false));
      assert BodyOf(events) + "" == BodyOf(events);
      events := events + [Body("", false)];
    }

    /** The fast path's own branch: two events, for a plain response whose background counts as false. */
    method SendPlain(r: Response)
      requires events == [] && ran == [] && !Special(r) && server.headers(r, Length(r)).Some?
      modifies this`events, this`ran
      ensures ran == Resolved(r.background) && Shows(events, ran, Delivered(server, r, verb, ran))
      ensures Sent(server, events, r, verb)
    {
      var length := if r.status == 205 then 0 else |r.content.body|;
      var headers := server.headers(r, Some(length)).value;
      var suppressed := verb == "HEAD" || r.status in {204, 205, 304};
      var body := if suppressed then "" else r.content.body;
      events := [Start(r.status, headers), Body(body, false)];
      OneBody(events[0], body);
      var raised := RunBackground(r, true);
      Sequences.Nil(Resolved(r.background));
      SendsWhole(server, r, verb, ran);
    }

    /** Apply callbacks in turn; the first that raises gives an error response. */
    method Apply(callbacks: seq<Callback>, response: Response) returns (r: Response)
      ensures r == Recover(server, Chain(callbacks, response))
    {
      r := response;
      for i := 0 to |callbacks|
        invariant Chain(callbacks, response) == Chain(callbacks[i..], r)
      {
        assert callbacks[i..][0] == callbacks[i] && callbacks[i..][1..] == callbacks[i + 1..];
        var next := callbacks[i](r);
        if next.Err? {
          return server.handle(next.error);
        }
        r := next.value;
      }
    }

    /** The worker path: `_dispatch`, then the gateway. */
    method Slow(begins: bool, view: Result<Response, Error>, after: seq<Callback>, finalizers: seq<Callback>)
      requires ServerOk(server) && events == [] && ran == []
      modifies this`events, this`ran
      ensures Shows(events, ran, SlowSeen(server, begins, SlowResponse(server, view, after, finalizers), verb))
      ensures begins ==> SlowSends(server, events, view, after, finalizers, verb)
    {
      hide ShowsAnswer, Delivered, Chain, ServerOk, Recover, Called, Resolved, SlowSends;
      if !begins {
        SendFailure([]);
        return;
      }
      var response := Recover(server, view);
      response := Apply(after, response);
      response := Apply(finalizers, response);
      response := server.prepare(response);
      ghost var work := Called(response.background);
      Sequences.Nil(work);
      if Unrendered(response) {
        var raised := RunBackground(response, false);
        if raised {
          SendFailure(work);
        } else {
          FailureIsPage(server, verb);
          Deliver(server.failure, false);
          Sequences.Nil(ran);
          ShowsMore(events, [], Delivered(server, server.failure, verb, []), work);
        }
      } else {
        Deliver(response, false);
      }
      SlowIsSent(server, events, ran, view, after, finalizers, verb);
    }

    /** The event-loop path; headers that cannot be encoded give the page for the exception. */
    method Fast(begins: bool, view: Result<Response, Error>, after: seq<Callback>, finalizers: seq<Callback>)
      requires ServerOk(server) && events == [] && ran == []
      modifies this`events, this`ran
      ensures Shows(events, ran, FastSeen(server, begins, FastResponse(server, view, after, finalizers), verb))
      ensures begins ==> FastSends(server, events, view, after, finalizers, verb)
    {
      hide ShowsAnswer, Delivered, Chain, Called, Resolved, FastSends;
      if !begins {
        return;
      }
      var response := Recover(server, view);
      ChainAppend(after, finalizers, response);
      response := Apply(after + finalizers, response);
      if Special(response) {
        Deliver(server.prepare(response), true);
        Sequences.Nil(Resolved(response.background));
      } else {
        if server.headers(response, Length(response)).None? {
          NothingResolved();
          response := server.handle(server.unencodable);
        }
        SendPlain(response);
      }
      FastIsSent(server, events, ran, view, after, finalizers, verb);
    }
  }

  // ---------------------------------------------------------------------
  // When the two paths answer alike
  // ---------------------------------------------------------------------

  predicate Complete(events: seq<Event>) {
    |events| > 1 && events[|events| - 1].Body? && !events[|events| - 1].more
  }

  /** Both or neither answer; the same status, headers, body and end on the wire; the same background. */
  predicate SameAnswer(a: seq<Event>, ranA: seq<Step>, b: seq<Event>, ranB: seq<Step>) {
    && ranA == ranB && (a == [] <==> b == [])
    && (a != [] && b != [] ==> a[0] == b[0] && BodyOf(a) == BodyOf(b) && Complete(a) == Complete(b))
  }

  lemma {:induction false} SeenDecides(a: seq<Event>, ranA: seq<Step>, seenA: Seen,
                                       b: seq<Event>, ranB: seq<Step>, seenB: Seen)
    requires Shows(a, ranA, seenA) && Shows(b, ranB, seenB)
    ensures SameAnswer(a, ranA, b, ranB) <==> seenA == seenB
  {
    hide BodyOf;
  }

  /** A callable that is no task, gets to its end, and returns an awaitable with work left to do. */
  predicate Unawaited(b: Option<Background>) {
    b.Some? && b.value.Bare? && Raise !in b.value.called && b.value.awaited != []
  }

  lemma ResolvedIsCalled(b: Option<Background>)
    ensures Resolved(b) == Called(b) <==> !Unawaited(b)
    ensures Raise in Called(b) ==> Raise in Resolved(b)
  {
    if b.Some? && b.value.Bare? {
      UntilAppend(b.value.called, b.value.awaited);
      Sequences.Nil(Until(b.value.called));
      assert Until(b.value.awaited) != [] <==> b.value.awaited != [] by {
        UntilAppend([], b.value.awaited);
      }
    }
  }

  /**
   * The response can be rendered; where it is plain and its background is none, has no tasks or
   * counts as false, its headers can be encoded; and its background leaves no awaitable to resolve.
   */
  predicate Answerable(s: Server, r: Response) {
    && (r.content.Template? ==> r.content.rendered.Some?)
    && (r.content.Plain? && (r.background.None? || r.background == Some(Owned([]))
                             || (r.background.value.Bare? && !r.background.value.truthy)) ==>
          HeadersOf(s, r).Some?)
    && !Unawaited(r.background)
  }

  lemma SeenAgree(s: Server, begins: bool, verb: string, r: Response)
    requires ServerOk(s)
    ensures FastSeen(s, begins, r, verb) == SlowSeen(s, begins, s.prepare(r), verb) <==> begins && Answerable(s, r)
  {
    ResolvedIsCalled(r.background);
    hide Called, Resolved, Unawaited;
    if begins {
      if Unrendered(r) || (!Special(r) && s.headers(r, Length(r)).None?) {
        assert !Special(s.failure) && !Special(s.handle(s.unencodable));
      } else {
        hide Delivered;
      }
    }
  }

  /**
   * Without finalizers, which only the session middleware registers and it keeps a route off the
   * fast path, what the two paths send and run is the same exactly when the request can be begun
   * and the response is not a template that fails to render, nor a plain one whose headers cannot
   * be encoded, nor one with a bare callable as background that returns an awaitable with work to do.
   */
  lemma FastShowsSlow(fast: Exchange, slow: Exchange, begins: bool, view: Result<Response, Error>,
                      after: seq<Callback>)
    requires fast.server == slow.server && fast.verb == slow.verb && ServerOk(fast.server)
    requires Shows(fast.events, fast.ran,
                   FastSeen(fast.server, begins, FastResponse(fast.server, view, after, []), fast.verb))
    requires Shows(slow.events, slow.ran,
                   SlowSeen(slow.server, begins, SlowResponse(slow.server, view, after, []), slow.verb))
    ensures SameAnswer(fast.events, fast.ran, slow.events, slow.ran)
       <==> begins && Answerable(fast.server, FastResponse(fast.server, view, after, []))
  {
    hide Shows, SameAnswer, FastSeen, SlowSeen, Answerable;
    var s, response := fast.server, FastResponse(fast.server, view, after, []);
    SeenAgree(s, begins, fast.verb, response);
    SeenDecides(fast.events, fast.ran, FastSeen(s, begins, response, fast.verb),
                slow.events, slow.ran, SlowSeen(s, begins, s.prepare(response), fast.verb));
  }

  /** Both paths on one request. */
  method AnswerBoth(server: Server, verb: string, begins: bool, view: Result<Response, Error>, after: seq<Callback>)
    returns (fast: Exchange, slow: Exchange)
    requires ServerOk(server)
    ensures fresh(fast) && fresh(slow)
    ensures SameAnswer(fast.events, fast.ran, slow.events, slow.ran)
       <==> begins && Answerable(server, FastResponse(server, view, after, []))
  {
    hide ServerOk, Shows, SameAnswer, FastSeen, SlowSeen, Answerable;
    fast := new Exchange(server, verb);
    slow := new Exchange(server, verb);
    fast.Fast(begins, view, after, []);
    slow.Slow(begins, view, after, []);
    FastShowsSlow(fast, slow, begins, view, after);
  }

  const JAPAN := ("x-name", "\U{65E5}\U{672C}")
  const PAGE := Response(500, [], Plain("error"), None)
  const PAGE_HEADERS := [("content-type", "text/html")]

  /** A server on which only one header cannot be encoded. */
  function Example(): Server {
    Server((e: Error) => PAGE,
           (r: Response, n: Option<nat>) => if JAPAN in r.fields then None else Some(PAGE_HEADERS),
           0, (r: Response) => r, PAGE)
  }

  /** A template that fails to render: the fast path sends its page without headers. */
  lemma {:induction false} TemplateDiffers(verb: string)
    ensures var r := Response(200, [], Template(None), None);
      && ServerOk(Example()) && !Answerable(Example(), r)
      && FastResponse(Example(), Ok(r), [], []) == r
      && FastSeen(Example(), true, r, verb) == Failed(Example(), [])
      && SlowSeen(Example(), true, Example().prepare(r), verb).Seen?
      && SlowSeen(Example(), true, Example().prepare(r), verb).headers == PAGE_HEADERS
  {
  }

  /** A header outside Latin-1: the fast path sends a page with headers, the slow path one without. */
  lemma {:induction false} HeaderDiffers(verb: string)
    ensures var r := Response(200, [JAPAN], Plain("ok"), None);
      && ServerOk(Example()) && !Answerable(Example(), r)
      && FastResponse(Example(), Ok(r), [], []) == r
      && FastSeen(Example(), true, r, verb).Seen? && FastSeen(Example(), true, r, verb).headers == PAGE_HEADERS
      && SlowSeen(Example(), true, Example().prepare(r), verb) == Failed(Example(), [])
  {
    assert JAPAN in [JAPAN];
  }

  /** A coroutine function as background: the fast path runs it, the slow path never starts it. */
  lemma {:induction false} BackgroundDiffers(verb: string, task: nat)
    ensures var r := Response(200, [], Plain("ok"), Some(Bare([], [Did(task)], true)));
      && ServerOk(Example()) && !Answerable(Example(), r)
      && FastResponse(Example(), Ok(r), [], []) == r
      && FastSeen(Example(), true, r, verb).ran == [Did(task)]
      && SlowSeen(Example(), true, Example().prepare(r), verb)
         == FastSeen(Example(), true, r, verb).(ran := [])
  {
    var work := [Did(task)];
    assert [] + work == work && work[1..] == [];
    assert Until(work) == work;
  }
}
