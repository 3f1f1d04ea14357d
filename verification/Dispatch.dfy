/**
 * The lifecycle of one request in `_dispatch`: exception boundaries, finalizers, teardown and the
 * work left to the response's background. Every user callback is a nondeterministic step that
 * may register dependency cleanups and may raise; what is followed is when the cleanups run, and
 * whose background work is done.
 */
module Dispatch {
  import opened Wrappers
  import Sequences

  type Task = nat

  /** Why control left a callback: it returned, raised an Exception, or another BaseException. */
  datatype Raised = Nothing | Exception | Base

  datatype Event = Ran(task: Task, raised: Raised) | Cleaned(cleanup: Task) | CloseRequest

  /** Which part of `_dispatch` calls user code; a handler answers for the part whose exception it gets. */
  datatype Stage = View | After | Finalizer | Prepare | Signal | Handler(boundary: Stage)

  /** A list of dependency cleanups, shared between the request state, a local and the background. */
  class CleanupList {
    var items: seq<Task>

    constructor (items: seq<Task>)
      ensures this.items == items
    {
      this.items := items;
    }
  }

  /**
   * What a response runs once it is sent: user tasks, which may be the request's own task object;
   * any other callable, what calling it does and what the awaitable it returns would do;
   * `_finish_response_work` with the cleanup list;
   * or `_finish_response_work` with the closing of the request.
   */
  datatype Work =
    | Tasks(tasks: seq<Task>, shared: bool)
    | Bare(called: seq<Task>, awaited: seq<Task>)
    | ThenClean(inner: Option<Work>, list: CleanupList)
    | ThenClose(inner: Option<Work>)

  /**
   * One call of user code: whether it raised, else the background of the response then in hand; and
   * what the request holds after it.
   */
  datatype Answer = Answer(stage: Stage, raised: Raised, background: Option<Work>, tasks: seq<Task>,
                           registered: seq<Task>, holds: bool)

  /** An exception boundary catches it. */
  predicate Caught(a: Answer) {
    a.raised == Exception && (a.stage.View? || a.stage.After? || a.stage.Finalizer?)
  }

  function Rank(stage: Stage): nat {
    match stage
    case View => 0
    case After => 1
    case Finalizer => 2
    case Prepare => 3
    case Signal => 4
    case Handler(boundary) => Rank(boundary)
  }

  /**
   * What may follow what: a caught exception goes to its handler, and nothing else does; the stages
   * come in order, hooks may be many; file preparation keeps the background; whatever else raises is
   * the last.
   */
  predicate Next(a: Answer, b: Answer, runHooks: bool) {
    if Caught(a) then b.stage == Handler(a.stage)
    else
      && a.raised == Nothing
      && (b.stage.After? || b.stage.Signal? ==> runHooks)
      && match b.stage
         case After => a.stage.After? || Rank(a.stage) < 1
         case Finalizer => a.stage.Finalizer? || Rank(a.stage) < 2
         case Prepare => Rank(a.stage) < 3 && (b.raised == Nothing ==> b.background == a.background)
         case Signal => a.stage.Prepare?
         case _ => false
  }

  predicate Flows(calls: seq<Answer>, runHooks: bool) {
    (calls != [] ==> calls[0].stage.View?) && forall i | 0 < i < |calls| :: Next(calls[i - 1], calls[i], runHooks)
  }

  lemma FlowsMore(calls: seq<Answer>, a: Answer, runHooks: bool)
    requires Flows(calls, runHooks)
    requires if calls == [] then a.stage.View? else Next(calls[|calls| - 1], a, runHooks)
    ensures Flows(calls + [a], runHooks)
  {
    hide Next;
  }

  /** How the calls so far left things: with a response in hand, or with an exception nobody catches. */
  predicate Leaves(calls: seq<Answer>, raised: Raised, background: Option<Work>) {
    && calls != [] && !Caught(calls[|calls| - 1]) && calls[|calls| - 1].raised == raised
    && (raised == Nothing ==> calls[|calls| - 1].background == background)
  }

  /** The whole flow: without an exception that gets out, it ends with the last stage there is. */
  predicate Ends(calls: seq<Answer>, runHooks: bool, raised: Raised, background: Option<Work>) {
    && Flows(calls, runHooks) && Leaves(calls, raised, background)
    && (raised == Nothing ==> calls[|calls| - 1].stage == if runHooks then Signal else Prepare)
  }

  class Response {
    var background: Option<Work>

    constructor (background: Option<Work>)
      ensures this.background == background
    {
      this.background := background;
    }
  }

  function Reverse(s: seq<Task>): (r: seq<Task>) {
    if s == [] then [] else Reverse(s[1..]) + [s[0]]
  }

  /** The cleanups a log invoked, in order. */
  function Cleanings(log: seq<Event>): seq<Task> {
    if log == [] then []
    else
      var last := |log| - 1;
      Cleanings(log[..last]) + (if log[last].Cleaned? then [log[last].cleanup] else [])
  }

  function CleanedEvents(cleanups: seq<Task>): seq<Event> {
    seq(|cleanups|, i requires 0 <= i < |cleanups| => Cleaned(cleanups[i]))
  }

  /** Runs of tasks of which only the last may have raised; it is what ends them. */
  predicate Runs(events: seq<Event>, raised: Raised) {
    && (forall i :: 0 <= i < |events| ==> events[i].Ran?)
    && (forall i :: 0 <= i < |events| - 1 ==> events[i].raised == Nothing)
    && raised == if events == [] then Nothing else events[|events| - 1].raised
  }

  function TasksOf(events: seq<Event>): seq<Task>
    requires forall i :: 0 <= i < |events| ==> events[i].Ran?
  {
    seq(|events|, i requires 0 <= i < |events| => events[i].task)
  }

  predicate UserWork(work: Option<Work>) {
    work.Some? ==> work.value.Tasks? || work.value.Bare?
  }

  /** A response whose background is the user's own. */
  ghost predicate UserResponse(response: Response)
    reads response
  {
    UserWork(response.background)
  }

  lemma {:induction false} CleaningsAppend(log: seq<Event>, more: seq<Event>)
    ensures Cleanings(log + more) == Cleanings(log) + Cleanings(more)
  {
    if more == [] {
      assert log + more == log;
    } else {
      var last := |more| - 1;
      assert (log + more)[..|log + more| - 1] == log + more[..last];
      CleaningsAppend(log, more[..last]);
    }
  }

  lemma CleaningsOfCleaned(cleanups: seq<Task>)
    ensures Cleanings(CleanedEvents(cleanups)) == cleanups
  {
    if cleanups != [] {
      var last := |cleanups| - 1;
      CleaningsOfCleaned(cleanups[..last]);
      assert CleanedEvents(cleanups)[..last] == CleanedEvents(cleanups[..last]);
    }
  }

  /**
   * The request: its entry for dependency cleanups, its background tasks, whether it holds a body
   * file, uploads or an await bridge, and what happened so far. `registered` is the history of every
   * registration, `calls` that of every call of user code, and `torn` says how teardown ended.
   */
  class Request {
    var cleanups: CleanupList?
    var tasks: seq<Task>
    var log: seq<Event>
    var holds: bool
    ghost var registered: seq<Task>
    ghost var calls: seq<Answer>
    ghost var torn: Raised

    constructor (holds: bool)
      ensures Untouched() && tasks == [] && this.holds == holds
    {
      cleanups, tasks, log, this.holds := null, [], [], holds;
      registered, calls, torn := [], [], Nothing;
    }

    ghost predicate Untouched()
      reads this
    {
      cleanups == null && registered == [] && log == [] && calls == [] && torn == Nothing
    }

    /** Only user code changes what the request holds. */
    ghost predicate AsLeft()
      reads this`calls, this`tasks, this`registered, this`holds
    {
      calls != [] ==>
        && tasks == calls[|calls| - 1].tasks && registered == calls[|calls| - 1].registered
        && holds == calls[|calls| - 1].holds
    }

    /** Every cleanup registered is in the request state, and none has run. */
    ghost predicate Open()
      reads this, cleanups
    {
      && (cleanups == null ==> registered == [])
      && (cleanups != null ==> cleanups.items == registered)
    }

    /** `cleanups = state.setdefault(...); cleanups.append(...)`. */
    method Register(cleanup: Task)
      requires Open()
      modifies this`cleanups, this`registered, cleanups
      ensures Open() && registered == old(registered) + [cleanup]
      ensures cleanups == old(cleanups) || fresh(cleanups)
    {
      if cleanups == null {
        cleanups := new CleanupList([]);
      }
      cleanups.items := cleanups.items + [cleanup];
      registered := registered + [cleanup];
    }

    /** Any user code before the response is settled: hooks, views, handlers, finalizers, signals. */
    method UserCode(stage: Stage) returns (raised: Raised, response: Response)
      requires Open()
      modifies this`cleanups, this`registered, this`tasks, this`holds, this`calls, cleanups
      ensures Open() && (cleanups == old(cleanups) || fresh(cleanups))
      ensures old(registered) <= registered
      ensures fresh(response) && UserResponse(response)
      ensures calls == old(calls) + [Answer(stage, raised, response.background, tasks, registered, holds)]
    {
      var count: nat := *;
      while count > 0
        invariant Open() && (cleanups == old(cleanups) || fresh(cleanups))
        invariant old(registered) <= registered && calls == old(calls)
      {
        var cleanup: Task := *;
        Register(cleanup);
        count := count - 1;
      }
      tasks, holds, raised := *, *, *;
      var own: Option<Work> := *;
      response := new Response(if UserWork(own) then own else None);
      calls := calls + [Answer(stage, raised, response.background, tasks, registered, holds)];
    }

    /** `except Exception: response = make_response(self._handle_exception(...))`. */
    method Handle(stage: Stage, runHooks: bool, raisedBefore: Raised, responseBefore: Response)
      returns (raised: Raised, response: Response)
      requires Open() && AsLeft() && Flows(calls, runHooks) && UserResponse(responseBefore)
      requires calls != [] && calls[|calls| - 1].raised == raisedBefore
      requires raisedBefore == Nothing ==> calls[|calls| - 1].background == responseBefore.background
      requires raisedBefore != Nothing ==> calls[|calls| - 1].stage == stage
      requires stage.View? || stage.After? || stage.Finalizer?
      modifies this`cleanups, this`registered, this`tasks, this`holds, this`calls, cleanups
      ensures Open() && (cleanups == old(cleanups) || fresh(cleanups)) && AsLeft()
      ensures Flows(calls, runHooks) && Leaves(calls, raised, response.background)
      ensures calls == old(calls) || calls[|calls| - 1].stage == Handler(stage)
      ensures UserResponse(response) && (response == responseBefore || fresh(response))
    {
      raised, response := raisedBefore, responseBefore;
      if raised == Exception {
        raised, response := UserCode(Handler(stage));
        FlowsMore(old(calls), calls[|calls| - 1], runHooks);
      }
    }

    /** The call itself, in its exception boundary. */
    method CallView(runHooks: bool) returns (raised: Raised, response: Response)
      requires Open() && calls == []
      modifies this`cleanups, this`registered, this`tasks, this`holds, this`calls, cleanups
      ensures Open() && (cleanups == old(cleanups) || fresh(cleanups)) && AsLeft()
      ensures Flows(calls, runHooks) && Leaves(calls, raised, response.background)
      ensures Rank(calls[|calls| - 1].stage) == 0
      ensures fresh(response) && UserResponse(response)
    {
      raised, response := UserCode(View);
      raised, response := Handle(View, runHooks, raised, response);
    }

    /** The hooks of one boundary, each given the response of the one before. */
    method CallHooks(stage: Stage, runHooks: bool, given: Response) returns (raised: Raised, response: Response)
      requires Open() && AsLeft() && Flows(calls, runHooks) && UserResponse(given)
      requires Leaves(calls, Nothing, given.background) && Rank(calls[|calls| - 1].stage) < Rank(stage)
      requires stage.Finalizer? || (stage.After? && runHooks)
      modifies this`cleanups, this`registered, this`tasks, this`holds, this`calls, cleanups
      ensures Open() && (cleanups == old(cleanups) || fresh(cleanups)) && AsLeft()
      ensures Flows(calls, runHooks) && Leaves(calls, raised, response.background)
      ensures Rank(calls[|calls| - 1].stage) <= Rank(stage)
      ensures UserResponse(response) && (response == given || fresh(response))
    {
      raised, response := Nothing, given;
      var count: nat := *;
      while count > 0 && raised == Nothing
        invariant Open() && (cleanups == old(cleanups) || fresh(cleanups)) && AsLeft()
        invariant calls != [] && Flows(calls, runHooks) && calls[|calls| - 1].raised == raised
        invariant raised == Nothing ==> calls[|calls| - 1].background == response.background
        invariant raised != Nothing ==> calls[|calls| - 1].stage == stage
        invariant Rank(calls[|calls| - 1].stage) < Rank(stage) || calls[|calls| - 1].stage == stage
        invariant UserResponse(response) && (response == given || fresh(response))
        decreases count
      {
        ghost var before := calls;
        raised, response := UserCode(stage);
        FlowsMore(before, calls[|calls| - 1], runHooks);
        count := count - 1;
      }
      raised, response := Handle(stage, runHooks, raised, response);
    }

    /** `_prepare_file_response`, whose answer has the background of the response it was given. */
    method PrepareFile(runHooks: bool, given: Response) returns (raised: Raised, response: Response)
      requires AsLeft() && Flows(calls, runHooks) && UserResponse(given)
      requires Leaves(calls, Nothing, given.background) && Rank(calls[|calls| - 1].stage) < 3
      modifies this`calls
      ensures AsLeft() && Flows(calls, runHooks) && Leaves(calls, raised, response.background)
      ensures calls[|calls| - 1].stage == Prepare
      ensures UserResponse(response) && (response == given || fresh(response))
    {
      raised := *;
      var other: bool := *;
      response := given;
      if other {
        response := new Response(given.background);
      }
      calls := calls + [Answer(Prepare, raised, response.background, tasks, registered, holds)];
      FlowsMore(old(calls), calls[|calls| - 1], runHooks);
    }

    /** The finished signal, whose receivers may change the response they are shown. */
    method SendFinished(runHooks: bool, given: Response) returns (raised: Raised)
      requires Open() && AsLeft() && Flows(calls, runHooks) && UserResponse(given) && runHooks
      requires Leaves(calls, Nothing, given.background) && calls[|calls| - 1].stage == Prepare
      modifies this`cleanups, this`registered, this`tasks, this`holds, this`calls, cleanups, given
      ensures Open() && (cleanups == old(cleanups) || fresh(cleanups)) && AsLeft()
      ensures Flows(calls, runHooks) && Leaves(calls, raised, given.background)
      ensures calls[|calls| - 1].stage == Signal && UserResponse(given)
    {
      var changed;
      raised, changed := UserCode(Signal);
      given.background := changed.background;
      FlowsMore(old(calls), calls[|calls| - 1], runHooks);
    }

    /** The teardown functions, which may raise. */
    method TearDown() returns (raised: Raised)
      modifies this`torn
      ensures torn == raised
    {
      raised := *;
      torn := raised;
    }

    /** One cleanup, which may raise anything once it was invoked. */
    method Invoke(cleanup: Task) returns (raised: Raised)
      modifies this`log
      ensures log == old(log) + [Cleaned(cleanup)]
    {
      log := log + [Cleaned(cleanup)];
      raised := *;
    }

    /** `_run_dependency_cleanups`: newest first, and whatever one raises is logged and dropped. */
    method RunCleanups(list: CleanupList)
      modifies this`log
      ensures log == old(log) + CleanedEvents(Reverse(list.items))
      ensures Cleanings(log) == Cleanings(old(log)) + Reverse(list.items)
      ensures list.items == [] ==> log == old(log)
    {
      var i := |list.items|;
      while i > 0
        invariant 0 <= i <= |list.items|
        invariant log == old(log) + CleanedEvents(Reverse(list.items[i..]))
      {
        i := i - 1;
        var dropped := Invoke(list.items[i]);
      }
      CleaningsAppend(old(log), CleanedEvents(Reverse(list.items)));
      CleaningsOfCleaned(Reverse(list.items));
    }

    /** `_close_request`; it may raise after it has done its work. */
    method Close() returns (raised: Raised)
      modifies this`log
      ensures log == old(log) + [CloseRequest] && Cleanings(log) == Cleanings(old(log))
    {
      assert (log + [CloseRequest])[..|log|] == log;
      log := log + [CloseRequest];
      raised := *;
    }

    /** `state.pop("_higuma_dependency_cleanups", [])`. */
    method PopCleanups() returns (list: CleanupList)
      modifies this`cleanups
      ensures cleanups == null
      ensures if old(cleanups) == null then fresh(list) && list.items == [] else list == old(cleanups)
    {
      if cleanups == null {
        list := new CleanupList([]);
      } else {
        list := cleanups;
      }
      cleanups := null;
    }
  }

  /** The cleanup list a finished response's background refers to. */
  function SharedList(background: Option<Work>): set<CleanupList> {
    match background
    case Some(ThenClose(Some(ThenClean(_, list)))) => {list}
    case _ => {}
  }

  ghost predicate LeavesAll(background: Option<Work>, registered: seq<Task>)
    reads SharedList(background)
  {
    match background
    case Some(ThenClose(Some(ThenClean(inner, list)))) =>
      list.items == registered && UserWork(inner)
    case _ => false
  }

  ghost predicate LeavesNone(background: Option<Work>) {
    match background
    case None => true
    case Some(ThenClose(inner)) => UserWork(inner)
    case _ => false
  }

  lemma NothingCleaned()
    ensures Cleanings([]) == [] && Reverse([]) == []
    ensures forall s: seq<Task> :: [] + s == s && s + [] == s
  {
  }

  /**
   * The steps up to the point where the request state gives up its cleanups: the call itself, the
   * after-request hooks, the finalizers, file preparation and the finished signal.
   */
  method Respond(request: Request, runHooks: bool) returns (raised: Raised, response: Response)
    requires request.Open() && request.calls == []
    modifies request`cleanups, request`registered, request`tasks, request`holds, request`calls, request.cleanups
    ensures request.Open() && (request.cleanups == old(request.cleanups) || fresh(request.cleanups))
    ensures fresh(response) && UserResponse(response)
    ensures request.AsLeft() && Ends(request.calls, runHooks, raised, response.background)
  {
    hide Flows;
    raised, response := request.CallView(runHooks);
    if raised == Nothing && runHooks {
      raised, response := request.CallHooks(After, runHooks, response);
    }
    if raised == Nothing {
      raised, response := request.CallHooks(Finalizer, runHooks, response);
    }
    if raised == Nothing {
      raised, response := request.PrepareFile(runHooks, response);
    }
    if raised == Nothing && runHooks {
      raised := request.SendFinished(runHooks, response);
    }
  }

  /** All the user work in a background. */
  function TasksIn(work: Option<Work>): seq<Task> {
    match work
    case None => []
    case Some(Tasks(tasks, _)) => tasks
    case Some(Bare(called, awaited)) => called + awaited
    case Some(ThenClean(inner, _)) => TasksIn(inner)
    case Some(ThenClose(inner)) => TasksIn(inner)
  }

  /** The user work that calling it does; an awaitable that a bare callable returns is dropped. */
  function CalledIn(work: Option<Work>): seq<Task> {
    match work
    case None => []
    case Some(Tasks(tasks, _)) => tasks
    case Some(Bare(called, _)) => called
    case Some(ThenClean(inner, _)) => CalledIn(inner)
    case Some(ThenClose(inner)) => CalledIn(inner)
  }

  /** The innermost background is a bare callable that returns an awaitable with work to do. */
  predicate Unawaited(work: Option<Work>) {
    match work
    case Some(Bare(_, awaited)) => awaited != []
    case Some(ThenClean(inner, _)) => Unawaited(inner)
    case Some(ThenClose(inner)) => Unawaited(inner)
    case _ => false
  }

  lemma {:induction false} CalledIsAll(work: Option<Work>)
    ensures CalledIn(work) <= TasksIn(work)
    ensures CalledIn(work) == TasksIn(work) <==> !Unawaited(work)
  {
    if work.Some? {
      match work.value
      case ThenClean(inner, _) => CalledIsAll(inner);
      case ThenClose(inner) => CalledIsAll(inner);
      case _ =>
    }
  }

  predicate EndsWith(s: seq<Task>, tail: seq<Task>) {
    |tail| <= |s| && s[|s| - |tail|..] == tail
  }

  /** The request's tasks come after the response's own, unless those are the same object: then once. */
  function Merged(own: Option<Work>, tasks: seq<Task>): seq<Task> {
    if tasks == [] then TasksIn(own)
    else if own.None? || (own.value.Tasks? && own.value.shared) then tasks
    else TasksIn(own) + tasks
  }

  /** What nobody awaits; with tasks of the request, a bare callable is wrapped and resolved. */
  function Dropped(own: Option<Work>, tasks: seq<Task>): seq<Task> {
    if tasks == [] && own.Some? && own.value.Bare? then own.value.awaited else []
  }

  predicate TasksMerged(own: Option<Work>, tasks: seq<Task>, after: Option<Work>) {
    && TasksIn(after) == Merged(own, tasks)
    && CalledIn(after) + Dropped(own, tasks) == Merged(own, tasks)
    && (Unawaited(after) <==> tasks == [] && Unawaited(own))
  }

  /** Merges the request's background tasks into the response's, which may be the same object. */
  method MergeTasks(request: Request, response: Response)
    requires UserResponse(response)
    modifies response
    ensures UserResponse(response) && EndsWith(TasksIn(response.background), request.tasks)
    ensures TasksMerged(old(response.background), request.tasks, response.background)
    ensures response.background.None? <==> old(response.background).None? && request.tasks == []
  {
    if request.tasks != [] {
      var own := response.background;
      if own.None? || (own.value.Tasks? && own.value.shared) {
        response.background := Some(Tasks(request.tasks, true));
      } else if own.value.Tasks? {
        response.background := Some(Tasks(own.value.tasks + request.tasks, false));
      } else {
        response.background := Some(Tasks(own.value.called + own.value.awaited + request.tasks, false));
      }
    }
  }

  /** Wrapping a background leaves the user's work in it alone. */
  lemma {:induction false} StillMerged(own: Option<Work>, tasks: seq<Task>, before: Option<Work>, after: Option<Work>)
    requires TasksMerged(own, tasks, before) && after.Some?
    requires (after.value.ThenClean? || after.value.ThenClose?) && after.value.inner == before
    ensures TasksMerged(own, tasks, after) && TasksIn(after) == TasksIn(before)
  {
  }

  /** The `try` clause of `_dispatch` with its handler: what it leaves to the `finally` clause. */
  method Attempt(request: Request, runHooks: bool)
    returns (raised: Raised, response: Response, cleanups: CleanupList, ghost own: Option<Work>)
    requires request.Untouched()
    modifies request
    ensures request.AsLeft() && Ends(request.calls, runHooks, raised, own) && request.torn == old(request.torn)
    ensures fresh(response) && fresh(cleanups) && (request.cleanups != null ==> fresh(request.cleanups))
    ensures raised == Nothing ==>
      && request.cleanups == null && cleanups.items == request.registered && request.log == []
      && UserWork(own) && TasksMerged(own, request.tasks, response.background)
      && (response.background.None? <==> own.None? && request.tasks == [] && request.registered == [])
      && EndsWith(TasksIn(response.background), request.tasks)
      && if request.registered == [] then UserResponse(response)
         else response.background.Some? && response.background.value.ThenClean?
              && response.background.value.list == cleanups
              && UserWork(response.background.value.inner)
    ensures raised != Nothing ==>
      && request.Open() && request.cleanups != cleanups && cleanups.items == []
      && Cleanings(request.log) == [] && request.log == [CloseRequest]
  {
    hide Cleanings, Reverse, CleanedEvents, EndsWith, TasksMerged, Ends;
    NothingCleaned();
    cleanups := new CleanupList([]);
    raised, response := Respond(request, runHooks);
    own := response.background;
    if raised == Nothing {
      MergeTasks(request, response);
      cleanups := request.PopCleanups();
      if cleanups.items != [] {
        ghost var planned := response.background;
        response.background := Some(ThenClean(response.background, cleanups));
        StillMerged(own, request.tasks, planned, response.background);
      }
    } else {
      request.RunCleanups(cleanups);
      cleanups.items := [];
      var closing := request.Close();
    }
  }

  /**
   * What a failed `_dispatch` leaves in the log: an exception of the `try` clause closes the request
   * before the cleanups run, one of the teardown alone after them; with both it is closed twice.
   */
  function FailedLog(early: bool, late: bool, registered: seq<Task>): seq<Event> {
    var cleaned := CleanedEvents(Reverse(registered));
    if !early then cleaned + [CloseRequest]
    else if late then [CloseRequest] + cleaned + [CloseRequest]
    else [CloseRequest] + cleaned
  }

  lemma CloseCleansNothing()
    ensures Cleanings([CloseRequest]) == []
  {
    assert [CloseRequest][..0] == [];
  }

  /** How it ended is what the calls of user code and the teardown make of it, and so is the response's own work. */
  ghost predicate RanAs(request: Request, runHooks: bool, early: bool, late: bool, own: Option<Work>)
    reads request`calls, request`tasks, request`registered, request`holds, request`torn
  {
    && request.AsLeft()
    && (exists raised :: Ends(request.calls, runHooks, raised, own) && (early <==> raised != Nothing))
    && (late <==> request.torn != Nothing)
  }

  lemma ItRanAs(request: Request, runHooks: bool, raised: Raised, early: bool, late: bool, own: Option<Work>)
    requires request.AsLeft() && Ends(request.calls, runHooks, raised, own)
    requires (early <==> raised != Nothing) && (late <==> request.torn != Nothing)
    ensures RanAs(request, runHooks, early, late, own)
  {
  }

  /**
   * `_dispatch`, from the exception boundary of the call to the end of its `finally` clause. It fails
   * when the `try` clause raised (`early`), when the teardown did (`late`), or both.
   */
  method Run(request: Request, runHooks: bool)
    returns (early: bool, late: bool, response: Response?, ghost own: Option<Work>)
    requires request.Untouched()
    modifies request
    ensures RanAs(request, runHooks, early, late, own)
    ensures early || late ==> request.log == FailedLog(early, late, request.registered)
    ensures early || late ==> Cleanings(request.log) == Reverse(request.registered) && CloseRequest in request.log
    ensures !early && !late ==> response != null && request.log == []
    ensures !early && !late && request.registered != [] ==> LeavesAll(response.background, request.registered)
    ensures !early && !late && request.registered == [] ==> LeavesNone(response.background)
    ensures !early && !late ==> EndsWith(TasksIn(response.background), request.tasks)
    ensures !early && !late ==> UserWork(own) && TasksMerged(own, request.tasks, response.background)
    ensures !early && !late ==>
      (response.background.None? <==> own.None? && request.tasks == [] && request.registered == [] && !request.holds)
    ensures fresh(response)
    ensures !early && !late ==> fresh(SharedList(response.background))
  {
    hide Cleanings, Reverse, CleanedEvents, EndsWith, TasksMerged, Ends, TasksIn, CalledIn, Unawaited, Merged, Dropped;
    hide RanAs;
    NothingCleaned();
    var raised, cleanups;
    raised, response, cleanups, own := Attempt(request, runHooks);
    var remaining := request.PopCleanups();
    request.RunCleanups(remaining);
    var teardown := request.TearDown();
    early, late := raised != Nothing, teardown != Nothing;
    if teardown == Nothing {
      if request.holds || response.background.Some? {
        ghost var planned := response.background;
        response.background := Some(ThenClose(response.background));
        if !early {
          StillMerged(own, request.tasks, planned, response.background);
        }
      }
    } else {
      request.RunCleanups(cleanups);
      cleanups.items := [];
      var closing := request.Close();
    }
    if early || late {
      Sequences.Nil(CleanedEvents(Reverse(request.registered)));
    }
    ItRanAs(request, runHooks, raised, early, late, own);
  }

  // ---------------------------------------------------------------------
  // The background of the returned response
  // ---------------------------------------------------------------------

  function ListsIn(work: Option<Work>): set<CleanupList> {
    match work
    case Some(ThenClean(inner, list)) => ListsIn(inner) + {list}
    case Some(ThenClose(inner)) => ListsIn(inner)
    case _ => {}
  }

  /** What running the work does after the user's tasks. */
  function Afterwards(work: Option<Work>): seq<Event>
    reads ListsIn(work)
  {
    match work
    case Some(ThenClean(inner, list)) => Afterwards(inner) + CleanedEvents(Reverse(list.items))
    case Some(ThenClose(inner)) => Afterwards(inner) + [CloseRequest]
    case _ => []
  }

  lemma RunsMore(events: seq<Event>, e: Event)
    requires Runs(events, Nothing) && e.Ran?
    ensures Runs(events + [e], e.raised) && TasksOf(events + [e]) == TasksOf(events) + [e.task]
  {
  }

  /** User tasks, in order, until one raises. */
  method PerformTasks(request: Request, tasks: seq<Task>) returns (raised: Raised, ghost done: seq<Event>)
    modifies request`log
    ensures Runs(done, raised) && TasksOf(done) <= tasks && (raised == Nothing ==> TasksOf(done) == tasks)
    ensures request.log == old(request.log) + done
  {
    raised, done := Nothing, [];
    var i := 0;
    while i < |tasks| && raised == Nothing
      invariant 0 <= i <= |tasks| && Runs(done, raised) && TasksOf(done) == tasks[..i]
      invariant request.log == old(request.log) + done
    {
      raised := *;
      RunsMore(done, Ran(tasks[i], raised));
      Sequences.Assoc(old(request.log), done, [Ran(tasks[i], raised)]);
      request.log := request.log + [Ran(tasks[i], raised)];
      done := done + [Ran(tasks[i], raised)];
      assert tasks[..i + 1] == tasks[..i] + [tasks[i]];
      i := i + 1;
    }
  }

  /**
   * Calls the background; `_finish_response_work` drops what its call returns. A task that raises
   * stops the later tasks, never what comes afterwards.
   */
  method Perform(request: Request, work: Option<Work>) returns (raised: Raised, ghost done: seq<Event>)
    modifies request`log
    ensures Runs(done, raised) && TasksOf(done) <= CalledIn(work) <= TasksIn(work)
    ensures raised == Nothing ==>
      TasksOf(done) == CalledIn(work) && (TasksOf(done) == TasksIn(work) <==> !Unawaited(work))
    ensures request.log == old(request.log) + done + old(Afterwards(work))
    decreases work
  {
    hide CleanedEvents, Reverse;
    CalledIsAll(work);
    if work.None? {
      raised, done := Nothing, [];
      Sequences.Nil(request.log);
    } else if work.value.Tasks? {
      raised, done := PerformTasks(request, work.value.tasks);
      Sequences.Nil(request.log);
    } else if work.value.Bare? {
      raised, done := PerformTasks(request, work.value.called);
      Sequences.Nil(request.log);
    } else if work.value.ThenClean? {
      ghost var after, cleaned := Afterwards(work.value.inner), CleanedEvents(Reverse(work.value.list.items));
      raised, done := Perform(request, work.value.inner);
      request.RunCleanups(work.value.list);
      Sequences.Assoc(old(request.log) + done, after, cleaned);
    } else {
      ghost var after := Afterwards(work.value.inner);
      raised, done := Perform(request, work.value.inner);
      var closing := request.Close();
      Sequences.Assoc(old(request.log) + done, after, [CloseRequest]);
    }
  }

  lemma {:induction false} AfterwardsOf(background: Option<Work>, registered: seq<Task>)
    requires if registered != [] then LeavesAll(background, registered) else LeavesNone(background)
    ensures Afterwards(background) ==
      if registered != [] then CleanedEvents(Reverse(registered)) + [CloseRequest]
      else if background.Some? then [CloseRequest] else []
  {
    if registered != [] {
      var clean := background.value.inner;
      assert Afterwards(clean.value.inner) == [];
      assert Afterwards(clean) == [] + CleanedEvents(Reverse(registered)) == CleanedEvents(Reverse(registered));
    } else if background.Some? {
      assert Afterwards(background.value.inner) == [];
    }
  }

  lemma {:induction false} CleaningsOfRan(done: seq<Event>)
    requires forall i :: 0 <= i < |done| ==> done[i].Ran?
    ensures Cleanings(done) == []
  {
    if done != [] {
      CleaningsOfRan(done[..|done| - 1]);
    }
  }

  lemma {:induction false} LogIs(done: seq<Event>, after: seq<Event>, registered: seq<Task>)
    requires forall i :: 0 <= i < |done| ==> done[i].Ran?
    requires if registered != [] then after == CleanedEvents(Reverse(registered)) + [CloseRequest]
             else after == [] || after == [CloseRequest]
    ensures [] + done + after == done + after && Cleanings([] + done + after) == Reverse(registered)
  {
    assert [] + done == done;
    CleaningsOfRan(done);
    CleaningsAppend(done, after);
    CloseCleansNothing();
    NothingCleaned();
    if registered != [] {
      var cleaned := CleanedEvents(Reverse(registered));
      CleaningsOfCleaned(Reverse(registered));
      CleaningsAppend(cleaned, [CloseRequest]);
    }
    hide Cleanings;
  }

  /** Where all of it is called, it ends with the request's tasks. */
  lemma {:induction false} AllCalled(own: Option<Work>, tasks: seq<Task>, work: Option<Work>)
    requires TasksMerged(own, tasks, work) && EndsWith(TasksIn(work), tasks)
    ensures !Unawaited(work) ==> EndsWith(CalledIn(work), tasks)
    ensures CalledIn(work) == TasksIn(work) <==> tasks != [] || !Unawaited(own)
    ensures EndsWith(CalledIn(work), tasks)
  {
    CalledIsAll(work);
  }

  /** What was called of a merged background, all of it where nothing raised. */
  lemma {:induction false} WorkDone(done: seq<Task>, own: Option<Work>, tasks: seq<Task>, work: Option<Work>)
    requires TasksMerged(own, tasks, work) && EndsWith(TasksIn(work), tasks) && done <= CalledIn(work)
    ensures done <= Merged(own, tasks)
    ensures done == CalledIn(work) ==>
      && EndsWith(done, tasks) && done + Dropped(own, tasks) == Merged(own, tasks)
      && (done == Merged(own, tasks) <==> tasks != [] || !Unawaited(own))
  {
    CalledIsAll(work);
    AllCalled(own, tasks, work);
  }

  /** The user's work: up to a raise, and where there is none all that is not left unawaited. */
  predicate WorkIsDone(done: seq<Event>, raised: Raised, own: Option<Work>, tasks: seq<Task>) {
    && Runs(done, raised) && TasksOf(done) <= Merged(own, tasks)
    && (raised == Nothing ==>
          && EndsWith(TasksOf(done), tasks) && TasksOf(done) + Dropped(own, tasks) == Merged(own, tasks)
          && (TasksOf(done) == Merged(own, tasks) <==> tasks != [] || !Unawaited(own)))
  }

  /** What comes after it: the cleanups, newest first, and the closing where there is something to close. */
  function Closing(registered: seq<Task>, closes: bool): seq<Event> {
    if registered != [] then CleanedEvents(Reverse(registered)) + [CloseRequest]
    else if closes then [CloseRequest]
    else []
  }

  lemma {:induction false} ClosingIs(background: Option<Work>, registered: seq<Task>)
    requires if registered != [] then LeavesAll(background, registered) else LeavesNone(background)
    ensures Afterwards(background) == Closing(registered, background.Some?)
  {
    AfterwardsOf(background, registered);
  }

  lemma {:induction false} LogIsServed(log: seq<Event>, done: seq<Event>, raised: Raised, registered: seq<Task>,
                                       closes: bool)
    requires log == [] + done + Closing(registered, closes) && Runs(done, raised)
    ensures log == done + Closing(registered, closes) && Cleanings(log) == Reverse(registered)
  {
    LogIs(done, Closing(registered, closes), registered);
  }

  lemma {:induction false} WorkIsWhole(done: seq<Event>, raised: Raised, own: Option<Work>, tasks: seq<Task>,
                                       work: Option<Work>)
    requires TasksMerged(own, tasks, work) && EndsWith(TasksIn(work), tasks)
    requires Runs(done, raised) && TasksOf(done) <= CalledIn(work)
    requires raised == Nothing ==> TasksOf(done) == CalledIn(work)
    ensures WorkIsDone(done, raised, own, tasks)
  {
    WorkDone(TasksOf(done), own, tasks, work);
  }

  /** The end of a request whose `_dispatch` returned: its background is called. */
  method Finish(request: Request, background: Option<Work>, ghost own: Option<Work>)
    returns (raised: Raised, ghost done: seq<Event>)
    requires request.log == [] && TasksMerged(own, request.tasks, background)
    requires EndsWith(TasksIn(background), request.tasks)
    requires if request.registered != [] then LeavesAll(background, request.registered) else LeavesNone(background)
    modifies request`log
    ensures WorkIsDone(done, raised, own, request.tasks)
    ensures Cleanings(request.log) == Reverse(request.registered)
    ensures request.log == done + Closing(request.registered, background.Some?)
  {
    hide *;
    ClosingIs(background, request.registered);
    raised, done := Perform(request, background);
    LogIsServed(request.log, done, raised, request.registered, background.Some?);
    WorkIsWhole(done, raised, own, request.tasks, background);
  }

  /**
   * One request, served to the end. Whatever raises, each registered cleanup runs exactly once,
   * newest first. When `_dispatch` returns they run in the background, after the user's tasks and
   * before the request is closed; when it fails, before the request is closed exactly if the `try`
   * clause did not raise. Where no background work raises, all of the response's own and the
   * request's is done exactly when the own is no bare callable that returns an awaitable with work to
   * do, or the request has tasks of its own.
   */
  method Serve(request: Request, runHooks: bool)
    returns (early: bool, late: bool, raised: Raised, ghost done: seq<Event>, ghost own: Option<Work>)
    requires request.Untouched()
    modifies request
    ensures RanAs(request, runHooks, early, late, own)
    ensures Cleanings(request.log) == Reverse(request.registered)
    ensures early || late ==> done == [] && request.log == FailedLog(early, late, request.registered)
    ensures !early && !late ==> WorkIsDone(done, raised, own, request.tasks)
    ensures !early && !late ==>
      request.log == done + Closing(request.registered, own.Some? || request.tasks != [] || request.holds)
  {
    hide Cleanings, CleanedEvents, Reverse, FailedLog, Ends, TasksMerged, EndsWith, WorkIsDone, RanAs;
    var response;
    early, late, response, own := Run(request, runHooks);
    raised, done := Nothing, [];
    if !early && !late {
      raised, done := Finish(request, response.background, own);
    }
  }

  lemma {:induction false} ReverseKeepsEach(s: seq<Task>)
    ensures multiset(Reverse(s)) == multiset(s)
  {
    if s != [] {
      ReverseKeepsEach(s[1..]);
      assert s == [s[0]] + s[1..];
    }
  }
}
