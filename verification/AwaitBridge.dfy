/**
 * The await bridge: worker threads hand awaitables to one channel per thread on an event
 * loop, and wait for the future each submission returns. A state holds the shared fields;
 * an action is one step no other thread can observe half done: a section under the bridge's
 * lock, or one callback or task step of the loop thread. A run is any list of actions, so
 * it covers every interleaving.
 */
module AwaitBridge {
  import opened Wrappers
  import Sequences

  type Owner = nat
  type Future = nat

  datatype Outcome = Cancelled | Returned | Raised

  datatype Command = Stop | Execute(future: Future)

  /** A callback queued on the loop with `call_soon_threadsafe`. */
  datatype Callback = Put(owner: Owner, future: Future) | Interrupt(owner: Owner, future: Future)

  /** What a channel's task did, in order. */
  datatype Event =
    | Started(future: Future)
    | Interrupted(future: Future)
    | Ended(future: Future)
    | Skipped(future: Future)

  /**
   * `interrupting` says the task has been cancelled and has not been resumed since. The last two
   * fields are histories: nothing in the protocol reads them.
   */
  datatype Channel = Channel(
    queue: seq<Command>, active: Option<Future>, interrupting: bool, finished: bool,
    submitted: seq<Future>, trace: seq<Event>)

  /** What the loop thread is in the middle of; workers may step in between. */
  datatype Loop =
    | Idle
    | Closing(channels: seq<Owner>)
    | Cancelling(todo: seq<Future>, thenStop: Option<seq<Owner>>)

  /** Progress of the coroutine `close`. */
  datatype Closer =
    | NotClosing
    | Stopping(channels: seq<Owner>)
    | Waiting(channel: Owner, rest: seq<Owner>)
    | Closed

  /** `settled` is a history: nothing in the protocol reads it. */
  datatype State = State(
    futures: nat, outcome: map<Future, Outcome>, pending: set<Future>,
    cancelRequested: bool, closed: bool, channels: map<Owner, Channel>,
    ready: seq<Callback>, home: map<Future, Owner>, loop: Loop, closer: Closer,
    settled: seq<Future>)

  const FRESH := Channel([], None, false, false, [], [])

  const INITIAL := State(0, map[], {}, false, false, map[], [], map[], Idle, NotClosing, [])

  datatype Action =
    | Resolve(owner: Owner)
    | Bind(owner: Owner)
    | Discard(future: Future)
    | CancelPending(todo: seq<Future>)
    | CancelNext
    | RunCallback
    | Dequeue(owner: Owner)
    | Deliver(owner: Owner)
    | Finish(owner: Owner, result: Outcome)
    | BeginClose(channels: seq<Owner>)
    | StopNext
    | Join

  // ---------------------------------------------------------------------
  // The steps
  // ---------------------------------------------------------------------

  /** `list` holds each member of `members` once, in whatever order the set is walked. */
  predicate Lists<T(==)>(list: seq<T>, members: set<T>) {
    Sequences.Distinct(list) && (forall x | x in list :: x in members) && (forall x | x in members :: x in list)
  }

  function WithChannel(s: State, owner: Owner): State {
    if owner in s.channels then s
    else s.(channels := s.channels[owner := FRESH])
  }

  /** The locked part of `resolve`; a refusal takes the latched cancel with it. */
  function ResolveStep(s: State, owner: Owner): State {
    if s.closed || s.cancelRequested then s.(cancelRequested := false)
    else
      var channels, future := WithChannel(s, owner).channels, s.futures;
      var channel := channels[owner];
      s.(futures := future + 1, pending := s.pending + {future},
         ready := s.ready + [Put(owner, future)], home := s.home[future := owner],
         channels := channels[owner := channel.(submitted := channel.submitted + [future])])
  }

  /** A future takes its result or its cancellation. */
  function Settle(s: State, future: Future, outcome: Outcome): State {
    s.(outcome := s.outcome[future := outcome], settled := s.settled + [future])
  }

  /** The futures `cancel_pending` collects under the lock. */
  function Unsettled(s: State): set<Future> {
    set f | f in s.pending && f !in s.outcome
  }

  /** `future.cancel()`, whose callback asks the loop to interrupt the command. */
  function CancelFuture(s: State, future: Future): State
    requires future in s.home
  {
    if future in s.outcome then s
    else
      var t := Settle(s, future, Cancelled);
      t.(ready := t.ready + [Interrupt(s.home[future], future)])
  }

  function AfterCancel(s: State, todo: seq<Future>, thenStop: Option<seq<Owner>>): State {
    if todo != [] then s.(loop := Cancelling(todo, thenStop))
    else if thenStop.Some? then s.(loop := Idle, closer := Stopping(thenStop.value))
    else s.(loop := Idle)
  }

  function UpdateChannel(s: State, owner: Owner, channel: Channel): State {
    s.(channels := s.channels[owner := channel])
  }

  function CallbackStep(s: State, callback: Callback): State
    requires callback.owner in s.channels
  {
    var channel := s.channels[callback.owner];
    match callback
    case Put(owner, future) => UpdateChannel(s, owner, channel.(queue := channel.queue + [Execute(future)]))
    case Interrupt(owner, future) =>
      if channel.active == Some(future) then UpdateChannel(s, owner, channel.(interrupting := true)) else s
  }

  predicate IsCancelled(outcome: map<Future, Outcome>, future: Future) {
    future in outcome && outcome[future] == Cancelled
  }

  /** The task takes the next command: the end, one cancelled while it waited, or one to run. */
  function Dequeued(channel: Channel, outcome: map<Future, Outcome>): Channel
    requires channel.queue != []
  {
    var rest := channel.(queue := channel.queue[1..]);
    match channel.queue[0]
    case Stop => rest.(finished := true)
    case Execute(future) =>
      if IsCancelled(outcome, future) then rest.(trace := rest.trace + [Skipped(future)])
      else rest.(active := Some(future), trace := rest.trace + [Started(future)])
  }

  /** The cancelled task resumes: CancelledError is thrown into the command it was awaiting. */
  function Delivered(channel: Channel): Channel
    requires channel.active.Some?
  {
    channel.(interrupting := false, trace := channel.trace + [Interrupted(channel.active.value)])
  }

  function AfterCommand(channel: Channel): Channel
    requires channel.active.Some?
  {
    channel.(active := None, trace := channel.trace + [Ended(channel.active.value)])
  }

  /** The awaited value is done: settle its future unless it was cancelled meanwhile. */
  function FinishStep(s: State, owner: Owner, result: Outcome): State
    requires owner in s.channels && s.channels[owner].active.Some?
  {
    var future := s.channels[owner].active.value;
    var t := if future in s.outcome then s else Settle(s, future, result);
    UpdateChannel(t, owner, AfterCommand(s.channels[owner]))
  }

  predicate IsOpen(s: State, owner: Owner) {
    s.loop == Idle && owner in s.channels && !s.channels[owner].finished
  }

  /** When an action can happen. Loop callbacks wait until the loop thread is idle. */
  predicate Enabled(s: State, a: Action) {
    match a
    case Resolve(owner) => true
    case Bind(owner) => true
    case Discard(future) => future in s.outcome
    case CancelPending(todo) => (s.loop == Idle || s.loop.Closing?) && Lists(todo, Unsettled(s))
    case CancelNext => s.loop.Cancelling? && s.loop.todo != [] && s.loop.todo[0] in s.home
    case RunCallback => s.loop == Idle && s.ready != [] && s.ready[0].owner in s.channels
    case Dequeue(owner) =>
      IsOpen(s, owner) && s.channels[owner].active.None? && s.channels[owner].queue != []
    case Deliver(owner) => IsOpen(s, owner) && s.channels[owner].active.Some? && s.channels[owner].interrupting
    case Finish(owner, result) =>
      IsOpen(s, owner) && s.channels[owner].active.Some? && !s.channels[owner].interrupting
      && result != Cancelled
    case BeginClose(channels) => s.loop == Idle && s.closer == NotClosing && Lists(channels, s.channels.Keys)
    case StopNext =>
      s.loop == Idle && s.closer.Stopping? && (s.closer.channels != [] ==> s.closer.channels[0] in s.channels)
    case Join => s.closer.Waiting? && s.closer.channel in s.channels && s.channels[s.closer.channel].finished
  }

  function Apply(s: State, a: Action): State
    requires Enabled(s, a)
  {
    match a
    case Resolve(owner) => ResolveStep(s, owner)
    case Bind(owner) => if s.closed then s else WithChannel(s, owner)
    case Discard(future) => s.(pending := s.pending - {future})
    case CancelPending(todo) =>
      var stop := if s.loop.Closing? then Some(s.loop.channels) else None;
      AfterCancel(s.(cancelRequested := todo == []), todo, stop)
    case CancelNext =>
      AfterCancel(CancelFuture(s, s.loop.todo[0]), s.loop.todo[1..], s.loop.thenStop)
    case RunCallback => CallbackStep(s.(ready := s.ready[1..]), s.ready[0])
    case Dequeue(owner) => UpdateChannel(s, owner, Dequeued(s.channels[owner], s.outcome))
    case Deliver(owner) => UpdateChannel(s, owner, Delivered(s.channels[owner]))
    case Finish(owner, result) => FinishStep(s, owner, result)
    case BeginClose(channels) => s.(closed := true, loop := Closing(channels))
    case StopNext =>
      if s.closer.channels == [] then s.(closer := Closed)
      else
        var owner := s.closer.channels[0];
        var channel := s.channels[owner];
        UpdateChannel(s, owner, channel.(queue := channel.queue + [Stop]))
          .(closer := Waiting(owner, s.closer.channels[1..]))
    case Join => s.(closer := Stopping(s.closer.rest))
  }

  /** Where a run leads, or None if one of its actions is not possible when its turn comes. */
  function Execution(actions: seq<Action>): Option<State> {
    if actions == [] then Some(INITIAL)
    else
      var last := |actions| - 1;
      match Execution(actions[..last])
      case None => None
      case Some(s) => if Enabled(s, actions[last]) then Some(Apply(s, actions[last])) else None
  }

  // ---------------------------------------------------------------------
  // What every run keeps
  // ---------------------------------------------------------------------

  /**
   * Reads a channel's trace: Some(Some(f)) if `f` is running, Some(None) if nothing is,
   * None if commands overlapped or an interruption hit a command that was not running.
   */
  function Running(trace: seq<Event>): Option<Option<Future>> {
    if trace == [] then Some(None)
    else
      var last := |trace| - 1;
      match (Running(trace[..last]), trace[last])
      case (Some(None), Started(f)) => Some(Some(f))
      case (Some(None), Skipped(f)) => Some(None)
      case (Some(Some(g)), Interrupted(f)) => if f == g then Some(Some(g)) else None
      case (Some(Some(g)), Ended(f)) => if f == g then Some(None) else None
      case _ => None
  }

  /** The futures a trace has taken off the queue, in order. */
  function Taken(trace: seq<Event>): seq<Future> {
    if trace == [] then []
    else
      var last := |trace| - 1;
      var before := Taken(trace[..last]);
      if trace[last].Started? || trace[last].Skipped? then before + [trace[last].future] else before
  }

  function Waits(queue: seq<Command>): seq<Future> {
    if queue == [] then []
    else (if queue[0].Execute? then [queue[0].future] else []) + Waits(queue[1..])
  }

  /** The futures still on their way to an owner's queue. */
  function Coming(ready: seq<Callback>, owner: Owner): seq<Future> {
    if ready == [] then []
    else (if ready[0].Put? && ready[0].owner == owner then [ready[0].future] else []) + Coming(ready[1..], owner)
  }

  predicate Increasing(s: seq<Future>) {
    forall i, j :: 0 <= i < j < |s| ==> s[i] < s[j]
  }

  ghost predicate TraceOk(channel: Channel, outcome: map<Future, Outcome>) {
    && Running(channel.trace) == Some(channel.active)
    && (channel.interrupting ==> channel.active.Some? && IsCancelled(outcome, channel.active.value))
    && (forall e :: e in channel.trace && (e.Interrupted? || e.Skipped?) ==> IsCancelled(outcome, e.future))
    && (forall e :: e in channel.trace && e.Ended? ==> e.future in outcome)
  }

  /** Every submission is taken, queued or on its way to the queue, in the order it was made. */
  ghost predicate OrderOk(channel: Channel, owner: Owner, ready: seq<Callback>, futures: nat) {
    && channel.submitted == Taken(channel.trace) + Waits(channel.queue) + Coming(ready, owner)
    && Increasing(channel.submitted)
    && (forall f :: f in channel.submitted ==> f < futures)
  }

  ghost predicate ChannelsOk(s: State) {
    forall owner :: owner in s.channels ==>
      && TraceOk(s.channels[owner], s.outcome)
      && OrderOk(s.channels[owner], owner, s.ready, s.futures)
  }

  ghost predicate CallbacksOk(s: State) {
    forall c :: c in s.ready ==> c.owner in s.channels && (c.Interrupt? ==> IsCancelled(s.outcome, c.future))
  }

  ghost predicate HomesOk(futures: nat, home: map<Future, Owner>, owners: set<Owner>) {
    && (forall f: Future :: f in home <==> f < futures)
    && (forall f :: f in home ==> home[f] in owners)
  }

  /** The settlements so far: one for each settled future, and only submitted futures settle. */
  ghost predicate SettledOk(futures: nat, outcome: map<Future, Outcome>, settled: seq<Future>) {
    && Sequences.Distinct(settled)
    && (forall f :: f in settled <==> f in outcome)
    && (forall f :: f in outcome ==> f < futures)
  }

  ghost predicate PendingOk(futures: nat, outcome: map<Future, Outcome>, pending: set<Future>) {
    && (forall f: Future :: f < futures && f !in outcome ==> f in pending)
    && (forall f :: f in pending ==> f < futures)
  }

  ghost predicate FuturesOk(s: State) {
    && HomesOk(s.futures, s.home, s.channels.Keys)
    && SettledOk(s.futures, s.outcome, s.settled)
    && PendingOk(s.futures, s.outcome, s.pending)
  }

  /** The channels `close` has still to stop. */
  function ToStop(s: State): seq<Owner> {
    if s.loop.Closing? then s.loop.channels
    else if s.loop.Cancelling? && s.loop.thenStop.Some? then s.loop.thenStop.value
    else match s.closer
      case Stopping(channels) => channels
      case Waiting(_, rest) => rest
      case _ => []
  }

  /** Once closing has begun nothing is submitted, and what is unsettled is about to be cancelled. */
  ghost predicate CloseOk(s: State) {
    && (s.closed <==> s.loop.Closing? || (s.loop.Cancelling? && s.loop.thenStop.Some?) || s.closer != NotClosing)
    && (s.loop.Cancelling? ==> s.loop.todo != [] && forall f :: f in s.loop.todo ==> f < s.futures)
    && (s.loop.Cancelling? && s.loop.thenStop.Some? ==>
          forall f: Future :: f < s.futures && f !in s.outcome ==> f in s.loop.todo)
    && (s.closer != NotClosing ==> forall f: Future :: f < s.futures ==> f in s.outcome)
    && (s.loop.Closing? || (s.loop.Cancelling? && s.loop.thenStop.Some?) ==> s.closer == NotClosing)
    && (forall c :: c in ToStop(s) ==> c in s.channels)
    && (s.closer.Waiting? ==>
          s.closer.channel in s.channels
          && (s.channels[s.closer.channel].finished || Stop in s.channels[s.closer.channel].queue))
  }

  ghost predicate Inv(s: State) {
    && ChannelsOk(s) && CallbacksOk(s)
    && FuturesOk(s) && CloseOk(s)
  }

  // ---------------------------------------------------------------------
  // Every step keeps it
  // ---------------------------------------------------------------------

  lemma TraceStep(trace: seq<Event>, e: Event)
    ensures (trace + [e])[..|trace|] == trace && (trace + [e])[|trace|] == e
  {
  }

  lemma {:induction false} WaitsAppend(queue: seq<Command>, c: Command)
    ensures Waits(queue + [c]) == Waits(queue) + (if c.Execute? then [c.future] else [])
  {
    if queue != [] {
      WaitsAppend(queue[1..], c);
      assert (queue + [c])[1..] == queue[1..] + [c];
    }
  }

  lemma {:induction false} ComingAppend(ready: seq<Callback>, c: Callback, owner: Owner)
    ensures Coming(ready + [c], owner)
         == Coming(ready, owner) + (if c.Put? && c.owner == owner then [c.future] else [])
  {
    if ready != [] {
      ComingAppend(ready[1..], c, owner);
      assert (ready + [c])[1..] == ready[1..] + [c];
    }
  }

  lemma SettleKeeps(s: State, future: Future, outcome: Outcome)
    requires FuturesOk(s) && future < s.futures && future !in s.outcome
    ensures FuturesOk(Settle(s, future, outcome))
  {
  }

  lemma ResolveKeepsFutures(s: State, owner: Owner)
    requires FuturesOk(s)
    ensures FuturesOk(ResolveStep(s, owner))
  {
  }

  /** What the steps of a channel do to the futures: nothing. */
  lemma FuturesFrame(s: State, t: State)
    requires FuturesOk(s) && s.channels.Keys <= t.channels.Keys
    requires t.futures == s.futures && t.home == s.home && t.outcome == s.outcome
    requires t.settled == s.settled && t.pending == s.pending
    ensures FuturesOk(t)
  {
  }

  lemma DiscardKeepsFutures(s: State, future: Future)
    requires FuturesOk(s) && future in s.outcome
    ensures FuturesOk(s.(pending := s.pending - {future}))
  {
  }

  lemma {:induction false} RunningIsTaken(trace: seq<Event>)
    ensures Running(trace).Some? && Running(trace).value.Some? ==> Running(trace).value.value in Taken(trace)
  {
    if trace != [] {
      RunningIsTaken(trace[..|trace| - 1]);
    }
  }

  lemma ActiveIsSubmitted(s: State, owner: Owner)
    requires ChannelsOk(s) && owner in s.channels && s.channels[owner].active.Some?
    ensures s.channels[owner].active.value < s.futures
  {
    var channel := s.channels[owner];
    RunningIsTaken(channel.trace);
    assert channel.active.value in channel.submitted;
  }

  lemma FinishKeepsFutures(s: State, owner: Owner, result: Outcome)
    requires FuturesOk(s) && ChannelsOk(s) && Enabled(s, Finish(owner, result))
    ensures FuturesOk(FinishStep(s, owner, result))
  {
    ActiveIsSubmitted(s, owner);
    var future := s.channels[owner].active.value;
    if future !in s.outcome {
      SettleKeeps(s, future, result);
    }
    hide FuturesOk, ChannelsOk;
    FuturesFrame(if future in s.outcome then s else Settle(s, future, result), FinishStep(s, owner, result));
  }

  lemma CancelNextIs(s: State)
    requires Enabled(s, CancelNext)
    ensures s.loop.todo[0] in s.home
    ensures var t, u := CancelFuture(s, s.loop.todo[0]), Apply(s, CancelNext);
      && u.channels == t.channels && u.outcome == t.outcome && u.ready == t.ready && u.futures == t.futures
      && u.settled == t.settled && u.pending == t.pending && u.home == t.home && u.closed == t.closed
      && u.cancelRequested == t.cancelRequested
  {
    hide CancelFuture, Lists, Unsettled, IsOpen;
  }

  lemma CancelNextKeepsFutures(s: State)
    requires FuturesOk(s) && Enabled(s, CancelNext)
    ensures FuturesOk(Apply(s, CancelNext))
  {
    var future := s.loop.todo[0];
    if future !in s.outcome {
      assert future < s.futures;
      SettleKeeps(s, future, Cancelled);
    }
    CancelNextIs(s);
    hide FuturesOk, Apply, Enabled;
    FuturesFrame(if future in s.outcome then s else Settle(s, future, Cancelled), Apply(s, CancelNext));
  }

  lemma EnabledDiscard(s: State, a: Action)
    requires a.Discard? && Enabled(s, a)
    ensures a.future in s.outcome
  {
  }

  /** A step leaves the futures alone. */
  predicate Framed(s: State, t: State) {
    && s.channels.Keys <= t.channels.Keys
    && t.futures == s.futures && t.home == s.home && t.outcome == s.outcome
    && t.settled == s.settled && t.pending == s.pending
  }

  lemma ChannelStepFrames(s: State, a: Action)
    requires Enabled(s, a) && (a.Bind? || a.RunCallback? || a.Dequeue? || a.Deliver?)
    ensures Framed(s, Apply(s, a))
  {
    hide Lists, Unsettled, Dequeued, Delivered;
  }

  lemma CloseStepFrames(s: State, a: Action)
    requires Enabled(s, a) && (a.CancelPending? || a.BeginClose? || a.StopNext? || a.Join?)
    ensures Framed(s, Apply(s, a))
  {
    hide Lists, Unsettled;
  }

  lemma FuturesKept(s: State, a: Action)
    requires Inv(s) && Enabled(s, a)
    ensures FuturesOk(Apply(s, a))
  {
    hide FuturesOk, ChannelsOk, CallbacksOk, CloseOk, Enabled;
    if a.Resolve? {
      ResolveKeepsFutures(s, a.owner);
    } else if a.Discard? {
      assert a.future in s.outcome by {
        EnabledDiscard(s, a);
      }
      DiscardKeepsFutures(s, a.future);
    } else if a.CancelNext? {
      CancelNextKeepsFutures(s);
    } else if a.Finish? {
      FinishKeepsFutures(s, a.owner, a.result);
    } else {
      if a.CancelPending? || a.BeginClose? || a.StopNext? || a.Join? {
        CloseStepFrames(s, a);
      } else {
        ChannelStepFrames(s, a);
      }
      hide Apply;
      FuturesFrame(s, Apply(s, a));
    }
  }

  // --- The channels

  /** Settling a future that was not settled keeps what is known of the others. */
  lemma SettleKeepsChannels(s: State, future: Future, outcome: Outcome)
    requires ChannelsOk(s) && future !in s.outcome
    ensures ChannelsOk(Settle(s, future, outcome))
  {
    hide Running, Taken, Waits, Coming;
  }

  lemma IncreasingAppend(s: seq<Future>, future: Future)
    requires Increasing(s) && forall f :: f in s ==> f < future
    ensures Increasing(s + [future])
  {
    assert forall i :: 0 <= i < |s| ==> s[i] in s;
  }

  lemma SubmitKeepsOrder(channel: Channel, o: Owner, ready: seq<Callback>, future: Future, owner: Owner)
    requires OrderOk(channel, o, ready, future)
    ensures var after := if o == owner then channel.(submitted := channel.submitted + [future]) else channel;
      OrderOk(after, o, ready + [Put(owner, future)], future + 1)
  {
    ComingAppend(ready, Put(owner, future), o);
    var taken, waits, coming := Taken(channel.trace), Waits(channel.queue), Coming(ready, o);
    Sequences.Assoc(taken + waits, coming, [future]);
    IncreasingAppend(channel.submitted, future);
    assert coming + [] == coming;
    hide Taken, Waits, Coming, Increasing;
  }

  lemma {:induction false} NothingComing(ready: seq<Callback>, owner: Owner)
    requires forall c :: c in ready ==> c.owner != owner
    ensures Coming(ready, owner) == []
  {
    if ready != [] {
      NothingComing(ready[1..], owner);
    }
  }

  lemma FreshChannel(s: State, owner: Owner)
    requires CallbacksOk(s)
    ensures owner !in s.channels ==> TraceOk(FRESH, s.outcome) && OrderOk(FRESH, owner, s.ready, s.futures)
  {
    if owner !in s.channels {
      NothingComing(s.ready, owner);
    }
  }

  lemma ResolveKeepsChannels(s: State, owner: Owner)
    requires ChannelsOk(s) && CallbacksOk(s) && !s.closed && !s.cancelRequested
    ensures ChannelsOk(ResolveStep(s, owner))
  {
    var t := ResolveStep(s, owner);
    FreshChannel(s, owner);
    hide Running, Taken, Waits, Coming;
    forall o | o in t.channels
      ensures TraceOk(t.channels[o], t.outcome) && OrderOk(t.channels[o], o, t.ready, t.futures)
    {
      var before := if o in s.channels then s.channels[o] else FRESH;
      assert OrderOk(before, o, s.ready, s.futures);
      SubmitKeepsOrder(before, o, s.ready, s.futures, owner);
    }
  }

  lemma Regroup(a: seq<Future>, b: seq<Future>, c: seq<Future>, d: seq<Future>)
    ensures a + b + (c + d) == a + (b + c) + d
  {
  }

  ghost predicate ChannelOk(channel: Channel, owner: Owner, s: State) {
    TraceOk(channel, s.outcome) && OrderOk(channel, owner, s.ready, s.futures)
  }

  /** A step of one channel concerns no other. */
  lemma OneChannel(s: State, owner: Owner, channel: Channel)
    requires ChannelsOk(s) && ChannelOk(channel, owner, s)
    ensures ChannelsOk(UpdateChannel(s, owner, channel))
  {
    hide TraceOk, OrderOk;
  }

  /** A callback leaves the ready queue: the futures coming to each owner lose at most the first. */
  lemma PopKeepsOrder(channel: Channel, owner: Owner, ready: seq<Callback>, futures: nat)
    requires ready != [] && OrderOk(channel, owner, ready, futures)
    ensures var c := ready[0];
      OrderOk(if c.Put? && c.owner == owner then channel.(queue := channel.queue + [Execute(c.future)]) else channel,
              owner, ready[1..], futures)
  {
    hide Taken, Waits, Increasing;
    var c := ready[0];
    var taken, waits, coming := Taken(channel.trace), Waits(channel.queue), Coming(ready[1..], owner);
    var first := if c.Put? && c.owner == owner then [c.future] else [];
    WaitsAppend(channel.queue, Execute(c.future));
    Regroup(taken, waits, first, coming);
    assert Coming(ready, owner) == first + coming;
    Sequences.Nil(waits);
  }

  lemma OrderIgnoresTask(channel: Channel, owner: Owner, ready: seq<Callback>, futures: nat)
    ensures OrderOk(channel.(interrupting := true), owner, ready, futures) <==> OrderOk(channel, owner, ready, futures)
  {
  }

  lemma CallbackKeepsChannels(s: State)
    requires ChannelsOk(s) && CallbacksOk(s) && Enabled(s, RunCallback)
    ensures ChannelsOk(Apply(s, RunCallback))
  {
    hide OrderOk, Running, IsOpen, Lists;
    var t := Apply(s, RunCallback);
    assert s.ready[0] in s.ready;
    forall o | o in t.channels
      ensures TraceOk(t.channels[o], t.outcome) && OrderOk(t.channels[o], o, t.ready, t.futures)
    {
      PopKeepsOrder(s.channels[o], o, s.ready, s.futures);
      OrderIgnoresTask(s.channels[o], o, t.ready, t.futures);
    }
  }

  lemma TraceHolds(after: Channel, outcome: map<Future, Outcome>, before: Channel, e: Event)
    requires TraceOk(before, outcome) && Running(after.trace) == Some(after.active)
    requires !before.interrupting && after.interrupting == before.interrupting
    requires e.Started? || (e.Skipped? && IsCancelled(outcome, e.future))
    requires forall x :: x in after.trace ==> x in before.trace || x == e
    ensures TraceOk(after, outcome)
  {
    hide Running;
  }

  lemma EventsGrow(trace: seq<Event>, e: Event)
    ensures forall x :: x in trace + [e] ==> x in trace || x == e
  {
  }

  lemma {:induction false} RunningGrows(trace: seq<Event>, future: Future)
    requires Running(trace) == Some(None)
    ensures Running(trace + [Started(future)]) == Some(Some(future))
    ensures Running(trace + [Skipped(future)]) == Some(None)
  {
    TraceStep(trace, Started(future));
    TraceStep(trace, Skipped(future));
  }

  lemma DequeueKeepsTrace(channel: Channel, outcome: map<Future, Outcome>)
    requires TraceOk(channel, outcome) && channel.active.None? && channel.queue != []
    ensures TraceOk(Dequeued(channel, outcome), outcome)
  {
    if channel.queue[0].Execute? {
      var future := channel.queue[0].future;
      RunningGrows(channel.trace, future);
      hide Running;
      if IsCancelled(outcome, future) {
        EventsGrow(channel.trace, Skipped(future));
        TraceHolds(Dequeued(channel, outcome), outcome, channel, Skipped(future));
      } else {
        EventsGrow(channel.trace, Started(future));
        TraceHolds(Dequeued(channel, outcome), outcome, channel, Started(future));
      }
    }
  }

  lemma DequeueKeepsOrder(channel: Channel, owner: Owner, outcome: map<Future, Outcome>, ready: seq<Callback>,
                          futures: nat)
    requires OrderOk(channel, owner, ready, futures) && channel.queue != []
    ensures OrderOk(Dequeued(channel, outcome), owner, ready, futures)
  {
    var after := Dequeued(channel, outcome);
    var taken, waits, coming := Taken(channel.trace), Waits(after.queue), Coming(ready, owner);
    if channel.queue[0].Execute? {
      var future := channel.queue[0].future;
      TraceStep(channel.trace, after.trace[|channel.trace|]);
      assert Taken(after.trace) == taken + [future] && Waits(channel.queue) == [future] + waits;
      hide Taken, Waits, Coming, Increasing;
      Sequences.Assoc(taken, [future], waits);
    } else {
      Sequences.Nil(waits);
    }
  }

  lemma DeliverKeeps(channel: Channel, owner: Owner, s: State)
    requires ChannelOk(channel, owner, s) && channel.active.Some? && channel.interrupting
    ensures ChannelOk(Delivered(channel), owner, s)
  {
    TraceStep(channel.trace, Interrupted(channel.active.value));
    hide Coming, Waits, Increasing;
  }

  lemma AfterCommandKeeps(channel: Channel, owner: Owner, s: State)
    requires ChannelOk(channel, owner, s) && channel.active.Some? && !channel.interrupting
    requires channel.active.value in s.outcome
    ensures ChannelOk(AfterCommand(channel), owner, s)
  {
    TraceStep(channel.trace, Ended(channel.active.value));
    hide Coming, Waits, Increasing;
  }

  lemma FinishKeepsChannels(s: State, owner: Owner, result: Outcome)
    requires ChannelsOk(s) && Enabled(s, Finish(owner, result))
    ensures ChannelsOk(FinishStep(s, owner, result))
  {
    var future := s.channels[owner].active.value;
    if future !in s.outcome {
      SettleKeepsChannels(s, future, result);
    }
    hide TraceOk, OrderOk;
    var t := if future in s.outcome then s else Settle(s, future, result);
    AfterCommandKeeps(t.channels[owner], owner, t);
    OneChannel(t, owner, AfterCommand(t.channels[owner]));
  }

  lemma ChannelsFrame(s: State, t: State)
    requires ChannelsOk(s) && t.channels == s.channels && t.outcome == s.outcome
    requires t.ready == s.ready && t.futures == s.futures
    ensures ChannelsOk(t)
  {
    hide TraceOk, OrderOk;
  }

  lemma BindKeepsChannels(s: State, owner: Owner)
    requires ChannelsOk(s) && CallbacksOk(s)
    ensures ChannelsOk(WithChannel(s, owner))
  {
    FreshChannel(s, owner);
    hide TraceOk, OrderOk;
  }

  lemma InterruptKeepsOrder(channel: Channel, owner: Owner, ready: seq<Callback>, futures: nat, c: Callback)
    requires OrderOk(channel, owner, ready, futures) && c.Interrupt?
    ensures OrderOk(channel, owner, ready + [c], futures)
  {
    ComingAppend(ready, c, owner);
    Sequences.Nil(Coming(ready, owner));
    hide Taken, Waits, Coming;
  }

  lemma CancelNextKeepsChannels(s: State)
    requires ChannelsOk(s) && Enabled(s, CancelNext)
    ensures ChannelsOk(Apply(s, CancelNext))
  {
    var future := s.loop.todo[0];
    if future in s.outcome {
      ChannelsFrame(s, Apply(s, CancelNext));
    } else {
      SettleKeepsChannels(s, future, Cancelled);
      var t := CancelFuture(s, future);
      hide TraceOk, OrderOk, Apply;
      forall o | o in t.channels
        ensures TraceOk(t.channels[o], t.outcome) && OrderOk(t.channels[o], o, t.ready, t.futures)
      {
        InterruptKeepsOrder(s.channels[o], o, s.ready, s.futures, Interrupt(s.home[future], future));
      }
      CancelNextIs(s);
      ChannelsFrame(t, Apply(s, CancelNext));
    }
  }

  /** `close` appends the end marker; no submission moves. */
  lemma StopKeepsChannels(s: State)
    requires ChannelsOk(s) && Enabled(s, StopNext)
    ensures ChannelsOk(Apply(s, StopNext))
  {
    var t := Apply(s, StopNext);
    if s.closer.channels == [] {
      ChannelsFrame(s, t);
    } else {
      var owner := s.closer.channels[0];
      var channel := s.channels[owner];
      WaitsAppend(channel.queue, Stop);
      Sequences.Nil(Waits(channel.queue));
      hide Waits, Running, Taken, Coming, Increasing;
      OneChannel(s, owner, channel.(queue := channel.queue + [Stop]));
      ChannelsFrame(UpdateChannel(s, owner, channel.(queue := channel.queue + [Stop])), t);
    }
  }

  lemma DequeueKeepsChannels(s: State, owner: Owner)
    requires ChannelsOk(s) && Enabled(s, Dequeue(owner))
    ensures ChannelsOk(Apply(s, Dequeue(owner)))
  {
    hide TraceOk, OrderOk, Dequeued, Lists, Unsettled;
    DequeueKeepsTrace(s.channels[owner], s.outcome);
    DequeueKeepsOrder(s.channels[owner], owner, s.outcome, s.ready, s.futures);
    OneChannel(s, owner, Dequeued(s.channels[owner], s.outcome));
  }

  lemma DeliverKeepsChannels(s: State, owner: Owner)
    requires ChannelsOk(s) && Enabled(s, Deliver(owner))
    ensures ChannelsOk(Apply(s, Deliver(owner)))
  {
    hide TraceOk, OrderOk, Delivered, Lists, Unsettled;
    DeliverKeeps(s.channels[owner], owner, s);
    OneChannel(s, owner, Delivered(s.channels[owner]));
  }

  lemma ChannelsKept(s: State, a: Action)
    requires Inv(s) && Enabled(s, a)
    ensures ChannelsOk(Apply(s, a))
  {
    hide FuturesOk, CloseOk, CallbacksOk, ChannelsOk, Lists, Unsettled, Dequeued, Delivered, AfterCommand;
    match a
    case Resolve(owner) =>
      if s.closed || s.cancelRequested {
        ChannelsFrame(s, Apply(s, a));
      } else {
        ResolveKeepsChannels(s, owner);
      }
    case Bind(owner) => BindKeepsChannels(s, owner);
    case CancelNext => CancelNextKeepsChannels(s);
    case RunCallback => CallbackKeepsChannels(s);
    case Dequeue(owner) => DequeueKeepsChannels(s, owner);
    case Deliver(owner) => DeliverKeepsChannels(s, owner);
    case Finish(owner, result) => FinishKeepsChannels(s, owner, result);
    case StopNext => StopKeepsChannels(s);
    case _ => ChannelsFrame(s, Apply(s, a));
  }

  // --- The callbacks, and `close`

  /** No queued callback loses its channel or its cancellation. */
  lemma CallbacksFrame(s: State, t: State)
    requires CallbacksOk(s) && s.channels.Keys <= t.channels.Keys
    requires t.ready == s.ready || (s.ready != [] && t.ready == s.ready[1..])
    requires forall f :: IsCancelled(s.outcome, f) ==> IsCancelled(t.outcome, f)
    ensures CallbacksOk(t)
  {
  }

  lemma ResolveKeepsCallbacks(s: State, owner: Owner)
    requires CallbacksOk(s)
    ensures CallbacksOk(ResolveStep(s, owner))
  {
  }

  lemma CancelNextKeepsCallbacks(s: State)
    requires CallbacksOk(s) && FuturesOk(s) && Enabled(s, CancelNext)
    ensures CallbacksOk(Apply(s, CancelNext))
  {
    var future := s.loop.todo[0];
    CancelNextIs(s);
    hide Apply, Enabled, CallbacksOk, CancelFuture;
    CallbacksFrame(CancelFuture(s, future), Apply(s, CancelNext));
  }

  lemma CallbacksKept(s: State, a: Action)
    requires Inv(s) && Enabled(s, a)
    ensures CallbacksOk(Apply(s, a))
  {
    hide ChannelsOk, FuturesOk, CloseOk, Lists, CallbacksOk;
    match a
    case Resolve(owner) => ResolveKeepsCallbacks(s, owner);
    case CancelNext => CancelNextKeepsCallbacks(s);
    case _ => CallbacksFrame(s, Apply(s, a));
  }

  lemma CancelPendingKeepsClose(s: State, todo: seq<Future>)
    requires CloseOk(s) && FuturesOk(s) && Enabled(s, CancelPending(todo))
    ensures CloseOk(Apply(s, CancelPending(todo)))
  {
    forall f: Future | f < s.futures && f !in s.outcome
      ensures f in todo
    {
      assert f in Unsettled(s);
    }
    forall f | f in todo
      ensures f < s.futures
    {
      assert f in Unsettled(s);
    }
  }

  lemma CancelNextGoesOn(s: State)
    requires Enabled(s, CancelNext)
    ensures var u, rest, stop := Apply(s, CancelNext), s.loop.todo[1..], s.loop.thenStop;
      && u.loop == (if rest != [] then Cancelling(rest, stop) else Idle)
      && u.closer == (if rest == [] && stop.Some? then Stopping(stop.value) else s.closer)
  {
  }

  lemma CancelNextKeepsClose(s: State)
    requires CloseOk(s) && Enabled(s, CancelNext)
    ensures CloseOk(Apply(s, CancelNext))
  {
    var todo, rest := s.loop.todo, s.loop.todo[1..];
    assert forall f :: f in todo <==> f == todo[0] || f in rest;
    CancelNextIs(s);
    CancelNextGoesOn(s);
    hide Apply, CancelFuture;
  }

  /** A channel's own steps lose no end marker. */
  lemma StepKeepsMarker(s: State, a: Action, owner: Owner)
    requires Enabled(s, a) && owner in s.channels && (s.channels[owner].finished || Stop in s.channels[owner].queue)
    requires a.Resolve? || a.Bind? || a.Discard? || a.RunCallback? || a.Dequeue? || a.Deliver? || a.Finish?
    ensures var t := Apply(s, a);
      owner in t.channels && (t.channels[owner].finished || Stop in t.channels[owner].queue)
  {
    hide Lists, Unsettled, IsCancelled;
    if a.Dequeue? && a.owner == owner {
      Sequences.ConsIs(s.channels[owner].queue);
    }
  }

  lemma StepKeepsClosing(s: State, a: Action)
    requires Enabled(s, a)
    requires a.Resolve? || a.Bind? || a.Discard? || a.RunCallback? || a.Dequeue? || a.Deliver? || a.Finish?
    ensures var t := Apply(s, a);
      && t.closed == s.closed && t.loop == s.loop && t.closer == s.closer
      && s.channels.Keys <= t.channels.Keys && (forall f :: f in s.outcome ==> f in t.outcome)
      && t.futures >= s.futures && (s.closed ==> t.futures == s.futures)
  {
    hide Dequeued, Delivered, AfterCommand;
  }

  lemma CloserKept(s: State, a: Action)
    requires CloseOk(s) && Enabled(s, a) && (a.BeginClose? || a.StopNext? || a.Join?)
    ensures CloseOk(Apply(s, a))
  {
  }

  lemma CloseKept(s: State, a: Action)
    requires Inv(s) && Enabled(s, a)
    ensures CloseOk(Apply(s, a))
  {
    hide ChannelsOk, CallbacksOk, FuturesOk, Enabled, Apply;
    if a.CancelPending? {
      CancelPendingKeepsClose(s, a.todo);
    } else if a.CancelNext? {
      CancelNextKeepsClose(s);
    } else if a.BeginClose? || a.StopNext? || a.Join? {
      CloserKept(s, a);
    } else {
      StepKeepsClosing(s, a);
      if s.closer.Waiting? {
        StepKeepsMarker(s, a, s.closer.channel);
      }
    }
  }

  lemma InvKept(s: State, a: Action)
    requires Inv(s) && Enabled(s, a)
    ensures Inv(Apply(s, a))
  {
    ChannelsKept(s, a);
    CallbacksKept(s, a);
    FuturesKept(s, a);
    CloseKept(s, a);
    hide ChannelsOk, CallbacksOk, FuturesOk, CloseOk, Enabled, Apply;
  }
}
