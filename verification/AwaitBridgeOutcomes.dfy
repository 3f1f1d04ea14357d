/**
 * Which outcome each future of the await bridge takes, and what its cancellations reach: over whole
 * runs, from the actions and the states they were taken in.
 */
module AwaitBridgeOutcomes {
  import opened AwaitBridge
  import opened AwaitBridgeRuns
  import opened Wrappers
  import Sequences

  // ---------------------------------------------------------------------
  // Outcomes
  // ---------------------------------------------------------------------

  /** At step `i` of the run the loop cancels `future`, which had no outcome. */
  predicate Cancels(actions: seq<Action>, i: nat, future: Future) {
    && i < |actions| && actions[i] == CancelNext && Execution(actions[..i]).Some?
    && var s := Execution(actions[..i]).value;
       s.loop.Cancelling? && s.loop.todo != [] && s.loop.todo[0] == future && future !in s.outcome
  }

  /** At step `i` the command of `future`, which had no outcome, ends with `result`. */
  predicate Ends(actions: seq<Action>, i: nat, future: Future, result: Outcome) {
    && i < |actions| && actions[i].Finish? && actions[i].result == result && Execution(actions[..i]).Some?
    && var s := Execution(actions[..i]).value;
       && actions[i].owner in s.channels && s.channels[actions[i].owner].active == Some(future)
       && future !in s.outcome
  }

  lemma StepOutcomes(s: State, a: Action)
    requires Enabled(s, a)
    ensures Apply(s, a).outcome ==
      if a == CancelNext && s.loop.todo[0] !in s.outcome then s.outcome[s.loop.todo[0] := Cancelled]
      else if a.Finish? && s.channels[a.owner].active.value !in s.outcome
      then s.outcome[s.channels[a.owner].active.value := a.result]
      else s.outcome
  {
    if a == CancelNext {
      CancelNextIs(s);
      hide Apply;
    } else {
      hide Lists, Unsettled, CancelFuture, Dequeued, Delivered, AfterCommand;
    }
  }

  /** The run before its last step. */
  lemma {:induction false} LastStep(actions: seq<Action>)
    requires actions != [] && Execution(actions).Some?
    ensures var last := |actions| - 1;
      && Execution(actions[..last]).Some? && Enabled(Execution(actions[..last]).value, actions[last])
      && Execution(actions).value == Apply(Execution(actions[..last]).value, actions[last])
  {
    hide Enabled, Apply;
  }

  /** The future whose command ends takes its result, unless it was cancelled meanwhile; no other changes. */
  lemma {:induction false} FinishSettles(actions: seq<Action>, owner: Owner, result: Outcome)
    requires Execution(actions + [Finish(owner, result)]).Some?
    ensures Execution(actions).Some?
    ensures var s, t := Execution(actions).value, Execution(actions + [Finish(owner, result)]).value;
      && owner in s.channels && s.channels[owner].active.Some?
      && var future := s.channels[owner].active.value;
         t.outcome == if future in s.outcome then s.outcome else s.outcome[future := result]
  {
    Sequences.FrontLast(actions, Finish(owner, result));
    LastStep(actions + [Finish(owner, result)]);
    StepOutcomes(Execution(actions).value, Finish(owner, result));
    hide Execution, Apply;
  }

  /** The outcome a future holds, if it is this one. */
  predicate HasOutcome(s: State, future: Future, outcome: Outcome) {
    future in s.outcome && s.outcome[future] == outcome
  }

  /** How it came to hold it, by step `i`. */
  predicate Takes(actions: seq<Action>, i: nat, future: Future, outcome: Outcome) {
    if outcome == Cancelled then Cancels(actions, i, future) else Ends(actions, i, future, outcome)
  }

  lemma TakesBefore(actions: seq<Action>, n: nat, i: nat, future: Future, outcome: Outcome)
    requires n <= |actions| && i < n
    ensures Takes(actions[..n], i, future, outcome) <==> Takes(actions, i, future, outcome)
  {
    assert actions[..n][..i] == actions[..i];
    hide Execution;
  }

  lemma {:induction false} TakesLast(actions: seq<Action>, future: Future, outcome: Outcome)
    requires actions != [] && Execution(actions).Some? && Execution(actions[..|actions| - 1]).Some?
    ensures Takes(actions, |actions| - 1, future, outcome) <==>
      && HasOutcome(Execution(actions).value, future, outcome)
      && future !in Execution(actions[..|actions| - 1]).value.outcome
  {
    LastStep(actions);
    var s, a := Execution(actions[..|actions| - 1]).value, actions[|actions| - 1];
    StepOutcomes(s, a);
    assert a == CancelNext ==> s.loop.Cancelling? && s.loop.todo != [];
    assert a.Finish? ==> a.owner in s.channels && s.channels[a.owner].active.Some? && a.result != Cancelled;
    hide Execution, Apply, Enabled;
  }

  /**
   * In every reachable state a future is cancelled exactly if a cancel took it while it had no
   * outcome, and it holds a result exactly if its command ended with that result while it had none.
   */
  lemma {:induction false} OutcomeIs(actions: seq<Action>, future: Future, outcome: Outcome)
    requires Execution(actions).Some?
    ensures HasOutcome(Execution(actions).value, future, outcome) <==>
      exists i: nat :: i < |actions| && Takes(actions, i, future, outcome)
  {
    hide Enabled, Apply, Takes;
    if actions != [] {
      var last := |actions| - 1;
      LastStep(actions);
      var s, t := Execution(actions[..last]).value, Execution(actions).value;
      OutcomeIs(actions[..last], future, outcome);
      StepFollows(s, actions[last]);
      TakesLast(actions, future, outcome);
      hide Execution;
      forall i: nat | i < last
        ensures Takes(actions[..last], i, future, outcome) <==> Takes(actions, i, future, outcome)
      {
        TakesBefore(actions, last, i, future, outcome);
      }
      if HasOutcome(s, future, outcome) {
        var i: nat :| i < last && Takes(actions[..last], i, future, outcome);
        assert Takes(actions, i, future, outcome);
      }
    }
  }

  // ---------------------------------------------------------------------
  // What a cancel reaches
  // ---------------------------------------------------------------------

  /** Futures that some cancel has collected or that have an outcome. */
  predicate Reached(t: State, futures: set<Future>) {
    forall f | f in futures :: f in t.outcome || (t.loop.Cancelling? && f in t.loop.todo)
  }

  lemma StepReaches(s: State, a: Action, futures: set<Future>)
    requires Enabled(s, a) && Reached(s, futures)
    ensures Reached(Apply(s, a), futures)
  {
    StepFollows(s, a);
    if a == CancelNext {
      assert forall f :: f in s.loop.todo <==> f == s.loop.todo[0] || f in s.loop.todo[1..];
      CancelNextIs(s);
      CancelNextGoesOn(s);
      hide Apply;
    } else {
      hide Lists, Unsettled, Dequeued, Delivered, AfterCommand, Follows;
    }
  }

  lemma Collects(s: State, todo: seq<Future>, future: Future)
    requires Inv(s) && Enabled(s, CancelPending(todo))
    ensures var t := Apply(s, CancelPending(todo));
      future < s.futures ==> future in t.outcome || (t.loop.Cancelling? && future in t.loop.todo)
  {
    hide ChannelsOk, CallbacksOk, CloseOk;
    if future < s.futures && future !in s.outcome {
      assert future in Unsettled(s);
    }
  }

  /**
   * A cancel misses nothing: every future that was submitted and unsettled when `cancel_pending` was
   * called has an outcome, whatever happens in between, as soon as the loop is through with it.
   */
  lemma {:induction false} CancelReachesAll(actions: seq<Action>, todo: seq<Future>, more: seq<Action>, future: Future)
    requires Execution(actions + [CancelPending(todo)] + more).Some?
    ensures Execution(actions).Some?
    ensures var s, t := Execution(actions).value, Execution(actions + [CancelPending(todo)] + more).value;
      future < s.futures ==> future in t.outcome || (t.loop.Cancelling? && future in t.loop.todo)
    decreases |more|
  {
    hide Enabled, Apply, Inv;
    var all := actions + [CancelPending(todo)] + more;
    LastStep(all);
    if more == [] {
      assert all == actions + [CancelPending(todo)];
      Sequences.FrontLast(actions, CancelPending(todo));
      InvHolds(actions);
      Collects(Execution(actions).value, todo, future);
    } else {
      var last := |more| - 1;
      assert all[..|all| - 1] == actions + [CancelPending(todo)] + more[..last];
      CancelReachesAll(actions, todo, more[..last], future);
      if future < Execution(actions).value.futures {
        StepReaches(Execution(all[..|all| - 1]).value, all[|all| - 1], {future});
      }
    }
  }

  // ---------------------------------------------------------------------
  // What a cancel does to a command
  // ---------------------------------------------------------------------

  function Submitted(s: State, owner: Owner): seq<Future> {
    if owner in s.channels then s.channels[owner].submitted else []
  }

  /** What an owner's thread submitted is at home with that owner. */
  predicate HomeOf(s: State, owner: Owner) {
    forall f | f in Submitted(s, owner) :: f in s.home && s.home[f] == owner
  }

  ghost predicate AtHome(s: State) {
    forall owner: Owner :: HomeOf(s, owner)
  }

  /** The cancellation of a running command is on its way to it, or there, or has been thrown into it. */
  ghost predicate Noticed(s: State, owner: Owner) {
    owner in s.channels && s.channels[owner].active.Some? ==>
      var c := s.channels[owner];
      var f := c.active.value;
      IsCancelled(s.outcome, f) ==> Interrupt(owner, f) in s.ready || c.interrupting || Interrupted(f) in c.trace
  }

  ghost predicate CancelsOk(s: State) {
    AtHome(s) && forall owner: Owner :: Noticed(s, owner)
  }

  /** Steps that touch no channel and no future. */
  lemma Untouched(s: State, a: Action)
    requires Enabled(s, a) && (a.CancelPending? || a.BeginClose? || a.Join? || a.Discard?)
    ensures var t := Apply(s, a);
      t.channels == s.channels && t.ready == s.ready && t.outcome == s.outcome && t.home == s.home
  {
    hide Lists, Unsettled;
  }

  lemma TaskSubmits(s: State, a: Action, owner: Owner)
    requires Enabled(s, a) && (a.Dequeue? || a.Deliver? || a.Finish?)
    ensures Apply(s, a).home == s.home && Submitted(Apply(s, a), owner) == Submitted(s, owner)
  {
    hide Lists, Unsettled, IsCancelled;
  }

  lemma BindSubmits(s: State, a: Action, owner: Owner)
    requires Enabled(s, a) && (a.Bind? || a.StopNext?)
    ensures Apply(s, a).home == s.home && Submitted(Apply(s, a), owner) == Submitted(s, owner)
  {
    hide Lists, Unsettled;
  }

  lemma CallbackSubmits(s: State, owner: Owner)
    requires Enabled(s, RunCallback)
    ensures Apply(s, RunCallback).home == s.home
    ensures Submitted(Apply(s, RunCallback), owner) == Submitted(s, owner)
  {
    hide Lists, Unsettled;
  }

  lemma CancelNextSubmits(s: State, owner: Owner)
    requires Enabled(s, CancelNext)
    ensures Apply(s, CancelNext).home == s.home && Submitted(Apply(s, CancelNext), owner) == Submitted(s, owner)
  {
    CancelNextIs(s);
    hide Apply;
  }

  lemma UntouchedSubmits(s: State, a: Action, owner: Owner)
    requires Enabled(s, a) && (a.CancelPending? || a.BeginClose? || a.Join? || a.Discard?)
    ensures Apply(s, a).home == s.home && Submitted(Apply(s, a), owner) == Submitted(s, owner)
  {
    Untouched(s, a);
    hide Apply, Enabled;
  }

  /** Only `resolve` submits. */
  lemma SubmittedKept(s: State, a: Action, owner: Owner)
    requires Enabled(s, a) && !a.Resolve?
    ensures Apply(s, a).home == s.home && Submitted(Apply(s, a), owner) == Submitted(s, owner)
  {
    hide Apply, Enabled, Submitted;
    if a == CancelNext {
      CancelNextSubmits(s, owner);
    } else if a.Dequeue? || a.Deliver? || a.Finish? {
      TaskSubmits(s, a, owner);
    } else if a.RunCallback? {
      CallbackSubmits(s, owner);
    } else if a.Bind? || a.StopNext? {
      BindSubmits(s, a, owner);
    } else {
      UntouchedSubmits(s, a, owner);
    }
  }

  lemma SubmittedIsBelow(s: State, owner: Owner, future: Future)
    requires ChannelsOk(s) && owner in s.channels && future in s.channels[owner].submitted
    ensures future < s.futures
  {
    hide TraceOk;
    assert OrderOk(s.channels[owner], owner, s.ready, s.futures);
  }

  lemma ResolveHome(s: State, asked: Owner, owner: Owner)
    requires Inv(s) && HomeOf(s, owner)
    ensures HomeOf(ResolveStep(s, asked), owner)
  {
    forall f | f in Submitted(s, owner) ensures f < s.futures {
      SubmittedIsBelow(s, owner, f);
    }
    hide Inv;
  }

  lemma ResolveApplies(s: State, owner: Owner)
    ensures Apply(s, Resolve(owner)) == ResolveStep(s, owner)
  {
  }

  lemma HomeKept(s: State, a: Action)
    requires Inv(s) && AtHome(s) && Enabled(s, a)
    ensures AtHome(Apply(s, a))
  {
    hide Apply, Enabled, Inv, Submitted, ResolveStep;
    forall owner: Owner ensures HomeOf(Apply(s, a), owner) {
      assert HomeOf(s, owner);
      if a.Resolve? {
        ResolveHome(s, a.owner, owner);
        ResolveApplies(s, a.owner);
      } else {
        SubmittedKept(s, a, owner);
      }
    }
  }

  lemma QuietChannel(s: State, t: State, owner: Owner)
    requires Noticed(s, owner) && owner in s.channels && owner in t.channels
    requires t.channels[owner].active == s.channels[owner].active
    requires t.channels[owner].interrupting == s.channels[owner].interrupting
    requires t.channels[owner].trace == s.channels[owner].trace
    requires forall c :: c in s.ready ==> c in t.ready
    requires var active := s.channels[owner].active;
      active.Some? && IsCancelled(t.outcome, active.value) ==>
        IsCancelled(s.outcome, active.value) || Interrupt(owner, active.value) in t.ready
    ensures Noticed(t, owner)
  {
  }

  lemma ActiveIsIn(channel: Channel, owner: Owner, s: State)
    requires ChannelOk(channel, owner, s) && channel.active.Some?
    ensures channel.active.value in channel.submitted
  {
    RunningIsTaken(channel.trace);
  }

  lemma ActiveIsAtHome(s: State, owner: Owner)
    requires ChannelsOk(s) && AtHome(s) && owner in s.channels && s.channels[owner].active.Some?
    ensures var future := s.channels[owner].active.value; future in s.home && s.home[future] == owner
  {
    hide TraceOk, OrderOk;
    ActiveIsIn(s.channels[owner], owner, s);
    assert HomeOf(s, owner);
    hide ChannelsOk, AtHome;
  }

  lemma CancelAsks(s: State, future: Future)
    requires future in s.home
    ensures var t := CancelFuture(s, future);
      && (forall c :: c in s.ready ==> c in t.ready)
      && (future !in s.outcome ==> Interrupt(s.home[future], future) in t.ready)
      && (forall f :: IsCancelled(t.outcome, f) ==> IsCancelled(s.outcome, f) || (f == future && f !in s.outcome))
  {
  }

  lemma CancelNextNotices(s: State, owner: Owner)
    requires Inv(s) && AtHome(s) && Noticed(s, owner) && Enabled(s, CancelNext) && owner in s.channels
    ensures Noticed(Apply(s, CancelNext), owner)
  {
    CancelNextIs(s);
    CancelAsks(s, s.loop.todo[0]);
    if s.channels[owner].active.Some? {
      ActiveIsAtHome(s, owner);
    }
    hide Apply, Enabled, Inv, Noticed, AtHome, CancelFuture, IsCancelled;
    QuietChannel(s, Apply(s, CancelNext), owner);
  }

  lemma CallbackNotices(s: State, owner: Owner)
    requires Noticed(s, owner) && Enabled(s, RunCallback) && owner in s.channels
    ensures Noticed(Apply(s, RunCallback), owner)
  {
    var t, c := Apply(s, RunCallback), s.ready[0];
    assert forall x :: x in s.ready <==> x == c || x in s.ready[1..];
    hide Enabled, IsCancelled;
  }

  lemma FinishedIsNotCancelled(s: State, a: Action, owner: Owner)
    requires Enabled(s, a) && a.Finish?
    ensures forall f :: IsCancelled(Apply(s, a).outcome, f) ==> IsCancelled(s.outcome, f)
  {
    StepOutcomes(s, a);
    assert a.result != Cancelled;
    hide Apply, Enabled;
  }

  lemma TaskNotices(s: State, a: Action, owner: Owner)
    requires Noticed(s, owner) && Enabled(s, a) && (a.Dequeue? || a.Deliver? || a.Finish?) && owner in s.channels
    ensures Noticed(Apply(s, a), owner)
  {
    hide Lists, Unsettled;
    var before, t := s.channels[owner], Apply(s, a);
    if a.owner != owner {
      assert t.channels[owner] == before;
      assert t.ready == s.ready;
      if a.Finish? {
        FinishedIsNotCancelled(s, a, owner);
      }
    } else if a.Deliver? {
      assert Interrupted(before.active.value) in t.channels[owner].trace by {
        Sequences.FrontLast(before.trace, Interrupted(before.active.value));
      }
    }
  }

  /** A step that leaves the task of a channel alone, or makes a new channel. */
  predicate TaskAlone(s: State, t: State, owner: Owner) {
    && t.outcome == s.outcome && (forall c | c in s.ready :: c in t.ready)
    && (owner in t.channels ==>
          var before, after := if owner in s.channels then s.channels[owner] else FRESH, t.channels[owner];
          && after.active == before.active && after.interrupting == before.interrupting
          && after.trace == before.trace)
  }

  lemma ResolveAlone(s: State, asked: Owner, owner: Owner)
    ensures TaskAlone(s, ResolveStep(s, asked), owner)
  {
  }

  lemma BindAlone(s: State, a: Action, owner: Owner)
    requires Enabled(s, a) && (a.Bind? || a.StopNext?)
    ensures TaskAlone(s, Apply(s, a), owner)
  {
    hide Lists, Unsettled;
  }

  lemma UntouchedAlone(s: State, a: Action, owner: Owner)
    requires Enabled(s, a) && (a.CancelPending? || a.BeginClose? || a.Join? || a.Discard?)
    ensures TaskAlone(s, Apply(s, a), owner)
  {
    Untouched(s, a);
    hide Apply, Enabled;
  }

  lemma AloneNotices(s: State, t: State, owner: Owner)
    requires TaskAlone(s, t, owner) && Noticed(s, owner)
    ensures Noticed(t, owner)
  {
  }

  lemma StepNotices(s: State, a: Action, owner: Owner)
    requires Noticed(s, owner) && Enabled(s, a) && owner in s.channels
    requires a.RunCallback? || a.Dequeue? || a.Deliver? || a.Finish?
    ensures Noticed(Apply(s, a), owner)
  {
    hide Noticed, Apply, Enabled;
    if a.RunCallback? {
      CallbackNotices(s, owner);
    } else {
      TaskNotices(s, a, owner);
    }
  }

  lemma NoNewChannel(s: State, a: Action)
    requires Enabled(s, a) && (a.RunCallback? || a.Dequeue? || a.Deliver? || a.Finish?)
    ensures Apply(s, a).channels.Keys == s.channels.Keys
  {
    hide Lists, Unsettled, Dequeued, Delivered, AfterCommand;
  }

  lemma NoticeKept(s: State, a: Action, owner: Owner)
    requires Inv(s) && AtHome(s) && Enabled(s, a) && Noticed(s, owner)
    ensures Noticed(Apply(s, a), owner)
  {
    hide Apply, Enabled, Inv, AtHome, TaskAlone, ResolveStep;
    if a.CancelNext? {
      if owner in s.channels {
        CancelNextNotices(s, owner);
      } else {
        CancelNextIs(s);
      }
    } else if a.RunCallback? || a.Dequeue? || a.Deliver? || a.Finish? {
      if owner in s.channels {
        StepNotices(s, a, owner);
      } else {
        NoNewChannel(s, a);
      }
    } else {
      if a.Resolve? {
        ResolveAlone(s, a.owner, owner);
        ResolveApplies(s, a.owner);
      } else if a.Bind? || a.StopNext? {
        BindAlone(s, a, owner);
      } else {
        UntouchedAlone(s, a, owner);
      }
      hide Noticed;
      AloneNotices(s, Apply(s, a), owner);
    }
  }

  lemma FirstNoticed()
    ensures CancelsOk(INITIAL)
  {
  }

  lemma {:induction false} CancelsOkHolds(actions: seq<Action>)
    requires Execution(actions).Some?
    ensures CancelsOk(Execution(actions).value)
  {
    hide Enabled, Apply, Inv, AtHome, Noticed;
    if actions == [] {
      FirstNoticed();
    } else {
      LastStep(actions);
      var last := |actions| - 1;
      CancelsOkHolds(actions[..last]);
      InvHolds(actions[..last]);
      var s := Execution(actions[..last]).value;
      HomeKept(s, actions[last]);
      forall owner: Owner ensures Noticed(Execution(actions).value, owner) {
        NoticeKept(s, actions[last], owner);
      }
    }
  }

  /**
   * No cancellation of a running command is lost: the request to interrupt it is queued on the loop,
   * or the task is being cancelled, or CancelledError has been thrown into the command.
   */
  lemma {:induction false} CancelIsNoticed(actions: seq<Action>, owner: Owner)
    requires Execution(actions).Some? && owner in Execution(actions).value.channels
    ensures var s := Execution(actions).value;
      var c := s.channels[owner];
      c.active.Some? && c.active.value in s.outcome && s.outcome[c.active.value] == Cancelled ==>
        Interrupt(owner, c.active.value) in s.ready || c.interrupting || Interrupted(c.active.value) in c.trace
  {
    CancelsOkHolds(actions);
    assert Noticed(Execution(actions).value, owner);
    hide Execution, CancelsOk;
  }

  lemma StepStarts(s: State, a: Action, owner: Owner, future: Future)
    requires Enabled(s, a) && IsCancelled(s.outcome, future)
    requires owner in s.channels ==> Started(future) !in s.channels[owner].trace
    ensures var t := Apply(s, a);
      && IsCancelled(t.outcome, future) && (owner in t.channels ==> Started(future) !in t.channels[owner].trace)
  {
    StepFollows(s, a);
    if a == CancelNext {
      CancelNextIs(s);
      hide Apply;
    } else {
      hide Lists, Unsettled, Follows;
    }
  }

  /** A command that was cancelled before it started never starts. */
  lemma {:induction false} CancelledNeverStarts(actions: seq<Action>, more: seq<Action>, owner: Owner, future: Future)
    requires Execution(actions + more).Some? && Execution(actions).Some?
    requires var s := Execution(actions).value;
      IsCancelled(s.outcome, future) && (owner in s.channels ==> Started(future) !in s.channels[owner].trace)
    ensures var t := Execution(actions + more).value;
      IsCancelled(t.outcome, future) && (owner in t.channels ==> Started(future) !in t.channels[owner].trace)
    decreases |more|
  {
    hide Enabled, Apply, IsCancelled;
    if more == [] {
      assert actions + more == actions;
    } else {
      var last := |more| - 1;
      assert (actions + more)[..|actions + more| - 1] == actions + more[..last];
      LastStep(actions + more);
      CancelledNeverStarts(actions, more[..last], owner, future);
      StepStarts(Execution(actions + more[..last]).value, more[last], owner, future);
    }
  }

  // ---------------------------------------------------------------------
  // What a close reaches
  // ---------------------------------------------------------------------

  /** Every channel is finished, or waited for, or still to be stopped. */
  ghost predicate StoppedOk(s: State) {
    s.closed ==> forall owner :: owner in s.channels ==>
      s.channels[owner].finished || owner in ToStop(s) || (s.closer.Waiting? && s.closer.channel == owner)
  }

  lemma FinishedStays(s: State, a: Action)
    requires Enabled(s, a)
    requires a.Resolve? || a.Bind? || a.Discard? || a.RunCallback? || a.Dequeue? || a.Deliver? || a.Finish?
    ensures var t := Apply(s, a);
      && (s.closed ==> t.channels.Keys == s.channels.Keys)
      && forall owner :: owner in s.channels ==>
        owner in t.channels && (s.channels[owner].finished ==> t.channels[owner].finished)
  {
    hide Lists, Unsettled, IsCancelled;
  }

  lemma StopsKept(s: State, a: Action)
    requires Inv(s) && StoppedOk(s) && Enabled(s, a)
    ensures StoppedOk(Apply(s, a))
  {
    hide ChannelsOk, CallbacksOk, FuturesOk;
    if a == CancelNext {
      CancelNextIs(s);
      CancelNextGoesOn(s);
      hide Apply;
    } else if a.StopNext? || a.Join? || a.BeginClose? || a.CancelPending? {
      hide Unsettled;
    } else {
      StepKeepsClosing(s, a);
      FinishedStays(s, a);
      hide Apply, Enabled;
    }
  }

  lemma NotClosed()
    ensures StoppedOk(INITIAL)
  {
  }

  lemma {:induction false} StoppedOkHolds(actions: seq<Action>)
    requires Execution(actions).Some?
    ensures StoppedOk(Execution(actions).value)
  {
    hide Enabled, Apply, Inv, StoppedOk;
    if actions == [] {
      assert StoppedOk(INITIAL) by {
        NotClosed();
      }
    } else {
      LastStep(actions);
      StoppedOkHolds(actions[..|actions| - 1]);
      InvHolds(actions[..|actions| - 1]);
      StopsKept(Execution(actions[..|actions| - 1]).value, actions[|actions| - 1]);
    }
  }

  /** When `close` has returned, the task of every channel there is has finished. */
  lemma {:induction false} CloseStopsAll(actions: seq<Action>, owner: Owner)
    requires Execution(actions).Some? && owner in Execution(actions).value.channels
    ensures Execution(actions).value.closer == Closed ==> Execution(actions).value.channels[owner].finished
  {
    StoppedOkHolds(actions);
    InvHolds(actions);
    hide Execution, ChannelsOk, CallbacksOk, FuturesOk;
  }
}
