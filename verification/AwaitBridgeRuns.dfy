/**
 * What whole runs of the await bridge keep, whatever the interleaving: its settlements, its
 * channels, the latched cancel, and the return of `close`.
 */
module AwaitBridgeRuns {
  import opened AwaitBridge
  import opened Wrappers
  import Sequences

  lemma InitialInv()
    ensures Inv(INITIAL)
  {
  }

  /** Every state a run can reach satisfies the invariant. */
  lemma {:induction false} InvHolds(actions: seq<Action>)
    ensures Execution(actions).Some? ==> Inv(Execution(actions).value)
  {
    hide Inv, Enabled, Apply;
    if actions == [] {
      InitialInv();
    } else {
      var before := actions[..|actions| - 1];
      InvHolds(before);
      if Execution(actions).Some? {
        InvKept(Execution(before).value, actions[|actions| - 1]);
      }
    }
  }

  ghost predicate Follows(s: State, t: State) {
    && s.settled <= t.settled
    && (forall f :: f in s.outcome ==> f in t.outcome && t.outcome[f] == s.outcome[f])
    && (s.closed ==> t.closed && t.futures == s.futures)
  }

  lemma FinishFollows(s: State, owner: Owner, result: Outcome)
    requires Enabled(s, Finish(owner, result))
    ensures Follows(s, FinishStep(s, owner, result))
  {
  }

  /** One step adds at most one settlement, never changes one, and submits nothing once closed. */
  lemma StepFollows(s: State, a: Action)
    requires Enabled(s, a)
    ensures Follows(s, Apply(s, a))
  {
    hide Lists, Unsettled, IsOpen, Dequeued, Delivered, AfterCommand;
    match a
    case Finish(owner, result) => FinishFollows(s, owner, result);
    case _ =>
  }

  lemma {:induction false} RunsFollow(actions: seq<Action>, more: seq<Action>)
    requires Execution(actions + more).Some?
    ensures Execution(actions).Some?
    ensures Follows(Execution(actions).value, Execution(actions + more).value)
    decreases |more|
  {
    hide Enabled, Apply, Inv;
    if more == [] {
      assert actions + more == actions;
    } else {
      var last := |more| - 1;
      assert (actions + more)[..|actions + more| - 1] == actions + more[..last];
      RunsFollow(actions, more[..last]);
      StepFollows(Execution(actions + more[..last]).value, more[last]);
    }
  }

  /** How often `future` was settled. */
  function Settlements(s: State, future: Future): nat {
    multiset(s.settled)[future]
  }

  lemma {:induction false} NoDupCounts(s: seq<Future>, f: Future)
    requires Sequences.Distinct(s)
    ensures multiset(s)[f] == if f in s then 1 else 0
  {
    if s != [] {
      var last := |s| - 1;
      assert s == s[..last] + [s[last]];
      NoDupCounts(s[..last], f);
    }
  }

  /**
   * In every interleaving a future settles at most once, and its outcome never changes. When
   * `close` has returned every future submitted has settled exactly once, and however the run goes
   * on no `resolve` submits another.
   */
  lemma {:induction false} SettlesExactlyOnce(actions: seq<Action>, more: seq<Action>, future: Future)
    requires Execution(actions + more).Some?
    ensures Execution(actions).Some?
    ensures var s, t := Execution(actions).value, Execution(actions + more).value;
      && Settlements(t, future) <= 1
      && (future in s.outcome ==> Settlements(s, future) == Settlements(t, future) == 1)
      && (future in s.outcome ==> future in t.outcome && t.outcome[future] == s.outcome[future])
      && (s.closer == Closed ==> t.futures == s.futures)
      && (s.closer == Closed ==> (Settlements(s, future) == 1 <==> future < s.futures))
  {
    RunsFollow(actions, more);
    InvHolds(actions);
    InvHolds(actions + more);
    var s, t := Execution(actions).value, Execution(actions + more).value;
    NoDupCounts(s.settled, future);
    NoDupCounts(t.settled, future);
    hide Execution, ChannelsOk, CallbacksOk;
  }

  /**
   * Each channel runs its commands one at a time, in the order they were submitted, and a task is
   * interrupted only while it runs a command whose own future was cancelled.
   */
  lemma {:induction false} ChannelsAreSequential(actions: seq<Action>, owner: Owner)
    requires Execution(actions).Some? && owner in Execution(actions).value.channels
    ensures var s := Execution(actions).value;
      var channel := s.channels[owner];
      && Running(channel.trace) == Some(channel.active)
      && Taken(channel.trace) <= channel.submitted && Increasing(channel.submitted)
      && (forall e :: e in channel.trace && (e.Interrupted? || e.Skipped?) ==>
            e.future in s.outcome && s.outcome[e.future] == Cancelled)
  {
    InvHolds(actions);
    hide Execution, Running, Taken, CallbacksOk, FuturesOk, CloseOk;
  }

  /** The last cancel since the latest `resolve` found nothing to cancel. */
  predicate Latched(actions: seq<Action>) {
    if actions == [] then false
    else
      var last := |actions| - 1;
      match actions[last]
      case Resolve(_) => false
      case CancelPending(todo) => todo == []
      case _ => Latched(actions[..last])
  }

  lemma StepLatches(s: State, a: Action)
    requires Enabled(s, a)
    ensures Apply(s, a).cancelRequested == match a
      case Resolve(_) => false
      case CancelPending(todo) => todo == []
      case _ => s.cancelRequested
  {
    if a.CancelNext? {
      CancelNextIs(s);
      hide Apply, Enabled;
    } else {
      hide Lists, Unsettled, IsOpen, Dequeued, Delivered, AfterCommand, CancelFuture;
    }
  }

  lemma {:induction false} LatchIsFlag(actions: seq<Action>)
    ensures Execution(actions).Some? ==> Execution(actions).value.cancelRequested == Latched(actions)
  {
    hide Enabled, Apply;
    if Execution(actions).Some? && actions != [] {
      var last := |actions| - 1;
      LatchIsFlag(actions[..last]);
      StepLatches(Execution(actions[..last]).value, actions[last]);
    }
  }

  /**
   * A `resolve` is refused exactly when the bridge is closed or a cancel that found nothing pending
   * has not been consumed yet; a refusal consumes it, so an open bridge accepts the next one.
   */
  lemma {:induction false} CancelIsConsumedOnce(actions: seq<Action>, owner: Owner)
    requires Execution(actions).Some?
    ensures var s := Execution(actions).value;
      var t := Apply(s, Resolve(owner));
      && (t.futures == s.futures <==> s.closed || Latched(actions))
      && !Latched(actions + [Resolve(owner)])
      && (!s.closed ==> Apply(t, Resolve(owner)).futures == t.futures + 1)
  {
    LatchIsFlag(actions);
    var s := Execution(actions).value;
    hide Execution;
  }

  /** `close` itself can go on, or the task of the channel it waits for can. */
  predicate Moves(s: State) {
    || Enabled(s, StopNext) || Enabled(s, Join)
    || (s.closer.Waiting?
        && (|| Enabled(s, Dequeue(s.closer.channel))
            || Enabled(s, Deliver(s.closer.channel))
            || Enabled(s, Finish(s.closer.channel, Returned))))
  }

  /** `close` never waits for a channel that cannot move: its task can step, or has finished. */
  lemma {:induction false} CloseIsNotStuck(actions: seq<Action>)
    requires Execution(actions).Some?
    requires var s := Execution(actions).value; s.loop == Idle && s.closer != NotClosing && s.closer != Closed
    ensures Moves(Execution(actions).value)
  {
    InvHolds(actions);
    hide Execution;
  }

  // ---------------------------------------------------------------------
  // `close` returns
  // ---------------------------------------------------------------------

  /** The steps a channel's task may still take for what it holds. */
  function Cost(channel: Channel): nat {
    2 * |channel.queue| + (if channel.active.Some? then 1 else 0) + (if channel.interrupting then 1 else 0)
  }

  function Costs(channels: map<Owner, Channel>, owners: seq<Owner>): nat
    requires forall o | o in owners :: o in channels
  {
    if owners == [] then 0 else Cost(channels[owners[0]]) + Costs(channels, owners[1..])
  }

  function LoopWork(s: State): nat {
    match s.loop
    case Idle => 0
    case Closing(_) => 1 + 4 * |Unsettled(s)|
    case Cancelling(todo, _) => 4 * |todo|
  }

  function CloserWork(s: State): nat {
    4 * |ToStop(s)| + (if s.closer.Waiting? then 1 else 0) + (if s.closer == Closed then 0 else 1)
  }

  /** A bound on the steps that are left for the loop, the channels and `close` once it has begun. */
  function Work(s: State, owners: seq<Owner>): nat
    requires forall o | o in owners :: o in s.channels
  {
    3 * |s.ready| + Costs(s.channels, owners) + LoopWork(s) + CloserWork(s)
  }

  /** A step of the loop thread on the way to the end; the end of a running command is one. */
  predicate Advances(s: State, a: Action) {
    || a.CancelNext? || a.RunCallback? || a.Dequeue? || a.Deliver? || a.Finish? || a.StopNext? || a.Join?
    || (a.CancelPending? && s.loop.Closing?)
  }

  ghost predicate CanAdvance(s: State) {
    exists a :: Enabled(s, a) && Advances(s, a)
  }

  lemma {:induction false} CostsUpdate(channels: map<Owner, Channel>, owners: seq<Owner>, owner: Owner,
                                       channel: Channel)
    requires Sequences.Distinct(owners) && (forall o | o in owners :: o in channels) && owner in channels
    ensures Costs(channels[owner := channel], owners) ==
      Costs(channels, owners) + if owner in owners then Cost(channel) - Cost(channels[owner]) else 0
  {
    hide Cost;
    if owners != [] {
      CostsUpdate(channels, owners[1..], owner, channel);
      if owners[0] == owner {
        assert owner !in owners[1..];
      }
    }
  }

  lemma {:induction false} ListsCount(list: seq<Future>, members: set<Future>)
    requires Lists(list, members)
    ensures |list| == |members|
  {
    if list != [] {
      var rest := members - {list[0]};
      assert forall x :: x in list ==> x == list[0] || x in list[1..];
      ListsCount(list[1..], rest);
      assert members == rest + {list[0]};
    } else {
      assert members == {};
    }
  }

  lemma {:induction false} Listing(members: set<Future>) returns (list: seq<Future>)
    ensures Lists(list, members)
    decreases |members|
  {
    if members == {} {
      list := [];
    } else {
      var x :| x in members;
      var rest := Listing(members - {x});
      list := [x] + rest;
    }
  }

  /** A step of one channel's task that leaves everything else as it was. */
  lemma ChannelWorks(s: State, owners: seq<Owner>, owner: Owner, channel: Channel)
    requires Lists(owners, s.channels.Keys) && owner in s.channels
    ensures forall o | o in owners :: o in UpdateChannel(s, owner, channel).channels
    ensures Work(UpdateChannel(s, owner, channel), owners)
         == Work(s, owners) + Cost(channel) - Cost(s.channels[owner])
  {
    hide Cost, Costs;
    CostsUpdate(s.channels, owners, owner, channel);
  }

  predicate WorkedOff(s: State, t: State, owners: seq<Owner>, steps: nat)
    requires forall o | o in owners :: o in s.channels
  {
    t.closed && t.channels.Keys == s.channels.Keys
    && (forall o | o in owners :: o in t.channels) && Work(t, owners) + steps <= Work(s, owners)
  }

  lemma CallbackWorks(s: State, owners: seq<Owner>)
    requires s.closed && Lists(owners, s.channels.Keys) && Enabled(s, RunCallback)
    ensures WorkedOff(s, Apply(s, RunCallback), owners, 1)
  {
    var callback, rest := s.ready[0], s.(ready := s.ready[1..]);
    var channel := s.channels[callback.owner];
    assert Work(rest, owners) == Work(s, owners) - 3;
    if callback.Put? {
      ChannelWorks(rest, owners, callback.owner, channel.(queue := channel.queue + [Execute(callback.future)]));
    } else if channel.active == Some(callback.future) {
      ChannelWorks(rest, owners, callback.owner, channel.(interrupting := true));
    }
  }

  lemma TaskWorks(s: State, a: Action, owners: seq<Owner>)
    requires s.closed && Lists(owners, s.channels.Keys) && Enabled(s, a) && (a.Dequeue? || a.Deliver? || a.Finish?)
    ensures WorkedOff(s, Apply(s, a), owners, 1)
  {
    hide Costs;
    var channel := s.channels[a.owner];
    if a.Dequeue? {
      ChannelWorks(s, owners, a.owner, Dequeued(channel, s.outcome));
    } else if a.Deliver? {
      ChannelWorks(s, owners, a.owner, Delivered(channel));
    } else {
      var future := channel.active.value;
      var t := if future in s.outcome then s else Settle(s, future, a.result);
      assert Work(t, owners) == Work(s, owners);
      ChannelWorks(t, owners, a.owner, AfterCommand(channel));
    }
  }

  lemma CancelNextWorks(s: State, owners: seq<Owner>)
    requires CloseOk(s) && s.closed && Lists(owners, s.channels.Keys) && Enabled(s, CancelNext)
    ensures WorkedOff(s, Apply(s, CancelNext), owners, 1)
  {
    hide Costs;
    CancelNextIs(s);
    CancelNextGoesOn(s);
    var t, u := CancelFuture(s, s.loop.todo[0]), Apply(s, CancelNext);
    assert t.channels == s.channels && |t.ready| <= |s.ready| + 1;
    hide Apply, Enabled, CancelFuture, Unsettled, Lists;
    assert LoopWork(u) == LoopWork(s) - 4 && CloserWork(u) == CloserWork(s);
  }

  lemma CancelPendingWorks(s: State, todo: seq<Future>, owners: seq<Owner>)
    requires CloseOk(s) && FuturesOk(s) && s.closed
    requires Lists(owners, s.channels.Keys) && Enabled(s, CancelPending(todo))
    ensures WorkedOff(s, Apply(s, CancelPending(todo)), owners, if s.loop.Closing? then 1 else 0)
  {
    hide Costs;
    ListsCount(todo, Unsettled(s));
    if s.loop == Idle {
      assert Unsettled(s) == {};
    }
  }

  lemma CloserWorks(s: State, a: Action, owners: seq<Owner>)
    requires CloseOk(s) && s.closed && Lists(owners, s.channels.Keys)
    requires Enabled(s, a) && (a.StopNext? || a.Join?)
    ensures WorkedOff(s, Apply(s, a), owners, 1)
  {
    hide Costs;
    if a.StopNext? && s.closer.channels != [] {
      var owner := s.closer.channels[0];
      CostsUpdate(s.channels, owners, owner, s.channels[owner].(queue := s.channels[owner].queue + [Stop]));
    }
  }

  lemma QuietWorks(s: State, a: Action, owners: seq<Owner>)
    requires CloseOk(s) && s.closed && Lists(owners, s.channels.Keys)
    requires Enabled(s, a) && (a.Resolve? || a.Bind? || a.Discard? || a.BeginClose?)
    ensures WorkedOff(s, Apply(s, a), owners, 0)
  {
    hide Costs;
    var t := Apply(s, a);
    assert Unsettled(t) == Unsettled(s);
  }

  /** Once closing has begun every step on the way to its end leaves less work, and no other adds any. */
  lemma StepWorks(s: State, a: Action, owners: seq<Owner>)
    requires Inv(s) && s.closed && Lists(owners, s.channels.Keys) && Enabled(s, a)
    ensures WorkedOff(s, Apply(s, a), owners, if Advances(s, a) then 1 else 0)
  {
    hide Apply, WorkedOff, Enabled, CloseOk, FuturesOk, Lists, ChannelsOk, CallbacksOk;
    if a.CancelPending? {
      CancelPendingWorks(s, a.todo, owners);
    } else if a.CancelNext? {
      CancelNextWorks(s, owners);
    } else if a.RunCallback? {
      CallbackWorks(s, owners);
    } else if a.Dequeue? || a.Deliver? || a.Finish? {
      TaskWorks(s, a, owners);
    } else if a.StopNext? || a.Join? {
      CloserWorks(s, a, owners);
    } else {
      QuietWorks(s, a, owners);
    }
  }

  lemma AdvancePossible(s: State)
    requires Inv(s) && s.closed && s.closer != Closed
    ensures CanAdvance(s)
  {
    hide ChannelsOk, CallbacksOk;
    if s.loop.Closing? {
      var todo := Listing(Unsettled(s));
      assert Enabled(s, CancelPending(todo)) && Advances(s, CancelPending(todo));
    } else if s.loop.Cancelling? {
      assert s.loop.todo[0] in s.loop.todo;
      assert Enabled(s, CancelNext) && Advances(s, CancelNext);
    } else {
      var owner := if s.closer.Waiting? then s.closer.channel else 0;
      assert Advances(s, StopNext) && Advances(s, Join) && Advances(s, Dequeue(owner));
      assert Advances(s, Deliver(owner)) && Advances(s, Finish(owner, Returned));
    }
  }

  /** How many of the later steps of a run were on the way to the end. */
  function Advanced(actions: seq<Action>, more: seq<Action>): nat {
    if more == [] then 0
    else
      var last := |more| - 1;
      var before := Execution(actions + more[..last]);
      Advanced(actions, more[..last]) + (if before.Some? && Advances(before.value, more[last]) then 1 else 0)
  }

  /**
   * Once `close` has begun, whatever the threads do, the loop and the channels take at most `Work`
   * steps more, the ends of running commands among them; and as long as `close` has not returned one
   * is possible. So it returns if running commands end, after as many steps at the latest.
   */
  lemma {:induction false} CloseReturns(actions: seq<Action>, more: seq<Action>, owners: seq<Owner>)
    requires Execution(actions + more).Some? && Execution(actions).Some? && Execution(actions).value.closed
    requires Lists(owners, Execution(actions).value.channels.Keys)
    ensures var s, t := Execution(actions).value, Execution(actions + more).value;
      && WorkedOff(s, t, owners, Advanced(actions, more))
      && (t.closer != Closed ==> CanAdvance(t) && Advanced(actions, more) < Work(s, owners))
    decreases |more|
  {
    hide Enabled, Apply, Inv, LoopWork, Costs, CanAdvance;
    var t := Execution(actions + more).value;
    if more == [] {
      assert actions + more == actions;
    } else {
      var last := |more| - 1;
      assert (actions + more)[..|actions + more| - 1] == actions + more[..last];
      CloseReturns(actions, more[..last], owners);
      InvHolds(actions + more[..last]);
      StepWorks(Execution(actions + more[..last]).value, more[last], owners);
    }
    InvHolds(actions + more);
    if t.closer != Closed {
      AdvancePossible(t);
    }
  }
}
