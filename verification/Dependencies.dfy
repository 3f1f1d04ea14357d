/**
 * Dependency resolution: a callable's `Depends` parameters are resolved recursively, through
 * overrides, with a cache on the request and a stack that detects circles. A value stands for the call
 * that gave it: it is the position of that call in the log of all calls that gave a value.
 */
module Dependencies {
  import opened Wrappers
  import Sequences

  type Callable = nat

  datatype Marker = Marker(declared: Callable, useCache: bool)

  /**
   * What each callable declares, in parameter order; what replaces what; which are generators; and
   * which have no `__name__`, as partial functions and callable objects have none.
   */
  datatype Graph = Graph(markers: map<Callable, seq<Marker>>, overrides: map<Callable, Callable>,
                         generators: set<Callable>, nameless: set<Callable>)

  /** A call made for a marker, and the values of the callable's own dependencies. */
  datatype Call = Call(callable: Callable, marker: Marker, arguments: seq<nat>)

  /** A circle is reported with the names of its path, or, where one has none, as a missing attribute. */
  datatype Error = Circular(path: seq<Callable>) | Nameless(path: seq<Callable>) | Raised

  /** The callable that stands in for a declared dependency. */
  function Resolve(g: Graph, declared: Callable): Callable {
    if declared in g.overrides then g.overrides[declared] else declared
  }

  predicate AllKnown(g: Graph, markers: seq<Marker>) {
    forall i :: 0 <= i < |markers| ==> Resolve(g, markers[i].declared) in g.markers
  }

  predicate Closed(g: Graph) {
    forall c | c in g.markers :: AllKnown(g, g.markers[c])
  }

  predicate Leads(g: Graph, markers: seq<Marker>, c: Callable) {
    exists i :: 0 <= i < |markers| && Resolve(g, markers[i].declared) == c
  }

  predicate Edge(g: Graph, a: Callable, b: Callable) {
    a in g.markers && Leads(g, g.markers[a], b)
  }

  // ---------------------------------------------------------------------
  // Paths and circles
  // ---------------------------------------------------------------------

  /** A path through the dependencies, beginning with one of the root's. */
  predicate PathFrom(g: Graph, root: seq<Marker>, path: seq<Callable>) {
    && path != [] && Leads(g, root, path[0])
    && forall i :: 0 < i < |path| ==> Edge(g, path[i - 1], path[i])
  }

  predicate Repeats(path: seq<Callable>) {
    exists i, j :: 0 <= i < j < |path| && path[i] == path[j]
  }

  /** The error for a path that comes back to itself. */
  function CircleError(g: Graph, path: seq<Callable>): Error {
    if exists c | c in path :: c in g.nameless then Nameless(path) else Circular(path)
  }

  /** A path whose end is where it came by before, once. */
  predicate Closes(path: seq<Callable>) {
    path != [] && path[|path| - 1] in path[..|path| - 1] && Sequences.Distinct(path[..|path| - 1])
  }

  /** A circle is only reported for a path from the root that closes, by name where all have one. */
  predicate TrueCircle(g: Graph, root: seq<Marker>, error: Error) {
    error != Raised ==>
      && PathFrom(g, root, error.path) && Repeats(error.path) && Closes(error.path)
      && (error.Nameless? <==> exists c :: c in error.path && c in g.nameless)
  }

  /** A circle can be reached from the root. */
  ghost predicate Cyclic(g: Graph, root: seq<Marker>) {
    exists path :: PathFrom(g, root, path) && Repeats(path)
  }

  ghost predicate Reached(g: Graph, root: seq<Marker>, c: Callable) {
    exists path :: PathFrom(g, root, path) && path[|path| - 1] == c
  }

  /** The stack is a path without repetition. */
  predicate StackOk(g: Graph, root: seq<Marker>, stack: seq<Callable>) {
    Sequences.Distinct(stack) && (stack == [] || PathFrom(g, root, stack)) && forall c | c in stack :: c in g.markers
  }

  /** What the innermost callable on the stack declares; the root's own below it. */
  function Declared(g: Graph, root: seq<Marker>, stack: seq<Callable>): seq<Marker>
    requires StackOk(g, root, stack)
  {
    if stack == [] then root else g.markers[stack[|stack| - 1]]
  }

  lemma CircleIsTrue(g: Graph, root: seq<Marker>, stack: seq<Callable>, c: Callable)
    requires StackOk(g, root, stack) && c in stack && PathFrom(g, root, stack + [c])
    ensures TrueCircle(g, root, CircleError(g, stack + [c])) && CircleError(g, stack + [c]) != Raised
  {
    var i, path :| 0 <= i < |stack| && stack[i] == c && path == stack + [c];
    assert path[i] == path[|stack|] && path[..|stack|] == stack;
  }

  lemma RaisedIsTrue(g: Graph, root: seq<Marker>)
    ensures TrueCircle(g, root, Raised)
  {
  }

  lemma PathExtends(g: Graph, root: seq<Marker>, stack: seq<Callable>, marker: Marker)
    requires StackOk(g, root, stack) && marker in Declared(g, root, stack)
    ensures PathFrom(g, root, stack + [Resolve(g, marker.declared)])
  {
    var c := Resolve(g, marker.declared);
    assert Leads(g, Declared(g, root, stack), c);
    var path := stack + [c];
    forall i | 0 < i < |path| ensures Edge(g, path[i - 1], path[i]) {
      assert i < |stack| ==> path[i] == stack[i];
    }
  }

  function Left(g: Graph, stack: seq<Callable>): nat {
    |g.markers.Keys - set c | c in stack|
  }

  lemma Smaller(a: set<Callable>, b: set<Callable>, c: Callable)
    requires a <= b - {c} && c in b
    ensures |a| < |b|
  {
    var gap := b - {c} - a;
    assert b == a + gap + {c};
  }

  lemma LeftShrinks(g: Graph, stack: seq<Callable>, c: Callable)
    requires c in g.markers && c !in stack
    ensures Left(g, stack + [c]) < Left(g, stack)
  {
    var before, after := g.markers.Keys - (set x | x in stack), g.markers.Keys - (set x | x in stack + [c]);
    assert after <= before - {c};
    Smaller(after, before, c);
  }

  // ---------------------------------------------------------------------
  // The log
  // ---------------------------------------------------------------------

  /** A value is right for a marker: a call of the resolved callable, made for such a marker. */
  predicate Answers(g: Graph, log: seq<Call>, marker: Marker, value: nat) {
    value < |log| && log[value].marker == marker && log[value].callable == Resolve(g, marker.declared)
  }

  predicate AllAnswered(g: Graph, log: seq<Call>, markers: seq<Marker>, values: seq<nat>) {
    |values| == |markers| && forall i :: 0 <= i < |markers| ==> Answers(g, log, markers[i], values[i])
  }

  /** Every call came after the calls that gave its arguments, one for each of its markers in order. */
  predicate Ordered(g: Graph, log: seq<Call>) {
    forall k :: 0 <= k < |log| ==>
      log[k].callable in g.markers && AllAnswered(g, log[..k], g.markers[log[k].callable], log[k].arguments)
  }

  /** The cache holds the one call made for each cached dependency. */
  predicate CacheOk(log: seq<Call>, cache: map<Callable, nat>) {
    && (forall d | d in cache :: cache[d] < |log| && log[cache[d]].marker == Marker(d, true))
    && (forall k :: 0 <= k < |log| && log[k].marker.useCache ==>
          log[k].marker.declared in cache && cache[log[k].marker.declared] == k)
  }

  /** Every call was made for a callable that can be reached. */
  ghost predicate AllReached(g: Graph, root: seq<Marker>, log: seq<Call>) {
    forall k :: 0 <= k < |log| ==>
      Reached(g, root, log[k].callable) && log[k].callable == Resolve(g, log[k].marker.declared)
  }

  /** The calls that left a generator open, in order. */
  function Opened(g: Graph, log: seq<Call>): seq<nat> {
    if log == [] then []
    else
      var last := |log| - 1;
      Opened(g, log[..last]) + (if log[last].callable in g.generators then [last] else [])
  }

  lemma {:induction false} Extends(g: Graph, log: seq<Call>, call: Call, cache: map<Callable, nat>, root: seq<Marker>)
    requires Ordered(g, log) && CacheOk(log, cache) && AllReached(g, root, log)
    requires call.callable in g.markers && AllAnswered(g, log, g.markers[call.callable], call.arguments)
    requires call.callable == Resolve(g, call.marker.declared) && Reached(g, root, call.callable)
    requires call.marker.useCache ==> call.marker.declared !in cache
    ensures Ordered(g, log + [call]) && AllReached(g, root, log + [call])
    ensures CacheOk(log + [call], if call.marker.useCache then cache[call.marker.declared := |log|] else cache)
    ensures Opened(g, log + [call]) == Opened(g, log) + if call.callable in g.generators then [|log|] else []
  {
    hide AllAnswered, Reached, Resolve;
    var more := log + [call];
    assert more[..|log|] == log;
    forall k | 0 <= k < |more|
      ensures more[k].callable in g.markers && AllAnswered(g, more[..k], g.markers[more[k].callable], more[k].arguments)
    {
      if k < |log| {
        assert more[..k] == log[..k] && more[k] == log[k];
      }
    }
  }

  lemma StillAnswers(g: Graph, a: seq<Call>, b: seq<Call>, markers: seq<Marker>, values: seq<nat>)
    requires a <= b && AllAnswered(g, a, markers, values)
    ensures AllAnswered(g, b, markers, values)
  {
  }

  lemma {:induction false} OpenedAre(g: Graph, log: seq<Call>)
    ensures forall k :: k in Opened(g, log) <==> 0 <= k < |log| && log[k].callable in g.generators
    ensures forall i, j :: 0 <= i < j < |Opened(g, log)| ==> Opened(g, log)[i] < Opened(g, log)[j]
  {
    if log != [] {
      var last := |log| - 1;
      OpenedAre(g, log[..last]);
      var less, now := Opened(g, log[..last]), Opened(g, log);
      assert forall k :: k in now <==> k in less || (k == last && log[last].callable in g.generators);
      assert forall i :: 0 <= i < |less| ==> now[i] == less[i] && less[i] in less;
    }
  }

  lemma OverridesStandIn(g: Graph, root: seq<Marker>, log: seq<Call>)
    requires AllReached(g, root, log)
    ensures forall k :: 0 <= k < |log| ==>
      var d := log[k].marker.declared;
      log[k].callable == if d in g.overrides then g.overrides[d] else d
  {
    hide Reached;
  }

  /** The calls from a position on were made for no callable on the stack. */
  predicate Avoids(log: seq<Call>, from: nat, stack: seq<Callable>) {
    forall k :: from <= k < |log| ==> log[k].callable !in stack
  }

  lemma AvoidsMore(a: seq<Call>, b: seq<Call>, from: nat, stack: seq<Callable>)
    requires a <= b && from <= |a| && Avoids(a, from, stack) && Avoids(b, |a|, stack)
    ensures Avoids(b, from, stack)
  {
  }

  lemma NoneAnswered(g: Graph, log: seq<Call>, before: seq<Call>, markers: seq<Marker>, stack: seq<Callable>)
    requires before == log
    ensures AllAnswered(g, log, markers[..0], []) && Avoids(log, |before|, stack)
  {
  }

  lemma OneMoreAnswered(g: Graph, a: seq<Call>, b: seq<Call>, markers: seq<Marker>, i: nat, values: seq<nat>,
                        value: nat)
    requires a <= b && i < |markers|
    requires AllAnswered(g, a, markers[..i], values) && Answers(g, b, markers[i], value)
    ensures AllAnswered(g, b, markers[..i + 1], values + [value])
  {
    StillAnswers(g, a, b, markers[..i], values);
  }

  lemma Known(g: Graph, root: seq<Marker>, stack: seq<Callable>, marker: Marker)
    requires Closed(g) && AllKnown(g, root) && StackOk(g, root, stack) && marker in Declared(g, root, stack)
    ensures Resolve(g, marker.declared) in g.markers
  {
    if stack != [] {
      assert stack[|stack| - 1] in stack;
    }
  }

  lemma CachedAnswers(g: Graph, root: seq<Marker>, log: seq<Call>, cache: map<Callable, nat>, marker: Marker)
    requires CacheOk(log, cache) && AllReached(g, root, log) && marker.useCache && marker.declared in cache
    ensures Answers(g, log, marker, cache[marker.declared])
  {
  }

  lemma IsInLog(g: Graph, log: seq<Call>, marker: Marker, value: nat)
    requires Answers(g, log, marker, value)
    ensures value < |log|
  {
  }

  lemma Pushed(g: Graph, root: seq<Marker>, stack: seq<Callable>, c: Callable)
    requires StackOk(g, root, stack) && c !in stack && c in g.markers && PathFrom(g, root, stack + [c])
    ensures StackOk(g, root, stack + [c]) && Declared(g, root, stack + [c]) == g.markers[c]
  {
    var more := stack + [c];
    forall i, j | 0 <= i < j < |more| ensures more[i] != more[j] {
      assert more[i] == stack[i];
    }
  }

  /** A dependency on the stack does not get into the cache from inside. */
  lemma StillUncached(g: Graph, root: seq<Marker>, before: seq<Call>, cached: map<Callable, nat>,
                      log: seq<Call>, cache: map<Callable, nat>, marker: Marker, stack: seq<Callable>)
    requires CacheOk(before, cached) && CacheOk(log, cache) && AllReached(g, root, log) && before <= log
    requires Avoids(log, |before|, stack) && Resolve(g, marker.declared) in stack
    requires marker.useCache ==> marker.declared !in cached
    ensures marker.useCache ==> marker.declared !in cache
  {
    assert forall k :: 0 <= k < |before| ==> before[k] == log[k];
  }

  // ---------------------------------------------------------------------
  // Resolution
  // ---------------------------------------------------------------------

  /**
   * The request's state, for one graph and one root callable. What fails beside circles is given by
   * position: the calls that raise, and the callables whose arguments are refused, each named by the
   * number of values there were before.
   */
  class Request {
    const graph: Graph
    const root: seq<Marker>
    const raising: set<nat>
    const unfit: set<nat>
    var cache: map<Callable, nat>
    var cleanups: seq<nat>
    var log: seq<Call>

    constructor (graph: Graph, root: seq<Marker>, raising: set<nat>, unfit: set<nat>)
      ensures this.graph == graph && this.root == root && this.raising == raising && this.unfit == unfit
      ensures log == [] && cache == map[] && cleanups == []
    {
      this.graph, this.root, this.raising, this.unfit := graph, root, raising, unfit;
      cache, cleanups, log := map[], [], [];
    }

    ghost predicate Valid()
      reads this
    {
      && Closed(graph) && AllKnown(graph, root)
      && Ordered(graph, log) && CacheOk(log, cache) && AllReached(graph, root, log)
      && cleanups == Opened(graph, log)
    }

    /** Nothing failed from a number of values on. */
    ghost predicate Smooth(from: nat)
      reads this
    {
      forall k :: from <= k < |log| ==> k !in raising && k !in unfit
    }

    /** `_resolve_dependency`. */
    method ResolveDependency(marker: Marker, stack: seq<Callable>) returns (r: Result<nat, Error>)
      requires Valid() && StackOk(graph, root, stack) && marker in Declared(graph, root, stack)
      modifies this
      ensures Valid() && old(log) <= log && Avoids(log, |old(log)|, stack)
      ensures r.Ok? ==> Answers(graph, log, marker, r.value)
      ensures r.Ok? && !marker.useCache ==> r.value >= |old(log)|
      ensures r.Err? ==> TrueCircle(graph, root, r.error)
      ensures r.Ok? ==> Smooth(|old(log)|)
      ensures r == Err(Raised) ==> |log| in raising || |log| in unfit
      decreases Left(graph, stack), 0
    {
      hide Closed, AllKnown, Ordered, CacheOk, AllReached, Opened, Left, Answers, AllAnswered;
      hide PathFrom, Repeats, StackOk, TrueCircle, CircleError;
      RaisedIsTrue(graph, root);
      var dependency := Resolve(graph, marker.declared);
      PathExtends(graph, root, stack, marker);
      Known(graph, root, stack, marker);
      if dependency in stack {
        CircleIsTrue(graph, root, stack, dependency);
        return Err(CircleError(graph, stack + [dependency]));
      }
      if marker.useCache && marker.declared in cache {
        CachedAnswers(graph, root, log, cache, marker);
        return Ok(cache[marker.declared]);
      }
      LeftShrinks(graph, stack, dependency);
      Pushed(graph, root, stack, dependency);
      ghost var before, cached := log, cache;
      var arguments := ResolveArguments(graph.markers[dependency], stack + [dependency]);
      assert Avoids(log, |before|, stack + [dependency]);
      if arguments.Err? {
        return Err(arguments.error);
      }
      if |log| in raising {
        return Err(Raised);
      }
      StillUncached(graph, root, before, cached, log, cache, marker, stack + [dependency]);
      r := Keep(marker, dependency, arguments.value);
    }

    /** The callable has given its value: remember its cleanup and the value itself. */
    method Keep(marker: Marker, dependency: Callable, arguments: seq<nat>) returns (r: Result<nat, Error>)
      requires Valid() && dependency in graph.markers && dependency == Resolve(graph, marker.declared)
      requires AllAnswered(graph, log, graph.markers[dependency], arguments) && Reached(graph, root, dependency)
      requires marker.useCache ==> marker.declared !in cache
      modifies this
      ensures Valid() && log == old(log) + [Call(dependency, marker, arguments)]
      ensures r == Ok(|old(log)|) && Answers(graph, log, marker, r.value)
    {
      hide Closed, AllKnown, Ordered, CacheOk, AllReached, Opened, AllAnswered, Reached, Resolve;
      var value, call := |log|, Call(dependency, marker, arguments);
      Extends(graph, log, call, cache, root);
      log := log + [call];
      if dependency in graph.generators {
        cleanups := cleanups + [value];
      }
      if marker.useCache {
        cache := cache[marker.declared := value];
      }
      r := Ok(value);
    }

    /** The dependency part of `resolve_arguments`: what else is invalid is reported after all of them. */
    method ResolveArguments(markers: seq<Marker>, stack: seq<Callable>) returns (r: Result<seq<nat>, Error>)
      requires Valid() && StackOk(graph, root, stack) && markers == Declared(graph, root, stack)
      modifies this
      ensures Valid() && old(log) <= log && Avoids(log, |old(log)|, stack)
      ensures r.Ok? ==> AllAnswered(graph, log, markers, r.value)
      ensures r.Ok? ==> forall i, j :: 0 <= i < j < |markers| && !markers[j].useCache ==> r.value[i] < r.value[j]
      ensures r.Err? ==> TrueCircle(graph, root, r.error)
      ensures r.Ok? ==> Smooth(|old(log)|) && |log| !in unfit
      ensures r == Err(Raised) ==> |log| in raising || |log| in unfit
      decreases Left(graph, stack), 1
    {
      hide Closed, AllKnown, Ordered, CacheOk, AllReached, Opened, Left, Answers, AllAnswered;
      hide PathFrom, Repeats, StackOk, Avoids, TrueCircle;
      RaisedIsTrue(graph, root);
      var values: seq<nat> := [];
      ghost var before := log;
      NoneAnswered(graph, log, before, markers, stack);
      for i := 0 to |markers|
        invariant Valid() && before <= log && Avoids(log, |before|, stack)
        invariant AllAnswered(graph, log, markers[..i], values)
        invariant |values| == i && forall k :: 0 <= k < i ==> values[k] < |log|
        invariant forall k, n :: 0 <= k < n < i && !markers[n].useCache ==> values[k] < values[n]
        invariant Smooth(|before|)
      {
        ghost var seen := log;
        var value := ResolveDependency(markers[i], stack);
        AvoidsMore(seen, log, |before|, stack);
        if value.Err? {
          return Err(value.error);
        }
        OneMoreAnswered(graph, seen, log, markers, i, values, value.value);
        assert value.value < |log| by {
          IsInLog(graph, log, markers[i], value.value);
        }
        values := values + [value.value];
      }
      assert markers[..|markers|] == markers;
      r := if |log| in unfit then Err(Raised) else Ok(values);
    }
  }

  // ---------------------------------------------------------------------
  // Circles are found exactly where they are
  // ---------------------------------------------------------------------

  predicate Called(log: seq<Call>, c: Callable) {
    exists k :: 0 <= k < |log| && log[k].callable == c
  }

  /** The position of the first call of a callable. */
  function Earliest(log: seq<Call>, c: Callable): (k: nat)
    requires Called(log, c)
    ensures k < |log| && log[k].callable == c && forall j :: 0 <= j < k ==> log[j].callable != c
  {
    var last := |log| - 1;
    if Called(log[..last], c) then Earliest(log[..last], c) else last
  }

  lemma AnsweredIsCalled(g: Graph, log: seq<Call>, markers: seq<Marker>, values: seq<nat>, c: Callable)
    requires AllAnswered(g, log, markers, values) && Leads(g, markers, c)
    ensures Called(log, c)
  {
    var i :| 0 <= i < |markers| && Resolve(g, markers[i].declared) == c;
    assert Answers(g, log, markers[i], values[i]);
  }

  /** What a called callable depends on was called before its first call. */
  lemma {:induction false} DependencyIsEarlier(g: Graph, log: seq<Call>, a: Callable, b: Callable)
    requires Ordered(g, log) && Called(log, a) && Edge(g, a, b)
    ensures Called(log, b) && Earliest(log, b) < Earliest(log, a)
  {
    hide AllAnswered, Leads;
    var k := Earliest(log, a);
    AnsweredIsCalled(g, log[..k], g.markers[a], log[k].arguments, b);
    var j :| 0 <= j < k && log[..k][j].callable == b;
    assert log[j].callable == b;
  }

  lemma {:induction false} PathIsCalled(g: Graph, root: seq<Marker>, log: seq<Call>, values: seq<nat>,
                                        path: seq<Callable>, i: nat)
    requires Ordered(g, log) && AllAnswered(g, log, root, values) && PathFrom(g, root, path) && i < |path|
    ensures Called(log, path[i])
  {
    hide Ordered, Edge, Called, AllAnswered;
    if i == 0 {
      AnsweredIsCalled(g, log, root, values, path[0]);
    } else {
      PathIsCalled(g, root, log, values, path, i - 1);
      DependencyIsEarlier(g, log, path[i - 1], path[i]);
    }
  }

  lemma {:induction false} PathDescends(g: Graph, root: seq<Marker>, log: seq<Call>, values: seq<nat>,
                                        path: seq<Callable>, i: nat, j: nat)
    requires Ordered(g, log) && AllAnswered(g, log, root, values) && PathFrom(g, root, path) && i < j < |path|
    ensures Called(log, path[i]) && Called(log, path[j]) && Earliest(log, path[j]) < Earliest(log, path[i])
    decreases j
  {
    hide Ordered, Edge, Called, AllAnswered;
    PathIsCalled(g, root, log, values, path, i);
    if i < j - 1 {
      PathDescends(g, root, log, values, path, i, j - 1);
    }
    DependencyIsEarlier(g, log, path[j - 1], path[j]);
  }

  /** A resolution that answers every marker proves there was no circle to find. */
  lemma AnsweredIsAcyclic(g: Graph, root: seq<Marker>, log: seq<Call>, values: seq<nat>)
    requires Ordered(g, log) && AllAnswered(g, log, root, values)
    ensures !Cyclic(g, root)
  {
    hide Ordered, AllAnswered, PathFrom;
    if Cyclic(g, root) {
      var path :| PathFrom(g, root, path) && Repeats(path);
      var i, j :| 0 <= i < j < |path| && path[i] == path[j];
      PathDescends(g, root, log, values, path, i, j);
      assert false;
    }
  }

  // ---------------------------------------------------------------------
  // Every cached dependency is called once
  // ---------------------------------------------------------------------

  /** The calls made for a marker. */
  function CallsFor(log: seq<Call>, marker: Marker): set<nat> {
    set k | 0 <= k < |log| && log[k].marker == marker
  }

  /** A marker declared by the root or by a callable that can be reached. */
  ghost predicate InUse(g: Graph, root: seq<Marker>, marker: Marker) {
    marker in root || exists c :: Reached(g, root, c) && c in g.markers && marker in g.markers[c]
  }

  lemma ValueOf(g: Graph, log: seq<Call>, c: Callable, marker: Marker) returns (value: nat)
    requires Ordered(g, log) && Called(log, c) && c in g.markers && marker in g.markers[c]
    ensures value < |log| && log[value].marker == marker
  {
    var k := Earliest(log, c);
    var i :| 0 <= i < |g.markers[c]| && g.markers[c][i] == marker;
    assert Answers(g, log[..k], g.markers[c][i], log[k].arguments[i]);
    value := log[k].arguments[i];
    assert log[..k][value] == log[value];
  }

  /** After resolution every marker in use was answered by a call, a cached one by exactly one call. */
  lemma CalledOnce(g: Graph, root: seq<Marker>, log: seq<Call>, cache: map<Callable, nat>, values: seq<nat>,
                   marker: Marker)
    requires Ordered(g, log) && CacheOk(log, cache) && AllAnswered(g, log, root, values) && InUse(g, root, marker)
    ensures CallsFor(log, marker) != {}
    ensures marker.useCache ==> exists k :: CallsFor(log, marker) == {k} && cache[marker.declared] == k
  {
    hide Called, Earliest;
    var value: nat;
    if marker in root {
      var i :| 0 <= i < |root| && root[i] == marker;
      assert Answers(g, log, root[i], values[i]);
      value := values[i];
    } else {
      var c :| Reached(g, root, c) && c in g.markers && marker in g.markers[c];
      var path :| PathFrom(g, root, path) && path[|path| - 1] == c;
      PathIsCalled(g, root, log, values, path, |path| - 1);
      value := ValueOf(g, log, c, marker);
    }
    assert value in CallsFor(log, marker);
    if marker.useCache {
      assert CallsFor(log, marker) == {value};
    }
  }

  lemma {:induction false} NewIsValid(g: Graph, root: seq<Marker>)
    ensures Ordered(g, []) && CacheOk([], map[]) && AllReached(g, root, []) && Opened(g, []) == []
    ensures StackOk(g, root, []) && Declared(g, root, []) == root
  {
  }

  /**
   * Resolving a view's dependencies on a new request: a circle is reported only where one can be
   * reached, and never missed; otherwise, unless user code or validation fails, each marker in use
   * is answered, cached ones by one call, and every call comes after the calls it depends on.
   */
  method ResolveView(g: Graph, markers: seq<Marker>, raising: set<nat>, unfit: set<nat>)
    returns (r: Result<seq<nat>, Error>, request: Request)
    requires Closed(g) && AllKnown(g, markers)
    ensures fresh(request)
    ensures r.Err? && r.error != Raised ==>
      && Cyclic(g, markers) && PathFrom(g, markers, r.error.path) && Closes(r.error.path)
      && (r.error.Nameless? <==> exists c :: c in r.error.path && c in g.nameless)
    // It fails for another reason only where there is one, and then at the first.
    ensures r == Err(Raised) ==> |request.log| in raising || |request.log| in unfit
    ensures r.Ok? ==> |request.log| !in unfit
    ensures r.Ok? ==> forall k :: 0 <= k < |request.log| ==> k !in raising && k !in unfit
    ensures raising == {} && unfit == {} ==> (r.Err? <==> Cyclic(g, markers))
    // An override stands in for what was declared, and only it.
    ensures forall k :: 0 <= k < |request.log| ==>
      var d := request.log[k].marker.declared;
      request.log[k].callable == if d in g.overrides then g.overrides[d] else d
    ensures forall k :: k in request.cleanups <==>
      0 <= k < |request.log| && request.log[k].callable in g.generators
    ensures forall i, j :: 0 <= i < j < |request.cleanups| ==> request.cleanups[i] < request.cleanups[j]
    ensures r.Ok? ==> !Cyclic(g, markers) && AllAnswered(g, request.log, markers, r.value)
    ensures r.Ok? ==> forall m: Marker | InUse(g, markers, m) ::
      CallsFor(request.log, m) != {} && (m.useCache ==> |CallsFor(request.log, m)| == 1)
    ensures Ordered(g, request.log) && AllReached(g, markers, request.log)
  {
    hide Closed, AllKnown, Ordered, AllReached, AllAnswered, PathFrom, Repeats, InUse, CallsFor, Closes, Resolve;
    hide Opened;
    request := new Request(g, markers, raising, unfit);
    NewIsValid(g, markers);
    r := request.ResolveArguments(markers, []);
    OverridesStandIn(g, markers, request.log);
    OpenedAre(g, request.log);
    if r.Ok? {
      AnsweredIsAcyclic(g, markers, request.log, r.value);
      forall m: Marker | InUse(g, markers, m)
        ensures CallsFor(request.log, m) != {} && (m.useCache ==> |CallsFor(request.log, m)| == 1)
      {
        CalledOnce(g, markers, request.log, request.cache, r.value, m);
      }
    }
  }
}
