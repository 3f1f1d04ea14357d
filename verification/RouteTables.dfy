/**
 * The two route tables of an application: the list of Python `Rule`s, one for each registration,
 * and the Rust entries, one for each method. Both are kept sorted by specificity, and each
 * looks a request up on its own.
 */
module RouteTables {
  import opened Wrappers
  import opened Rules
  import Sequences

  datatype Route = Route(rule: string, segments: seq<Segment>, specificity: nat, methods: seq<string>, handler: nat)

  datatype Entry = Entry(verb: string, pattern: string, segments: seq<Segment>, specificity: nat, handler: nat)

  /** One call of `add_url_rule`, its methods in upper case and each named once. */
  datatype Registration = Registration(rule: string, methods: seq<string>, handler: nat)

  // ---------------------------------------------------------------------
  // The stable sort both tables use, most specific first
  // ---------------------------------------------------------------------

  function Insert<T>(s: seq<T>, x: T, key: T -> nat): seq<T> {
    if s == [] then [x]
    else if key(s[0]) >= key(x) then [s[0]] + Insert(s[1..], x, key)
    else [x] + s
  }

  function Sort<T>(s: seq<T>, key: T -> nat): seq<T> {
    if s == [] then [] else Insert(Sort(s[..|s| - 1], key), s[|s| - 1], key)
  }

  ghost predicate Sorted<T>(s: seq<T>, key: T -> nat) {
    forall i, j :: 0 <= i < j < |s| ==> key(s[i]) >= key(s[j])
  }

  /** The elements of one key, in order: what a stable sort keeps. */
  function WithKey<T>(s: seq<T>, key: T -> nat, k: nat): seq<T> {
    if s == [] then []
    else (if key(s[0]) == k then [s[0]] else []) + WithKey(s[1..], key, k)
  }

  lemma {:induction false} InsertFirst<T>(s: seq<T>, x: T, key: T -> nat)
    requires s != [] ==> key(s[0]) < key(x)
    ensures Insert(s, x, key) == [x] + s
  {
  }

  lemma {:induction false} InsertLater<T>(s: seq<T>, x: T, key: T -> nat)
    requires s != [] && key(s[0]) >= key(x)
    ensures Insert(s, x, key) == [s[0]] + Insert(s[1..], x, key)
  {
  }

  /** An element goes after everything at least as specific, before everything less so. */
  lemma {:induction false} InsertAt<T>(a: seq<T>, b: seq<T>, x: T, key: T -> nat)
    requires forall i :: 0 <= i < |a| ==> key(a[i]) >= key(x)
    requires b != [] ==> key(b[0]) < key(x)
    ensures Insert(a + b, x, key) == a + [x] + b
    decreases |a|
  {
    hide Insert;
    if a == [] {
      Sequences.Nil(b);
      Sequences.Nil([x]);
      InsertFirst(b, x, key);
    } else {
      InsertAt(a[1..], b, x, key);
      Sequences.HeadTail(a, b);
      InsertLater(a + b, x, key);
      Sequences.ConsIs(a);
      Sequences.Assoc([a[0]], a[1..], [x]);
      Sequences.Assoc([a[0]], a[1..] + [x], b);
    }
  }

  /** The place where `InsertAt` applies in a sorted list. */
  lemma {:induction false} Place<T>(s: seq<T>, k: nat, key: T -> nat) returns (n: nat)
    requires Sorted(s, key)
    ensures n <= |s| && (forall i :: 0 <= i < n ==> key(s[i]) >= k) && (n < |s| ==> key(s[n]) < k)
  {
    n := 0;
    while n < |s| && key(s[n]) >= k
      invariant n <= |s| && forall i :: 0 <= i < n ==> key(s[i]) >= k
    {
      n := n + 1;
    }
  }

  lemma {:induction false} InsertKeepsSorted<T>(s: seq<T>, x: T, key: T -> nat)
    requires Sorted(s, key)
    ensures Sorted(Insert(s, x, key), key)
  {
    hide Insert;
    var n := Place(s, key(x), key);
    Sequences.Parts(s, n);
    InsertAt(s[..n], s[n..], x, key);
    var grown := s[..n] + [x] + s[n..];
    assert forall i :: 0 <= i < |grown| ==> grown[i] == if i < n then s[i] else if i == n then x else s[i - 1];
    forall i, j | 0 <= i < j < |grown| ensures key(grown[i]) >= key(grown[j]) {
      if n < j {
        assert key(s[n]) >= key(s[j - 1]);
      }
    }
  }

  lemma {:induction false} SortSorts<T>(s: seq<T>, key: T -> nat)
    ensures Sorted(Sort(s, key), key)
  {
    if s != [] {
      SortSorts(s[..|s| - 1], key);
      InsertKeepsSorted(Sort(s[..|s| - 1], key), s[|s| - 1], key);
    }
  }

  lemma {:induction false} WithKeyAppend<T>(a: seq<T>, b: seq<T>, key: T -> nat, k: nat)
    ensures WithKey(a + b, key, k) == WithKey(a, key, k) + WithKey(b, key, k)
  {
    if a == [] {
      Sequences.Nil(b);
      Sequences.Nil(WithKey(b, key, k));
    } else {
      WithKeyAppend(a[1..], b, key, k);
      Sequences.HeadTail(a, b);
      Sequences.Assoc(if key(a[0]) == k then [a[0]] else [], WithKey(a[1..], key, k), WithKey(b, key, k));
    }
  }

  lemma {:induction false} WithKeyNone<T>(s: seq<T>, key: T -> nat, k: nat)
    requires forall i :: 0 <= i < |s| ==> key(s[i]) != k
    ensures WithKey(s, key, k) == []
  {
    if s != [] {
      WithKeyNone(s[1..], key, k);
    }
  }

  lemma {:induction false} InsertIsStable<T>(s: seq<T>, x: T, key: T -> nat, k: nat)
    requires Sorted(s, key)
    ensures WithKey(Insert(s, x, key), key, k) == WithKey(s, key, k) + WithKey([x], key, k)
  {
    hide Insert, WithKey;
    var n := Place(s, key(x), key);
    var a, b := s[..n], s[n..];
    Sequences.Parts(s, n);
    InsertAt(a, b, x, key);
    WithKeyAppend(a, b, key, k);
    WithKeyAppend(a + [x], b, key, k);
    WithKeyAppend(a, [x], key, k);
    if key(x) == k {
      assert forall i :: 0 <= i < |b| ==> key(b[i]) < k;
      WithKeyNone(b, key, k);
      Sequences.Nil(WithKey(a, key, k));
      Sequences.Nil(WithKey(a, key, k) + WithKey([x], key, k));
    } else {
      WithKeyNone([x], key, k);
      Sequences.Nil(WithKey(a, key, k));
      Sequences.Nil(WithKey(a, key, k) + WithKey(b, key, k));
    }
  }

  /** The sort is stable: it keeps the elements of each key, in their order. */
  lemma {:induction false} SortIsStable<T>(s: seq<T>, key: T -> nat, k: nat)
    ensures WithKey(Sort(s, key), key, k) == WithKey(s, key, k)
  {
    hide Insert, WithKey;
    if s != [] {
      var last := |s| - 1;
      SortIsStable(s[..last], key, k);
      SortSorts(s[..last], key);
      InsertIsStable(Sort(s[..last], key), s[last], key, k);
      WithKeyAppend(s[..last], [s[last]], key, k);
      Sequences.SnocIs(s);
    }
  }

  lemma {:induction false} SortedStays<T>(s: seq<T>, key: T -> nat)
    requires Sorted(s, key)
    ensures Sort(s, key) == s
  {
    if s != [] {
      var last := |s| - 1;
      SortedStays(s[..last], key);
      InsertAt(s[..last], [], s[last], key);
      Sequences.Nil(s[..last]);
      Sequences.Nil(s[..last] + [s[last]]);
      Sequences.SnocIs(s);
    }
  }

  /** Appending to a sorted table and sorting it again is inserting. */
  lemma {:induction false} SortAppended<T>(s: seq<T>, x: T, key: T -> nat)
    requires Sorted(s, key)
    ensures Sort(s + [x], key) == Insert(s, x, key)
  {
    hide Insert;
    SortedStays(s, key);
    Sequences.FrontLast(s, x);
  }

  // ---------------------------------------------------------------------
  // Registration
  // ---------------------------------------------------------------------

  function RouteKey(): Route -> nat { (r: Route) => r.specificity }

  function EntryKey(): Entry -> nat { (e: Entry) => e.specificity }

  predicate Overlap(a: seq<string>, b: seq<string>) {
    exists m | m in a :: m in b
  }

  /** A route of the same normal rule that shares a method. */
  predicate Duplicates(route: Route, rule: string, methods: seq<string>) {
    route.rule == rule && Overlap(route.methods, methods)
  }

  /** The route a registration stands for; None for a rule that does not parse. */
  function RouteOf(r: Registration): Option<Route> {
    match ParseRule(r.rule)
    case None => None
    case Some(segments) => Some(Route(NormalizeRule(r.rule), segments, Specificity(segments), r.methods, r.handler))
  }

  /** `add_url_rule`: None where it raises. */
  function PyAdd(routes: seq<Route>, r: Registration): Option<seq<Route>> {
    if r.methods == [] || (exists route | route in routes :: Duplicates(route, NormalizeRule(r.rule), r.methods))
    then None
    else
      match RouteOf(r)
      case None => None
      case Some(route) => Some(Sort(routes + [route], RouteKey()))
  }

  /** A run of registrations; one that raises leaves the table as it was. */
  function PyAddAll(routes: seq<Route>, registrations: seq<Registration>): seq<Route>
    decreases |registrations|
  {
    if registrations == [] then routes
    else
      match PyAdd(routes, registrations[0])
      case None => PyAddAll(routes, registrations[1..])
      case Some(more) => PyAddAll(more, registrations[1..])
  }

  /** `RouteTable::add_route`: None where it returns an error. */
  function RustAdd(entries: seq<Entry>, path: string, verb: string, handler: nat): Option<seq<Entry>> {
    var pattern, segments := NormalizeRule(path), ParsePattern(path);
    if segments.None? || (exists e | e in entries :: e.verb == verb && e.pattern == pattern) then None
    else
      var entry := Entry(verb, pattern, segments.value, Specificity(segments.value), handler);
      Some(Sort(entries + [entry], EntryKey()))
  }

  /** The methods of a registration one by one, up to the first that is refused. */
  function RustAddAll(entries: seq<Entry>, path: string, methods: seq<string>, handler: nat): (seq<Entry>, bool)
    decreases |methods|
  {
    if methods == [] then (entries, true)
    else
      match RustAdd(entries, path, methods[0], handler)
      case None => (entries, false)
      case Some(more) => RustAddAll(more, path, methods[1..], handler)
  }

  datatype Tables = Tables(routes: seq<Route>, entries: seq<Entry>)

  const NO_ROUTES := Tables([], [])

  /**
   * The Python table checks first; the Rust table is then given the rule in its normal form. If Rust
   * refused a method, the entries before it would stay and the Python table would not change.
   */
  function Register(t: Tables, r: Registration): Tables {
    match PyAdd(t.routes, r)
    case None => t
    case Some(routes) =>
      var (entries, taken) := RustAddAll(t.entries, NormalizeRule(r.rule), r.methods, r.handler);
      Tables(if taken then routes else t.routes, entries)
  }

  function RegisterAll(t: Tables, registrations: seq<Registration>): Tables
    decreases |registrations|
  {
    if registrations == [] then t else RegisterAll(Register(t, registrations[0]), registrations[1..])
  }

  /** Rust refuses no method of a registration Python accepts. */
  predicate NoneRefused(t: Tables, registrations: seq<Registration>)
    decreases |registrations|
  {
    if registrations == [] then true
    else
      var r := registrations[0];
      && (PyAdd(t.routes, r).Some? ==> RustAddAll(t.entries, NormalizeRule(r.rule), r.methods, r.handler).1)
      && NoneRefused(Register(t, r), registrations[1..])
  }

  // ---------------------------------------------------------------------
  // The Rust table mirrors the Python one
  // ---------------------------------------------------------------------

  function EntryOf(r: Route, verb: string): Entry {
    Entry(verb, r.rule, r.segments, r.specificity, r.handler)
  }

  /** The Rust entries of a route, for the methods from the first on. */
  function Expand(r: Route, methods: seq<string>): seq<Entry> {
    if methods == [] then [] else [EntryOf(r, methods[0])] + Expand(r, methods[1..])
  }

  function Flat(routes: seq<Route>): seq<Entry> {
    if routes == [] then [] else Expand(routes[0], routes[0].methods) + Flat(routes[1..])
  }

  lemma {:induction false} ExpandHolds(r: Route, methods: seq<string>, e: Entry)
    ensures e in Expand(r, methods) <==> e.verb in methods && e == EntryOf(r, e.verb)
  {
    if methods != [] {
      ExpandHolds(r, methods[1..], e);
    }
  }

  lemma {:induction false} ExpandOneMore(r: Route, methods: seq<string>, verb: string)
    ensures Expand(r, methods + [verb]) == Expand(r, methods) + [EntryOf(r, verb)]
  {
    if methods == [] {
      assert Expand(r, []) == [] && (methods + [verb])[1..] == [];
    } else {
      ExpandOneMore(r, methods[1..], verb);
      assert (methods + [verb])[1..] == methods[1..] + [verb];
    }
  }

  lemma {:induction false} FlatAppend(a: seq<Route>, b: seq<Route>)
    ensures Flat(a + b) == Flat(a) + Flat(b)
  {
    hide Expand;
    if a == [] {
      Sequences.Nil(b);
      Sequences.Nil(Flat(b));
    } else {
      FlatAppend(a[1..], b);
      Sequences.HeadTail(a, b);
      Sequences.Assoc(Expand(a[0], a[0].methods), Flat(a[1..]), Flat(b));
    }
  }

  /** Every entry of the flat table comes from a route that lists its method. */
  lemma {:induction false} FlatHolds(routes: seq<Route>, e: Entry)
    ensures e in Flat(routes) <==> exists r :: r in routes && e.verb in r.methods && e == EntryOf(r, e.verb)
  {
    if routes != [] {
      ExpandHolds(routes[0], routes[0].methods, e);
      FlatHolds(routes[1..], e);
      assert forall r :: r in routes <==> r == routes[0] || r in routes[1..];
    }
  }

  lemma {:induction false} FlatSorted(routes: seq<Route>)
    requires Sorted(routes, RouteKey())
    ensures Sorted(Flat(routes), EntryKey())
  {
    if routes != [] {
      var head, tail := Expand(routes[0], routes[0].methods), Flat(routes[1..]);
      FlatSorted(routes[1..]);
      forall e | e in head ensures e.specificity == routes[0].specificity {
        ExpandHolds(routes[0], routes[0].methods, e);
      }
      forall e | e in tail ensures e.specificity <= routes[0].specificity {
        FlatHolds(routes[1..], e);
        var r :| r in routes[1..] && e == EntryOf(r, e.verb);
        var i :| 0 <= i < |routes[1..]| && routes[1..][i] == r;
        assert RouteKey()(routes[0]) >= RouteKey()(routes[i + 1]);
      }
      forall i, j | 0 <= i < j < |head + tail| ensures EntryKey()((head + tail)[i]) >= EntryKey()((head + tail)[j]) {
        if j < |head| {
          assert head[i] in head && head[j] in head;
        } else if i < |head| {
          assert head[i] in head && tail[j - |head|] in tail;
        } else {
          assert EntryKey()(tail[i - |head|]) >= EntryKey()(tail[j - |head|]);
        }
      }
    }
  }

  /** A route the Rust table reads as the Python table does. */
  predicate Faithful(r: Route) {
    && NormalizeRule(r.rule) == r.rule
    && ParsePattern(r.rule) == Some(r.segments)
    && r.specificity == Specificity(r.segments)
    && Sequences.Distinct(r.methods)
  }

  /** A route as Rust reads its rule: with an empty segment for each slash after the first. */
  function Reading(r: Route): Route {
    match ParsePattern(r.rule)
    case None => r
    case Some(segments) => r.(segments := segments, specificity := Specificity(segments))
  }

  function Readings(routes: seq<Route>): seq<Route> {
    if routes == [] then [] else Readings(routes[..|routes| - 1]) + [Reading(routes[|routes| - 1])]
  }

  /** Each table holds the routes registered so far as its own side reads them. */
  ghost predicate Mirrored(t: Tables, registered: seq<Route>) {
    && t.routes == Sort(registered, RouteKey())
    && t.entries == Flat(Sort(Readings(registered), RouteKey()))
  }

  /** `add_url_rule` names each method once. */
  predicate MethodsOnce(registrations: seq<Registration>) {
    forall i :: 0 <= i < |registrations| ==> Sequences.Distinct(registrations[i].methods)
  }

  lemma ReadingIsFaithful(r: Registration)
    requires Sequences.Distinct(r.methods) && RouteOf(r).Some?
    ensures Faithful(Reading(RouteOf(r).value))
  {
    hide Sequences.Distinct, Specificity, ParseParts;
    NormalForm(r.rule);
    RustReads(r.rule);
  }

  lemma {:induction false} InsertHolds(s: seq<Route>, x: Route, r: Route)
    ensures r in Insert(s, x, RouteKey()) <==> r == x || r in s
  {
    if s != [] {
      InsertHolds(s[1..], x, r);
      assert r in s <==> r == s[0] || r in s[1..];
    }
  }

  lemma {:induction false} SortHolds(s: seq<Route>, r: Route)
    ensures r in Sort(s, RouteKey()) <==> r in s
  {
    if s != [] {
      var last := |s| - 1;
      SortHolds(s[..last], r);
      InsertHolds(Sort(s[..last], RouteKey()), s[last], r);
      assert r in s <==> r == s[last] || r in s[..last];
    }
  }

  lemma {:induction false} ReadingsHold(routes: seq<Route>, x: Route)
    ensures x in Readings(routes) <==> exists r :: r in routes && x == Reading(r)
  {
    hide Reading;
    if routes != [] {
      var last := |routes| - 1;
      ReadingsHold(routes[..last], x);
      assert forall r :: r in routes <==> r == routes[last] || r in routes[..last];
    }
  }

  /** What Python's table has no duplicate of, Rust's has none of. */
  lemma {:induction false} NoneDuplicated(registered: seq<Route>, rule: string, methods: seq<string>)
    requires forall r :: r in Sort(registered, RouteKey()) ==> !Duplicates(r, rule, methods)
    ensures forall x :: x in Sort(Readings(registered), RouteKey()) ==> !Duplicates(x, rule, methods)
  {
    hide Sort, Readings, ParsePattern;
    forall x | x in Sort(Readings(registered), RouteKey()) ensures !Duplicates(x, rule, methods) {
      SortHolds(Readings(registered), x);
      ReadingsHold(registered, x);
      var r :| r in registered && x == Reading(r);
      SortHolds(registered, r);
    }
  }

  lemma {:induction false} TakesOne(entries: seq<Entry>, route: Route, e: Entry)
    requires Faithful(route) && e == EntryOf(route, e.verb)
    requires forall x :: x in entries ==> !(x.verb == e.verb && x.pattern == route.rule)
    ensures RustAdd(entries, route.rule, e.verb, route.handler) == Some(Sort(entries + [e], EntryKey()))
  {
  }

  /** No entry has the pattern and the next method yet. */
  lemma {:induction false} MethodIsNew(a: seq<Route>, b: seq<Route>, route: Route, done: seq<string>, rest: seq<string>)
    requires Faithful(route) && done + rest == route.methods && rest != []
    requires forall r :: r in a || r in b ==> !Duplicates(r, route.rule, route.methods)
    ensures forall e :: e in Flat(a) + Expand(route, done) + Flat(b) ==> !(e.verb == rest[0] && e.pattern == route.rule)
  {
    hide Flat, Expand;
    assert forall i :: 0 <= i < |done| ==> route.methods[i] == done[i];
    forall e | e in Flat(a) + Expand(route, done) + Flat(b) && e.verb == rest[0] ensures e.pattern != route.rule {
      assert route.methods[|done|] == rest[0];
      FlatHolds(a, e);
      FlatHolds(b, e);
      ExpandHolds(route, done, e);
      assert e.verb !in done;
    }
  }

  lemma {:induction false} OneTaken(a: seq<Route>, b: seq<Route>, route: Route, done: seq<string>, e: Entry)
    requires e == EntryOf(route, e.verb)
    requires forall r :: r in a ==> r.specificity >= route.specificity
    requires forall r :: r in b ==> r.specificity < route.specificity
    requires Sorted(Flat(a) + Expand(route, done) + Flat(b), EntryKey())
    ensures var before, after := Flat(a) + Expand(route, done), Flat(b);
      && Sort(before + after + [e], EntryKey()) == before + [e] + after
      && Sorted(before + [e] + after, EntryKey())
  {
    hide Flat, Expand, Sort;
    var before, after := Flat(a) + Expand(route, done), Flat(b);
    forall i | 0 <= i < |before| ensures EntryKey()(before[i]) >= EntryKey()(e) {
      FlatHolds(a, before[i]);
      ExpandHolds(route, done, before[i]);
    }
    if after != [] {
      FlatHolds(b, after[0]);
    }
    SortAppended(before + after, e, EntryKey());
    InsertAt(before, after, e, EntryKey());
    InsertKeepsSorted(before + after, e, EntryKey());
  }

  /** The Rust table takes the methods of a new route one by one, between the same neighbours. */
  lemma {:induction false} MethodsTaken(a: seq<Route>, b: seq<Route>, route: Route, done: seq<string>,
                                        rest: seq<string>)
    requires Faithful(route) && done + rest == route.methods
    requires forall r :: r in a ==> r.specificity >= route.specificity
    requires forall r :: r in b ==> r.specificity < route.specificity
    requires forall r :: r in a || r in b ==> !Duplicates(r, route.rule, route.methods)
    requires Sorted(Flat(a) + Expand(route, done) + Flat(b), EntryKey())
    ensures RustAddAll(Flat(a) + Expand(route, done) + Flat(b), route.rule, rest, route.handler)
         == (Flat(a) + Expand(route, route.methods) + Flat(b), true)
    decreases |rest|
  {
    hide Faithful, NormalizeRule, ParsePattern, Specificity, Flat, Expand, Sort, Sorted, Insert, Duplicates;
    if rest == [] {
      assert done == route.methods;
    } else {
      var before, after, e := Flat(a) + Expand(route, done), Flat(b), EntryOf(route, rest[0]);
      MethodIsNew(a, b, route, done, rest);
      OneTaken(a, b, route, done, e);
      ExpandOneMore(route, done, rest[0]);
      assert before + [e] + after == Flat(a) + Expand(route, done + [rest[0]]) + Flat(b);
      assert done + [rest[0]] + rest[1..] == route.methods;
      MethodsTaken(a, b, route, done + [rest[0]], rest[1..]);
      TakesOne(before + after, route, e);
    }
  }

  lemma {:induction false} ReadingsOneMore(registered: seq<Route>, route: Route)
    ensures Readings(registered + [route]) == Readings(registered) + [Reading(route)]
  {
    Sequences.FrontLast(registered, route);
  }

  lemma {:induction false} NothingExpands(route: Route)
    ensures Expand(route, []) == []
  {
  }

  lemma {:induction false} FlatOne(route: Route)
    ensures Flat([route]) == Expand(route, route.methods)
  {
    assert Flat([route][1..]) == [];
  }

  /** A new route goes into the flat table as it goes into the list it was made from. */
  lemma {:induction false} RustTakes(registered: seq<Route>, route: Route)
    requires Sorted(registered, RouteKey())
    requires Faithful(route) && forall r :: r in registered ==> !Duplicates(r, route.rule, route.methods)
    ensures RustAddAll(Flat(registered), route.rule, route.methods, route.handler)
         == (Flat(Insert(registered, route, RouteKey())), true)
  {
    hide Flat, Sort, Insert, Expand, RustAddAll, Faithful, Duplicates, NormalizeRule, ParsePattern, Specificity;
    var n := Place(registered, route.specificity, RouteKey());
    var a, b := registered[..n], registered[n..];
    assert a + b == registered;
    InsertAt(a, b, route, RouteKey());
    FlatSorted(registered);
    FlatAppend(a, b);
    assert Flat(a) + [] + Flat(b) == Flat(a) + Flat(b);
    NothingExpands(route);
    assert [] + route.methods == route.methods;
    MethodsTaken(a, b, route, [], route.methods);
    FlatAppend(a + [route], b);
    FlatAppend(a, [route]);
    FlatOne(route);
  }

  lemma RouteFields(r: Registration)
    requires RouteOf(r).Some?
    ensures var route := RouteOf(r).value;
      && route.rule == NormalizeRule(r.rule) && route.methods == r.methods && route.handler == r.handler
      && Reading(route).rule == route.rule && Reading(route).methods == r.methods
      && Reading(route).handler == r.handler
  {
  }

  lemma {:induction false} SortOneMore(s: seq<Route>, x: Route)
    ensures Sort(s + [x], RouteKey()) == Insert(Sort(s, RouteKey()), x, RouteKey())
  {
    assert (s + [x])[..|s|] == s;
  }

  /** A registration Python accepts is accepted by Rust, and the tables still mirror each other. */
  lemma RegisterMirrors(t: Tables, registered: seq<Route>, r: Registration)
    requires Mirrored(t, registered) && Sequences.Distinct(r.methods)
    ensures PyAdd(t.routes, r).None? ==> Register(t, r) == t
    ensures PyAdd(t.routes, r).Some? ==>
      && RustAddAll(t.entries, NormalizeRule(r.rule), r.methods, r.handler).1
      && RouteOf(r).Some? && Register(t, r).routes == PyAdd(t.routes, r).value
      && Mirrored(Register(t, r), registered + [RouteOf(r).value])
  {
    hide Flat, Sort, RouteOf, NormalizeRule, Faithful, Reading, Readings;
    if PyAdd(t.routes, r).Some? {
      var route := RouteOf(r).value;
      var read, table := Reading(route), Sort(Readings(registered), RouteKey());
      ReadingIsFaithful(r);
      RouteFields(r);
      NoneDuplicated(registered, read.rule, read.methods);
      SortSorts(Readings(registered), RouteKey());
      RustTakes(table, read);
      ReadingsOneMore(registered, route);
      SortOneMore(Readings(registered), read);
      SortSorts(registered, RouteKey());
      SortAppended(t.routes, route, RouteKey());
      SortOneMore(registered, route);
    }
  }

  /** The routes a run of registrations adds, in the order of the calls. */
  function Accepted(routes: seq<Route>, registrations: seq<Registration>): seq<Route>
    decreases |registrations|
  {
    if registrations == [] then []
    else
      match PyAdd(routes, registrations[0])
      case None => Accepted(routes, registrations[1..])
      case Some(more) =>
        (if RouteOf(registrations[0]).Some? then [RouteOf(registrations[0]).value] else [])
        + Accepted(more, registrations[1..])
  }

  lemma {:induction false} RegistrationsMirrorFrom(t: Tables, registered: seq<Route>, registrations: seq<Registration>)
    requires Mirrored(t, registered) && MethodsOnce(registrations)
    ensures var after := RegisterAll(t, registrations);
      && Mirrored(after, registered + Accepted(t.routes, registrations))
      && NoneRefused(t, registrations) && after.routes == PyAddAll(t.routes, registrations)
    decreases |registrations|
  {
    hide Mirrored, PyAdd, Sort, RouteOf, Register, RustAddAll;
    if registrations == [] {
      Sequences.Nil(registered);
    } else {
      var next := Register(t, registrations[0]);
      RegisterMirrors(t, registered, registrations[0]);
      if PyAdd(t.routes, registrations[0]).Some? {
        var route := RouteOf(registrations[0]).value;
        RegistrationsMirrorFrom(next, registered + [route], registrations[1..]);
        Sequences.Assoc(registered, [route], Accepted(next.routes, registrations[1..]));
      } else {
        RegistrationsMirrorFrom(t, registered, registrations[1..]);
      }
    }
  }

  /** A route made from its rule. */
  predicate Genuine(r: Route) {
    && r.methods != [] && NormalizeRule(r.rule) == r.rule
    && ParseRule(r.rule) == Some(r.segments) && r.specificity == Specificity(r.segments)
  }

  lemma {:induction false} AcceptedAreGenuine(routes: seq<Route>, registrations: seq<Registration>, r: Route)
    requires r in Accepted(routes, registrations)
    ensures Genuine(r)
    decreases |registrations|
  {
    hide ParseParts, Specificity;
    var first := registrations[0];
    NormalForm(first.rule);
    if PyAdd(routes, first).None? {
      AcceptedAreGenuine(routes, registrations[1..], r);
    } else if r != RouteOf(first).value {
      AcceptedAreGenuine(PyAdd(routes, first).value, registrations[1..], r);
    }
  }

  /** Rust reads a route as Python does exactly when its rule has no empty first segment. */
  lemma ReadingIsOwn(r: Route)
    requires Genuine(r)
    ensures Reading(r) == r <==> NoEmptyHead(r.rule)
    ensures Reading(r).segments == r.segments <==> NoEmptyHead(r.rule)
  {
    hide ParseParts, Specificity, NoEmptyHead;
    RulesAgree(r.rule);
    RustReads(r.rule);
  }

  lemma {:induction false} OwnReadings(routes: seq<Route>)
    requires forall r :: r in routes ==> Reading(r) == r
    ensures Readings(routes) == routes
  {
    hide Reading;
    if routes != [] {
      OwnReadings(routes[..|routes| - 1]);
      Sequences.SnocIs(routes);
    }
  }

  lemma {:induction false} FlatTellsApart(routes: seq<Route>, r: Route)
    requires (forall x :: x in routes ==> Genuine(x)) && r in routes && !NoEmptyHead(r.rule)
    ensures Flat(Sort(Readings(routes), RouteKey())) != Flat(Sort(routes, RouteKey()))
  {
    hide Sort, Flat, Readings, NoEmptyHead, ParsePattern, ParseRule, Specificity, NormalizeRule;
    var x := Reading(r);
    var e := EntryOf(x, r.methods[0]);
    ReadingIsOwn(r);
    ReadingsHold(routes, x);
    SortHolds(Readings(routes), x);
    FlatHolds(Sort(Readings(routes), RouteKey()), e);
    assert e in Flat(Sort(Readings(routes), RouteKey()));
    FlatHolds(Sort(routes, RouteKey()), e);
    if e in Flat(Sort(routes, RouteKey())) {
      var y :| y in Sort(routes, RouteKey()) && e.verb in y.methods && e == EntryOf(y, e.verb);
      SortHolds(routes, y);
    }
  }

  /** The flat tables of a list and of its readings are equal exactly when each route is read as its own. */
  lemma {:induction false} FlatReadings(routes: seq<Route>)
    requires forall r :: r in routes ==> Genuine(r)
    ensures Flat(Sort(Readings(routes), RouteKey())) == Flat(Sort(routes, RouteKey()))
       <==> forall r :: r in routes ==> NoEmptyHead(r.rule)
  {
    hide Genuine, Sort, Flat, Readings, NoEmptyHead, ParsePattern;
    forall r | r in routes ensures Reading(r) == r <==> NoEmptyHead(r.rule) {
      ReadingIsOwn(r);
    }
    if forall r :: r in routes ==> NoEmptyHead(r.rule) {
      OwnReadings(routes);
    } else if Flat(Sort(Readings(routes), RouteKey())) == Flat(Sort(routes, RouteKey())) {
      var r :| r in routes && !NoEmptyHead(r.rule);
      FlatTellsApart(routes, r);
    }
  }

  /**
   * After any registrations, some of which may be refused, Rust has refused none that Python
   * accepted; the Python table is the accepted calls sorted stably by specificity, and the Rust table
   * the same calls as Rust reads their rules, with one entry for each method. So Rust's mirrors
   * Python's exactly when no accepted rule has an empty first segment.
   */
  lemma {:induction false} RegistrationsMirror(registrations: seq<Registration>)
    requires MethodsOnce(registrations)
    ensures var t, accepted := RegisterAll(NO_ROUTES, registrations), Accepted([], registrations);
      && NoneRefused(NO_ROUTES, registrations)
      && t.routes == PyAddAll([], registrations) == Sort(accepted, RouteKey())
      && t.entries == Flat(Sort(Readings(accepted), RouteKey()))
      && (t.entries == Flat(t.routes) <==> forall r :: r in accepted ==> NoEmptyHead(r.rule))
  {
    hide Genuine, NoEmptyHead, Accepted, RegisterAll, PyAddAll;
    assert Sort([], RouteKey()) == [] && Flat([]) == [] && Readings([]) == [];
    RegistrationsMirrorFrom(NO_ROUTES, [], registrations);
    var accepted := Accepted([], registrations);
    Sequences.Nil(accepted);
    forall r | r in accepted ensures Genuine(r) {
      AcceptedAreGenuine([], registrations, r);
    }
    FlatReadings(accepted);
  }

  // ---------------------------------------------------------------------
  // Looking a request up
  // ---------------------------------------------------------------------

  function First<T>(s: seq<T>, p: T -> bool): Option<T> {
    if s == [] then None else if p(s[0]) then Some(s[0]) else First(s[1..], p)
  }

  lemma {:induction false} FirstAppend<T>(s: seq<T>, x: T, p: T -> bool)
    ensures First(s + [x], p) == if First(s, p).Some? then First(s, p) else if p(x) then Some(x) else None
  {
    if s == [] {
      assert [] + [x] == [x] && [x][1..] == [];
    } else {
      FirstAppend(s[1..], x, p);
      assert (s + [x])[1..] == s[1..] + [x];
    }
  }

  lemma {:induction false} FirstHolds<T>(s: seq<T>, p: T -> bool)
    ensures First(s, p).Some? <==> exists x :: x in s && p(x)
    ensures First(s, p).Some? ==> First(s, p).value in s && p(First(s, p).value)
  {
    if s != [] {
      FirstHolds(s[1..], p);
      assert forall x :: x in s <==> x == s[0] || x in s[1..];
    }
  }

  /** A request: its method in upper case, its path split, and how a piece is decoded. */
  datatype Query = Query(verb: string, parts: seq<string>, decode: Decoder)

  function RouteValues(q: Query, r: Route): Option<Values> { PyMatch(r.segments, q.parts, q.decode, map[]) }

  function EntryTexts(q: Query, e: Entry): Option<Texts> { RustMatch(e.segments, q.parts, q.decode, map[]) }

  /** Routes that match the path and list the method. */
  function Listing(q: Query, verb: string): Route -> bool {
    (r: Route) => RouteValues(q, r).Some? && verb in r.methods
  }

  function Naming(q: Query, verb: string): Entry -> bool {
    (e: Entry) => EntryTexts(q, e).Some? && e.verb == verb
  }

  /** The route that answers: the first that lists the method, else for HEAD the first that lists GET. */
  function PyChoice(q: Query, routes: seq<Route>): Option<(nat, Route)> {
    var exact, get := First(routes, Listing(q, q.verb)), First(routes, Listing(q, "GET"));
    if exact.Some? then Some((3, exact.value))
    else if q.verb == "HEAD" && get.Some? then Some((2, get.value))
    else None
  }

  /** As in Python, but at last any entry for the method "*". */
  function RustChoice(q: Query, entries: seq<Entry>): Option<(nat, Entry)> {
    var exact := First(entries, Naming(q, q.verb));
    var get, any := First(entries, Naming(q, "GET")), First(entries, Naming(q, "*"));
    if exact.Some? then Some((3, exact.value))
    else if q.verb == "HEAD" && get.Some? then Some((2, get.value))
    else if any.Some? then Some((1, any.value))
    else None
  }

  /** The methods a matching route or entry names; HEAD goes with GET. */
  predicate RouteNames(q: Query, r: Route, verb: string) {
    RouteValues(q, r).Some? && (verb in r.methods || (verb == "HEAD" && "GET" in r.methods))
  }

  predicate EntryNames(q: Query, e: Entry, verb: string) {
    EntryTexts(q, e).Some? && (verb == e.verb || (verb == "HEAD" && e.verb == "GET"))
  }

  ghost predicate PyNames(q: Query, routes: seq<Route>, verb: string) {
    exists r :: r in routes && RouteNames(q, r, verb)
  }

  ghost predicate RustNames(q: Query, entries: seq<Entry>, verb: string) {
    exists e :: e in entries && EntryNames(q, e, verb)
  }

  /** What the Allow header lists: the named methods and, when there are any, OPTIONS. */
  ghost predicate PyAllows(q: Query, routes: seq<Route>, verb: string) {
    PyNames(q, routes, verb) || (verb == "OPTIONS" && exists v :: PyNames(q, routes, v))
  }

  ghost predicate RustAllows(q: Query, entries: seq<Entry>, verb: string) {
    RustNames(q, entries, verb) || (verb == "OPTIONS" && exists v :: RustNames(q, entries, v))
  }

  function PyPriority(q: Query, r: Route): nat {
    if q.verb in r.methods then 3 else if q.verb == "HEAD" && "GET" in r.methods then 2 else 0
  }

  function RustPriority(q: Query, e: Entry): nat {
    if e.verb == q.verb then 3 else if q.verb == "HEAD" && e.verb == "GET" then 2 else if e.verb == "*" then 1 else 0
  }

  lemma PyChoiceOneMore(q: Query, s: seq<Route>, r: Route)
    ensures var best, priority := PyChoice(q, s), PyPriority(q, r);
      PyChoice(q, s + [r]) ==
        if RouteValues(q, r).Some? && priority > 0 && (best.None? || priority > best.value.0) then Some((priority, r))
        else best
  {
    hide RouteValues, First;
    FirstAppend(s, r, Listing(q, q.verb));
    FirstAppend(s, r, Listing(q, "GET"));
  }

  lemma RustChoiceOneMore(q: Query, s: seq<Entry>, e: Entry)
    ensures var best, priority := RustChoice(q, s), RustPriority(q, e);
      RustChoice(q, s + [e]) ==
        if EntryTexts(q, e).Some? && priority > 0 && (best.None? || priority > best.value.0) then Some((priority, e))
        else best
  {
    hide EntryTexts, First;
    FirstAppend(s, e, Naming(q, q.verb));
    FirstAppend(s, e, Naming(q, "GET"));
    FirstAppend(s, e, Naming(q, "*"));
  }

  method NoteRoute(q: Query, ghost seen: seq<Route>, route: Route, found: Option<Values>, before: set<string>)
    returns (allowed: set<string>)
    requires found == RouteValues(q, route)
    requires forall verb :: verb in before <==> PyNames(q, seen, verb)
    ensures forall verb :: verb in allowed <==> PyNames(q, seen + [route], verb)
  {
    hide PyMatch;
    allowed := before;
    if found.Some? {
      allowed := allowed + (set m | m in route.methods);
      if "GET" in route.methods {
        allowed := allowed + {"HEAD"};
      }
    }
    forall verb ensures PyNames(q, seen + [route], verb) <==> PyNames(q, seen, verb) || RouteNames(q, route, verb) {
      assert route in seen + [route];
    }
  }

  /** `_match_route`. */
  method MatchRoute(q: Query, routes: seq<Route>)
    returns (matched: Option<(nat, Route)>, params: Values, allowed: set<string>)
    ensures matched == PyChoice(q, routes)
    ensures matched.Some? ==> RouteValues(q, matched.value.1) == Some(params)
    ensures matched.None? ==> params == map[]
    ensures forall verb :: verb in allowed <==> PyAllows(q, routes, verb)
  {
    hide PyMatch, RouteNames;
    matched, params, allowed := None, map[], {};
    for i := 0 to |routes|
      invariant matched == PyChoice(q, routes[..i])
      invariant matched.Some? ==> RouteValues(q, matched.value.1) == Some(params)
      invariant matched.None? ==> params == map[]
      invariant forall verb :: verb in allowed <==> PyNames(q, routes[..i], verb)
    {
      assert routes[..i + 1] == routes[..i] + [routes[i]];
      PyChoiceOneMore(q, routes[..i], routes[i]);
      var found := MatchRule(routes[i].segments, q.parts, q.decode);
      allowed := NoteRoute(q, routes[..i], routes[i], found, allowed);
      if found.Some? {
        var priority := PyPriority(q, routes[i]);
        if priority > 0 && (matched.None? || priority > matched.value.0) {
          matched, params := Some((priority, routes[i])), found.value;
        }
      }
    }
    assert routes[..|routes|] == routes;
    if allowed != {} {
      ghost var named: string :| named in allowed;
      allowed := allowed + {"OPTIONS"};
    }
  }

  method NoteEntry(q: Query, ghost seen: seq<Entry>, entry: Entry, found: Option<Texts>, before: set<string>)
    returns (allowed: set<string>)
    requires found == EntryTexts(q, entry)
    requires forall verb :: verb in before <==> RustNames(q, seen, verb)
    ensures forall verb :: verb in allowed <==> RustNames(q, seen + [entry], verb)
  {
    hide RustMatch;
    allowed := before;
    if found.Some? {
      allowed := allowed + {entry.verb};
      if entry.verb == "GET" {
        allowed := allowed + {"HEAD"};
      }
    }
    forall verb ensures RustNames(q, seen + [entry], verb) <==> RustNames(q, seen, verb) || EntryNames(q, entry, verb) {
      assert entry in seen + [entry];
    }
  }

  /** `find_handler`. */
  method FindHandler(q: Query, entries: seq<Entry>)
    returns (matched: Option<(nat, Entry)>, params: Texts, allowed: set<string>)
    ensures matched == RustChoice(q, entries)
    ensures matched.Some? ==> EntryTexts(q, matched.value.1) == Some(params)
    ensures matched.None? ==> params == map[]
    ensures forall verb :: verb in allowed <==> RustAllows(q, entries, verb)
  {
    hide RustMatch, EntryNames;
    matched, params, allowed := None, map[], {};
    for i := 0 to |entries|
      invariant matched == RustChoice(q, entries[..i])
      invariant matched.Some? ==> EntryTexts(q, matched.value.1) == Some(params)
      invariant matched.None? ==> params == map[]
      invariant forall verb :: verb in allowed <==> RustNames(q, entries[..i], verb)
    {
      assert entries[..i + 1] == entries[..i] + [entries[i]];
      RustChoiceOneMore(q, entries[..i], entries[i]);
      var found := MatchSegments(entries[i].segments, q.parts, q.decode);
      allowed := NoteEntry(q, entries[..i], entries[i], found, allowed);
      if found.Some? {
        var priority := RustPriority(q, entries[i]);
        if priority > 0 && (matched.None? || priority > matched.value.0) {
          matched, params := Some((priority, entries[i])), found.value;
        }
      }
    }
    assert entries[..|entries|] == entries;
    if allowed != {} {
      ghost var named: string :| named in allowed;
      allowed := allowed + {"OPTIONS"};
    }
  }

  // ---------------------------------------------------------------------
  // The two tables answer alike
  // ---------------------------------------------------------------------

  /** No parameter of the route takes a piece with a control character only Rust counts. */
  predicate RoutePlain(q: Query, r: Route) {
    ParamsPlain(r.segments, q.parts, q.decode)
  }

  lemma RouteAndEntryMatch(q: Query, r: Route, verb: string)
    ensures var texts := EntryTexts(q, EntryOf(r, verb));
      && (texts.Some? <==> RouteValues(q, r).Some? && RoutePlain(q, r))
      && (texts.Some? ==> RouteValues(q, r) == Some(ConvertParams(texts.value, Converters(r.segments, map[]))))
  {
    hide PyMatch, RustMatch, ConvertParams, Converters, ParamsPlain;
    MatchesAgree(r.segments, q.parts, q.decode);
  }

  lemma {:induction false} FirstInExpand(q: Query, r: Route, methods: seq<string>, rest: seq<Entry>, verb: string)
    ensures First(Expand(r, methods) + rest, Naming(q, verb)) ==
      if verb in methods && EntryTexts(q, EntryOf(r, verb)).Some? then Some(EntryOf(r, verb))
      else First(rest, Naming(q, verb))
  {
    hide RustMatch;
    if methods == [] {
      assert [] + rest == rest;
    } else {
      FirstInExpand(q, r, methods[1..], rest, verb);
      var tail := Expand(r, methods[1..]) + rest;
      assert Expand(r, methods) + rest == [EntryOf(r, methods[0])] + tail;
      assert ([EntryOf(r, methods[0])] + tail)[1..] == tail;
    }
  }

  function PlainListing(q: Query, verb: string): Route -> bool {
    (r: Route) => RouteValues(q, r).Some? && verb in r.methods && RoutePlain(q, r)
  }

  /** The first entry for a method belongs to the first plain route that lists the method. */
  lemma {:induction false} FirstInFlat(q: Query, routes: seq<Route>, verb: string)
    ensures First(Flat(routes), Naming(q, verb)) ==
      match First(routes, PlainListing(q, verb))
      case None => None
      case Some(r) => Some(EntryOf(r, verb))
  {
    hide RoutePlain, RouteValues, EntryTexts;
    if routes != [] {
      FirstInExpand(q, routes[0], routes[0].methods, Flat(routes[1..]), verb);
      RouteAndEntryMatch(q, routes[0], verb);
      FirstInFlat(q, routes[1..], verb);
    }
  }

  /** If the first that lists the method is plain, it is the first plain one; else none is found, or a later one. */
  lemma {:induction false} FirstPlain(q: Query, routes: seq<Route>, verb: string)
    ensures var first, plain := First(routes, Listing(q, verb)), First(routes, PlainListing(q, verb));
      && (first.None? ==> plain.None?)
      && (first.Some? && RoutePlain(q, first.value) ==> plain == first)
      && (plain.Some? ==> RoutePlain(q, plain.value))
  {
    hide RoutePlain, RouteValues;
    if routes != [] {
      FirstPlain(q, routes[1..], verb);
    }
  }

  /** Some plain route that matches names the method. */
  ghost predicate PlainNames(q: Query, routes: seq<Route>, verb: string) {
    exists r :: r in routes && RouteNames(q, r, verb) && RoutePlain(q, r)
  }

  lemma {:induction false} NamesAgree(q: Query, routes: seq<Route>, verb: string)
    ensures RustNames(q, Flat(routes), verb) <==> PlainNames(q, routes, verb)
  {
    hide RoutePlain, RouteValues, EntryTexts;
    if PlainNames(q, routes, verb) {
      var r :| r in routes && RouteNames(q, r, verb) && RoutePlain(q, r);
      var e := EntryOf(r, if verb in r.methods then verb else "GET");
      RouteAndEntryMatch(q, r, e.verb);
      FlatHolds(routes, e);
      assert EntryNames(q, e, verb);
    }
    if RustNames(q, Flat(routes), verb) {
      var e :| e in Flat(routes) && EntryNames(q, e, verb);
      FlatHolds(routes, e);
      var r :| r in routes && e.verb in r.methods && e == EntryOf(r, e.verb);
      RouteAndEntryMatch(q, r, e.verb);
      assert RouteNames(q, r, verb);
    }
  }

  /** Some plain route that matches lists the method "*". */
  ghost predicate AnyMethod(q: Query, routes: seq<Route>) {
    exists r :: r in routes && RouteValues(q, r).Some? && RoutePlain(q, r) && "*" in r.methods
  }

  /** The entry Rust needs to find to agree with Python's choice. */
  function Counterpart(q: Query, choice: (nat, Route)): (nat, Entry) {
    (choice.0, EntryOf(choice.1, if choice.0 == 3 then q.verb else "GET"))
  }

  /** What Rust chooses matches. */
  lemma {:induction false} RustMatches(q: Query, entries: seq<Entry>)
    ensures RustChoice(q, entries).Some? ==> EntryTexts(q, RustChoice(q, entries).value.1).Some?
  {
    hide First, EntryTexts;
    FirstHolds(entries, Naming(q, q.verb));
    FirstHolds(entries, Naming(q, "GET"));
    FirstHolds(entries, Naming(q, "*"));
  }

  lemma {:induction false} ChoicesAgree(q: Query, routes: seq<Route>)
    ensures PyChoice(q, routes).Some? ==>
      var choice := PyChoice(q, routes).value;
      && (RustChoice(q, Flat(routes)) == Some(Counterpart(q, choice)) <==> RoutePlain(q, choice.1))
      && (RoutePlain(q, choice.1) ==>
            var texts := EntryTexts(q, Counterpart(q, choice).1);
            texts.Some? && RouteValues(q, choice.1)
              == Some(ConvertParams(texts.value, Converters(choice.1.segments, map[]))))
    ensures PyChoice(q, routes).None? ==> (RustChoice(q, Flat(routes)).Some? <==> AnyMethod(q, routes))
  {
    hide RoutePlain, First, Flat, RouteValues, EntryTexts, ConvertParams, Converters;
    FirstInFlat(q, routes, q.verb);
    FirstInFlat(q, routes, "GET");
    FirstInFlat(q, routes, "*");
    FirstPlain(q, routes, q.verb);
    FirstPlain(q, routes, "GET");
    FirstHolds(routes, Listing(q, q.verb));
    FirstHolds(routes, Listing(q, "GET"));
    FirstHolds(routes, PlainListing(q, "*"));
    if PyChoice(q, routes).Some? {
      var choice := PyChoice(q, routes).value;
      RouteAndEntryMatch(q, choice.1, Counterpart(q, choice).1.verb);
      if RustChoice(q, Flat(routes)) == Some(Counterpart(q, choice)) {
        RustMatches(q, Flat(routes));
      }
    } else if AnyMethod(q, routes) {
      var r :| r in routes && RouteValues(q, r).Some? && RoutePlain(q, r) && "*" in r.methods;
      assert PlainListing(q, "*")(r);
    }
  }

  // --- Routes that the two sides read differently and that do not match

  function Keep<T>(s: seq<T>, p: T -> bool): seq<T> {
    if s == [] then [] else (if p(s[0]) then [s[0]] else []) + Keep(s[1..], p)
  }

  lemma {:induction false} KeepAppend<T>(s: seq<T>, x: T, p: T -> bool)
    ensures Keep(s + [x], p) == Keep(s, p) + (if p(x) then [x] else [])
  {
    var last := if p(x) then [x] else [];
    if s == [] {
      Sequences.Nil([x]);
      Sequences.Nil(last);
      assert Keep([x][1..], p) == [];
    } else {
      KeepAppend(s[1..], x, p);
      Sequences.HeadTail(s, [x]);
      Sequences.Assoc(if p(s[0]) then [s[0]] else [], Keep(s[1..], p), last);
    }
  }

  lemma {:induction false} KeepHolds<T>(s: seq<T>, x: T, p: T -> bool)
    ensures x in Keep(s, p) <==> x in s && p(x)
  {
    if s != [] {
      KeepHolds(s[1..], x, p);
      assert x in s <==> x == s[0] || x in s[1..];
    }
  }

  lemma {:induction false} KeepInsert(s: seq<Route>, x: Route, p: Route -> bool)
    requires Sorted(s, RouteKey())
    ensures Keep(Insert(s, x, RouteKey()), p) == if p(x) then Insert(Keep(s, p), x, RouteKey()) else Keep(s, p)
  {
    if s != [] && RouteKey()(s[0]) >= RouteKey()(x) {
      KeepInsert(s[1..], x, p);
      Sequences.HeadTail([s[0]], Insert(s[1..], x, RouteKey()));
      Sequences.HeadTail([s[0]], Keep(s[1..], p));
      Sequences.Nil(Keep(s[1..], p));
      Sequences.Nil(Insert(s[1..], x, RouteKey()));
      Sequences.Nil(Keep(Insert(s[1..], x, RouteKey()), p));
    } else {
      assert ([x] + s)[1..] == s;
      forall r | r in Keep(s, p) ensures RouteKey()(r) < RouteKey()(x) {
        KeepHolds(s, r, p);
        var i :| 0 <= i < |s| && s[i] == r;
        assert i > 0 ==> RouteKey()(s[0]) >= RouteKey()(s[i]);
      }
    }
  }

  /** Leaving routes out and sorting can be done in either order. */
  lemma {:induction false} KeepSort(s: seq<Route>, p: Route -> bool)
    ensures Keep(Sort(s, RouteKey()), p) == Sort(Keep(s, p), RouteKey())
  {
    assert Sort([], RouteKey()) == [];
    hide Sort;
    if s != [] {
      var last := |s| - 1;
      KeepSort(s[..last], p);
      SortSorts(s[..last], RouteKey());
      KeepInsert(Sort(s[..last], RouteKey()), s[last], p);
      Sequences.SnocIs(s);
      SortOneMore(s[..last], s[last]);
      KeepAppend(s[..last], s[last], p);
      SortOneMore(Keep(s[..last], p), s[last]);
      Sequences.Nil(Keep(s[..last], p));
    }
  }

  lemma {:induction false} FirstKept<T>(s: seq<T>, kept: T -> bool, p: T -> bool)
    requires forall x :: x in s && p(x) ==> kept(x)
    ensures First(Keep(s, kept), p) == First(s, p)
  {
    if s != [] {
      FirstKept(s[1..], kept, p);
      Sequences.HeadTail([s[0]], Keep(s[1..], kept));
      Sequences.Nil(Keep(s[1..], kept));
    }
  }

  function Alike(): Route -> bool { (r: Route) => NoEmptyHead(r.rule) }

  lemma ReadingKeepsRule(r: Route)
    ensures Reading(r).rule == r.rule
  {
  }

  lemma {:induction false} ReadingsAlike(routes: seq<Route>)
    requires forall r :: r in routes ==> Genuine(r)
    ensures Keep(Readings(routes), Alike()) == Keep(routes, Alike())
  {
    hide Genuine, Reading, NoEmptyHead;
    if routes != [] {
      var last := |routes| - 1;
      ReadingsAlike(routes[..last]);
      ReadingIsOwn(routes[last]);
      ReadingKeepsRule(routes[last]);
      KeepAppend(routes[..last], routes[last], Alike());
      KeepAppend(Readings(routes[..last]), Reading(routes[last]), Alike());
      Sequences.SnocIs(routes);
    }
  }

  /** The path is matched by no route whose rule has an empty first segment, however it is read. */
  predicate Apart(q: Query, routes: seq<Route>) {
    forall r | r in routes && !NoEmptyHead(r.rule) ::
      RouteValues(q, r).None? && EntryTexts(q, EntryOf(Reading(r), "")).None?
  }

  lemma {:induction false} ReadingsApart(q: Query, routes: seq<Route>, x: Route)
    requires Apart(q, Sort(routes, RouteKey())) && x in Sort(Readings(routes), RouteKey())
    ensures RouteValues(q, x).Some? && RoutePlain(q, x) ==> NoEmptyHead(x.rule)
  {
    hide Sort, Readings, NoEmptyHead, RouteValues, RoutePlain, Reading;
    SortHolds(Readings(routes), x);
    ReadingsHold(routes, x);
    var r :| r in routes && x == Reading(r);
    SortHolds(routes, r);
    ReadingKeepsRule(r);
    RouteAndEntryMatch(q, x, "");
  }

  /** On such a path both tables answer as if those routes were not there. */
  lemma {:induction false} OnlyAlike(q: Query, accepted: seq<Route>)
    requires (forall r :: r in accepted ==> Genuine(r)) && Apart(q, Sort(accepted, RouteKey()))
    ensures var routes, read := Sort(accepted, RouteKey()), Sort(Readings(accepted), RouteKey());
      var kept := Keep(routes, Alike());
      && PyChoice(q, kept) == PyChoice(q, routes) && RustChoice(q, Flat(kept)) == RustChoice(q, Flat(read))
      && (AnyMethod(q, kept) <==> AnyMethod(q, routes))
      && (forall verb :: PlainNames(q, kept, verb) <==> PlainNames(q, routes, verb))
      && (forall verb :: RustNames(q, Flat(kept), verb) <==> RustNames(q, Flat(read), verb))
  {
    hide Sort, Readings, Genuine, NoEmptyHead, RouteValues, RoutePlain, First, Flat, EntryTexts;
    var routes, read := Sort(accepted, RouteKey()), Sort(Readings(accepted), RouteKey());
    var kept := Keep(routes, Alike());
    KeepSort(accepted, Alike());
    KeepSort(Readings(accepted), Alike());
    ReadingsAlike(accepted);
    assert kept == Keep(read, Alike());
    forall verb: string ensures First(kept, Listing(q, verb)) == First(routes, Listing(q, verb)) {
      FirstKept(routes, Alike(), Listing(q, verb));
    }
    forall x | x in read ensures RouteValues(q, x).Some? && RoutePlain(q, x) ==> NoEmptyHead(x.rule) {
      ReadingsApart(q, accepted, x);
    }
    forall verb: string ensures First(Flat(kept), Naming(q, verb)) == First(Flat(read), Naming(q, verb)) {
      FirstKept(read, Alike(), PlainListing(q, verb));
      FirstInFlat(q, kept, verb);
      FirstInFlat(q, read, verb);
    }
    forall r ensures r in kept <==> r in routes && NoEmptyHead(r.rule) {
      KeepHolds(routes, r, Alike());
    }
    forall r ensures r in kept <==> r in read && NoEmptyHead(r.rule) {
      KeepHolds(read, r, Alike());
    }
    forall verb ensures RustNames(q, Flat(kept), verb) <==> RustNames(q, Flat(read), verb) {
      NamesAgree(q, kept, verb);
      NamesAgree(q, read, verb);
    }
  }

  /**
   * After any registrations and for every path that no route with an empty first segment matches:
   * where Python finds a route, Rust finds its handler exactly when no parameter of that route takes a
   * piece with a control character only Rust counts, and its texts then convert to the same values;
   * where Python finds none, Rust finds one exactly when a plain route that matches lists the method
   * "*"; and Rust names the methods of the plain routes that match.
   */
  lemma {:induction false} TablesAgree(registrations: seq<Registration>, t: Tables, q: Query)
    requires MethodsOnce(registrations) && RegisterAll(NO_ROUTES, registrations) == t
    requires Apart(q, t.routes)
    ensures forall verb :: RustNames(q, t.entries, verb) <==> PlainNames(q, t.routes, verb)
    ensures PyChoice(q, t.routes).Some? ==>
      var choice := PyChoice(q, t.routes).value;
      && (RustChoice(q, t.entries) == Some(Counterpart(q, choice)) <==> RoutePlain(q, choice.1))
      && (RoutePlain(q, choice.1) ==>
            var texts := EntryTexts(q, Counterpart(q, choice).1);
            texts.Some? && RouteValues(q, choice.1)
              == Some(ConvertParams(texts.value, Converters(choice.1.segments, map[]))))
    ensures PyChoice(q, t.routes).None? ==> (RustChoice(q, t.entries).Some? <==> AnyMethod(q, t.routes))
  {
    hide RoutePlain, RegisterAll, PyAddAll, Accepted, NoneRefused, Sort, First, Flat, RouteValues, EntryTexts,
      ConvertParams, Converters, Genuine, Readings, Apart, PlainNames, RustNames, AnyMethod, MethodsOnce;
    RegistrationsMirror(registrations);
    var accepted := Accepted([], registrations);
    forall r | r in accepted ensures Genuine(r) {
      AcceptedAreGenuine([], registrations, r);
    }
    OnlyAlike(q, accepted);
    var kept := Keep(t.routes, Alike());
    forall verb ensures RustNames(q, t.entries, verb) <==> PlainNames(q, t.routes, verb) {
      NamesAgree(q, kept, verb);
    }
    ChoicesAgree(q, kept);
  }

  /** Where every route that matches is plain, both tables allow the same methods. */
  lemma {:induction false} AllowedAgree(registrations: seq<Registration>, t: Tables, q: Query)
    requires MethodsOnce(registrations) && RegisterAll(NO_ROUTES, registrations) == t
    requires Apart(q, t.routes) && forall r :: r in t.routes && RouteValues(q, r).Some? ==> RoutePlain(q, r)
    ensures forall verb :: PyAllows(q, t.routes, verb) <==> RustAllows(q, t.entries, verb)
  {
    hide Apart, RoutePlain, RegisterAll, RouteValues, EntryNames, MethodsOnce;
    TablesAgree(registrations, t, q);
    forall verb ensures PyNames(q, t.routes, verb) <==> RustNames(q, t.entries, verb) {
      assert PyNames(q, t.routes, verb) <==> PlainNames(q, t.routes, verb);
    }
  }

  lemma SortOne<T>(x: T, key: T -> nat)
    ensures Sort([] + [x], key) == [x]
  {
    Sequences.FrontLast([], x);
    assert Sort([], key) == [];
  }

  lemma FirstOfOne<T>(x: T, p: T -> bool)
    ensures First([x], p) == if p(x) then Some(x) else None
  {
    assert [x][1..] == [];
  }

  lemma RootRoute(handler: nat)
    ensures RouteOf(Registration("/", ["*"], handler)) == Some(Route("/", [], 0, ["*"], handler))
    ensures NormalizeRule("/") == "/" && ParsePattern("/") == Some([])
  {
    assert NormalizeRule("/") == "/" && RuleParts("/") == [] && PathParts("/") == [];
  }

  lemma StarRegisters(handler: nat)
    ensures var route := Route("/", [], 0, ["*"], handler);
      RegisterAll(NO_ROUTES, [Registration("/", ["*"], handler)]) == Tables([route], [EntryOf(route, "*")])
  {
    hide ParseRule, ParsePattern, NormalizeRule, RouteOf;
    var r, route := Registration("/", ["*"], handler), Route("/", [], 0, ["*"], handler);
    var entry := EntryOf(route, "*");
    RootRoute(handler);
    SortOne(route, RouteKey());
    SortOne(entry, EntryKey());
    assert PyAdd([], r) == Some([route]);
    assert RustAdd([], "/", "*", handler) == Some([entry]);
    assert ["*"][1..] == [] && RustAddAll([entry], "/", [], handler) == ([entry], true);
    assert Register(NO_ROUTES, r) == Tables([route], [entry]);
    assert [r][1..] == [];
  }

  /** One route that lists "*": Python answers 405 to a GET, Rust calls the handler. */
  lemma StarDisagrees(decode: Decoder, handler: nat)
    ensures var registrations := [Registration("/", ["*"], handler)];
      var q, route := Query("GET", [], decode), Route("/", [], 0, ["*"], handler);
      var t := Tables([route], [EntryOf(route, "*")]);
      && RegisterAll(NO_ROUTES, registrations) == t
      && PyChoice(q, t.routes).None?
      && RustChoice(q, t.entries) == Some((1, EntryOf(route, "*")))
  {
    hide RegisterAll, First;
    var route := Route("/", [], 0, ["*"], handler);
    var entry, q := EntryOf(route, "*"), Query("GET", [], decode);
    StarRegisters(handler);
    FirstOfOne(route, Listing(q, "GET"));
    FirstOfOne(entry, Naming(q, "GET"));
    FirstOfOne(entry, Naming(q, "*"));
    assert "*"[0] != "GET"[0];
    assert EntryTexts(q, entry) == Some(map[]);
  }

  lemma HeadedRoute(handler: nat)
    ensures var route := Route("//a", [Static("a")], 100, ["GET"], handler);
      && RouteOf(Registration("//a", ["GET"], handler)) == Some(route)
      && NormalizeRule("//a") == "//a" && ParsePattern("//a") == Some([Static(""), Static("a")])
  {
    EmptyHeadDisagrees();
    assert NormalizeRule("//a") == "//a";
    assert Specificity([Static("a")][1..]) == 0;
  }

  lemma HeadedRegisters(handler: nat)
    ensures var route := Route("//a", [Static("a")], 100, ["GET"], handler);
      var entry := Entry("GET", "//a", [Static(""), Static("a")], 200, handler);
      RegisterAll(NO_ROUTES, [Registration("//a", ["GET"], handler)]) == Tables([route], [entry])
  {
    var r, route := Registration("//a", ["GET"], handler), Route("//a", [Static("a")], 100, ["GET"], handler);
    var entry := Entry("GET", "//a", [Static(""), Static("a")], 200, handler);
    HeadedRoute(handler);
    assert [Static(""), Static("a")][1..] == [Static("a")] && [Static("a")][1..] == [];
    assert Specificity([Static("a")]) == 100 && Specificity([Static(""), Static("a")]) == 200;
    hide ParseRule, ParsePattern, NormalizeRule, RouteOf, Specificity;
    SortOne(route, RouteKey());
    SortOne(entry, EntryKey());
    assert PyAdd([], r) == Some([route]);
    assert RustAdd([], "//a", "GET", handler) == Some([entry]);
    assert ["GET"][1..] == [] && RustAddAll([entry], "//a", [], handler) == ([entry], true);
    assert Register(NO_ROUTES, r) == Tables([route], [entry]);
    assert [r][1..] == [];
  }

  /** A rule with an empty first segment: `//a` answers `/a` in Python only, and `//a` in Rust only. */
  lemma HeadsDisagree(decode: Decoder, handler: nat)
    requires decode("a") == Some("a") && decode("") == Some("")
    ensures var t := RegisterAll(NO_ROUTES, [Registration("//a", ["GET"], handler)]);
      var short, long := Query("GET", ["a"], decode), Query("GET", ["", "a"], decode);
      && PyChoice(short, t.routes).Some? && RustChoice(short, t.entries).None?
      && PyChoice(long, t.routes).None? && RustChoice(long, t.entries).Some?
  {
    var route := Route("//a", [Static("a")], 100, ["GET"], handler);
    var entry := Entry("GET", "//a", [Static(""), Static("a")], 200, handler);
    var short, long := Query("GET", ["a"], decode), Query("GET", ["", "a"], decode);
    HeadedRegisters(handler);
    assert ["", "a"][1..] == ["a"] && ["a"][1..] == [];
    assert [Static(""), Static("a")][1..] == [Static("a")] && [Static("a")][1..] == [];
    assert PyMatch([], [], decode, map[]) == Some(map[]) && RustMatch([], [], decode, map[]) == Some(map[]);
    assert |"a"| != |""|;
    hide RegisterAll, First;
    FirstOfOne(route, Listing(short, "GET"));
    FirstOfOne(route, Listing(long, "GET"));
    FirstOfOne(entry, Naming(short, "GET"));
    FirstOfOne(entry, Naming(short, "*"));
    FirstOfOne(entry, Naming(long, "GET"));
    assert "*"[0] != "GET"[0];
  }

  lemma {:induction false} FirstWithKey(s: seq<Route>, k: nat, p: Route -> bool)
    requires First(s, p).Some? && First(s, p).value.specificity == k
    ensures First(WithKey(s, RouteKey(), k), p) == First(s, p)
  {
    if !p(s[0]) {
      FirstWithKey(s[1..], k, p);
    }
    var rest := WithKey(s[1..], RouteKey(), k);
    Sequences.HeadTail([s[0]], rest);
    Sequences.Nil(rest);
  }

  lemma {:induction false} FirstIsMostSpecific(s: seq<Route>, p: Route -> bool, other: Route)
    requires Sorted(s, RouteKey()) && First(s, p).Some? && other in s && p(other)
    ensures other.specificity <= First(s, p).value.specificity
  {
    if p(s[0]) {
      var i :| 0 <= i < |s| && s[i] == other;
      assert i > 0 ==> RouteKey()(s[0]) >= RouteKey()(s[i]);
    } else {
      FirstIsMostSpecific(s[1..], p, other);
    }
  }

  /** The route found is as specific as any that lists the method, and of those the first registered. */
  lemma {:induction false} MostSpecificWins(registrations: seq<Registration>, t: Tables, q: Query, verb: string)
    requires MethodsOnce(registrations) && RegisterAll(NO_ROUTES, registrations) == t
    requires First(t.routes, Listing(q, verb)).Some?
    ensures var route := First(t.routes, Listing(q, verb)).value;
      && (forall r :: r in t.routes && Listing(q, verb)(r) ==> r.specificity <= route.specificity)
      && First(WithKey(Accepted([], registrations), RouteKey(), route.specificity), Listing(q, verb)) == Some(route)
  {
    hide MethodsOnce, RegisterAll, PyAddAll, Accepted, NoneRefused, Sort, First, Flat, RouteValues, WithKey;
    hide Readings, NoEmptyHead;
    var route := First(t.routes, Listing(q, verb)).value;
    RegistrationsMirror(registrations);
    SortSorts(Accepted([], registrations), RouteKey());
    SortIsStable(Accepted([], registrations), RouteKey(), route.specificity);
    FirstWithKey(t.routes, route.specificity, Listing(q, verb));
    forall r | r in t.routes && Listing(q, verb)(r) ensures r.specificity <= route.specificity {
      FirstIsMostSpecific(t.routes, Listing(q, verb), r);
    }
  }
}
