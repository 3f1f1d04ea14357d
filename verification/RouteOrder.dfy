/**
 * Which registrations an application accepts, and which of two routes that match a path it prefers:
 * said of rules, methods and the kinds of segments, for both tables.
 */
module RouteOrder {
  import opened RouteTables
  import opened Rules
  import opened Wrappers
  import Sequences

  lemma {:induction false} InsertKeepsEach(s: seq<Route>, x: Route)
    ensures multiset(Insert(s, x, RouteKey())) == multiset(s) + multiset{x}
  {
    if s != [] && RouteKey()(s[0]) >= RouteKey()(x) {
      InsertKeepsEach(s[1..], x);
      Sequences.ConsIs(s);
    }
  }

  lemma {:induction false} SortKeepsEach(s: seq<Route>)
    ensures multiset(Sort(s, RouteKey())) == multiset(s)
  {
    if s != [] {
      var last := |s| - 1;
      SortKeepsEach(s[..last]);
      InsertKeepsEach(Sort(s[..last], RouteKey()), s[last]);
      Sequences.SnocIs(s);
    }
  }

  /**
   * A registration is accepted exactly when it names a method, its rule parses, and no route of the
   * same normal rule has one of its methods; it then adds one route, its own, and loses none.
   */
  lemma {:induction false} RegistersExactly(routes: seq<Route>, r: Registration)
    ensures PyAdd(routes, r).Some? <==>
      && r.methods != [] && ParseRule(r.rule).Some?
      && forall route: Route, m :: route in routes && m in r.methods && route.rule == NormalizeRule(r.rule) ==>
           m !in route.methods
    ensures PyAdd(routes, r).Some? ==> exists route: Route ::
      && route.rule == NormalizeRule(r.rule) && ParseRule(r.rule) == Some(route.segments)
      && route.methods == r.methods && route.handler == r.handler
      && multiset(PyAdd(routes, r).value) == multiset(routes) + multiset{route}
  {
    hide NormalizeRule, ParseRule, Sort, Specificity;
    assert forall route :: route in routes ==>
      (Duplicates(route, NormalizeRule(r.rule), r.methods)
       <==> route.rule == NormalizeRule(r.rule) && exists m :: m in route.methods && m in r.methods);
    if PyAdd(routes, r).Some? {
      var route := RouteOf(r).value;
      SortKeepsEach(routes + [route]);
      assert multiset(routes + [route]) == multiset(routes) + multiset{route};
      assert PyAdd(routes, r).value == Sort(routes + [route], RouteKey());
    }
  }

  /** Static text comes before numbers and UUIDs, these before other text, and that before whole paths. */
  predicate Ahead(a: Segment, b: Segment) {
    match (a, b)
    case (Static(_), Parameter(_, _)) => true
    case (Parameter(_, x), Parameter(_, y)) =>
      || (x in {Integer, Decimal, Uuid} && y in {Text, Path})
      || (x == Text && y == Path)
    case _ => false
  }

  /** As many segments, none of them behind its counterpart, and one ahead of it. */
  predicate MoreExact(a: seq<Segment>, b: seq<Segment>) {
    && |a| == |b| && (forall i :: 0 <= i < |a| ==> !Ahead(b[i], a[i]))
    && exists i :: 0 <= i < |a| && Ahead(a[i], b[i])
  }

  lemma AheadWeighs(a: Segment, b: Segment)
    ensures Ahead(a, b) <==> Weight(a) > Weight(b)
  {
  }

  lemma {:induction false} NotBehindWeighs(a: seq<Segment>, b: seq<Segment>)
    requires |a| == |b| && forall i :: 0 <= i < |a| ==> !Ahead(b[i], a[i])
    ensures Specificity(a) >= Specificity(b)
    ensures (exists i :: 0 <= i < |a| && Ahead(a[i], b[i])) ==> Specificity(a) > Specificity(b)
  {
    if a != [] {
      AheadWeighs(a[0], b[0]);
      AheadWeighs(b[0], a[0]);
      NotBehindWeighs(a[1..], b[1..]);
      if i :| 0 <= i < |a| && Ahead(a[i], b[i]) {
        if i > 0 {
          assert Ahead(a[1..][i - 1], b[1..][i - 1]);
        }
      }
    }
  }

  lemma {:induction false} FirstIsMost<T>(s: seq<T>, key: T -> nat, p: T -> bool, other: T)
    requires Sorted(s, key) && other in s && p(other)
    ensures First(s, p).Some? && key(other) <= key(First(s, p).value)
  {
    if p(s[0]) {
      var i :| 0 <= i < |s| && s[i] == other;
      assert i > 0 ==> key(s[0]) >= key(s[i]);
    } else {
      FirstIsMost(s[1..], key, p, other);
    }
  }

  lemma {:induction false} RoutesAreSorted(registrations: seq<Registration>, t: Tables, r: Route)
    requires MethodsOnce(registrations) && RegisterAll(NO_ROUTES, registrations) == t && r in t.routes
    ensures Sorted(t.routes, RouteKey()) && r.specificity == Specificity(r.segments)
  {
    hide MethodsOnce, RegisterAll, PyAddAll, Accepted, NoneRefused, Sort, Flat, Readings, NoEmptyHead, Specificity;
    RegistrationsMirror(registrations);
    var accepted := Accepted([], registrations);
    SortSorts(accepted, RouteKey());
    SortHolds(accepted, r);
    AcceptedAreGenuine([], registrations, r);
  }

  lemma ReadingWeighs(r: Route)
    requires Genuine(r)
    ensures Reading(r).specificity == Specificity(Reading(r).segments)
  {
    hide ParsePattern, ParseRule, Specificity;
    RustReads(r.rule);
  }

  lemma {:induction false} EntriesAreSorted(registrations: seq<Registration>, t: Tables, e: Entry)
    requires MethodsOnce(registrations) && RegisterAll(NO_ROUTES, registrations) == t && e in t.entries
    ensures Sorted(t.entries, EntryKey()) && e.specificity == Specificity(e.segments)
  {
    hide MethodsOnce, RegisterAll, PyAddAll, Accepted, NoneRefused, Sort, Flat, Readings, NoEmptyHead, Specificity;
    hide Genuine, Reading;
    RegistrationsMirror(registrations);
    var accepted := Accepted([], registrations);
    var table := Sort(Readings(accepted), RouteKey());
    SortSorts(Readings(accepted), RouteKey());
    FlatSorted(table);
    FlatHolds(table, e);
    var x :| x in table && e.verb in x.methods && e == EntryOf(x, e.verb);
    SortHolds(Readings(accepted), x);
    ReadingsHold(accepted, x);
    var r :| r in accepted && x == Reading(r);
    AcceptedAreGenuine([], registrations, r);
    ReadingWeighs(r);
  }

  /** Of two routes that match and list the method, Python never answers with the less exact one. */
  lemma {:induction false} MoreExactWins(registrations: seq<Registration>, t: Tables, q: Query, a: Route, b: Route)
    requires MethodsOnce(registrations) && RegisterAll(NO_ROUTES, registrations) == t
    requires a in t.routes && RouteValues(q, a).Some? && q.verb in a.methods
    requires b in t.routes && RouteValues(q, b).Some? && q.verb in b.methods
    requires MoreExact(a.segments, b.segments)
    ensures PyChoice(q, t.routes).Some? && PyChoice(q, t.routes).value.1 != b
  {
    hide MethodsOnce, RegisterAll, RouteValues, Specificity, First;
    RoutesAreSorted(registrations, t, a);
    RoutesAreSorted(registrations, t, b);
    NotBehindWeighs(a.segments, b.segments);
    FirstIsMost(t.routes, RouteKey(), Listing(q, q.verb), a);
  }

  /** Nor does Rust, of two entries for the method that match. */
  lemma {:induction false} MoreExactWinsInRust(registrations: seq<Registration>, t: Tables, q: Query, a: Entry,
                                               b: Entry)
    requires MethodsOnce(registrations) && RegisterAll(NO_ROUTES, registrations) == t
    requires a in t.entries && EntryTexts(q, a).Some? && a.verb == q.verb
    requires b in t.entries && EntryTexts(q, b).Some? && b.verb == q.verb
    requires MoreExact(a.segments, b.segments)
    ensures RustChoice(q, t.entries).Some? && RustChoice(q, t.entries).value.1 != b
  {
    hide MethodsOnce, RegisterAll, EntryTexts, Specificity, First;
    EntriesAreSorted(registrations, t, a);
    EntriesAreSorted(registrations, t, b);
    NotBehindWeighs(a.segments, b.segments);
    FirstIsMost(t.entries, EntryKey(), Naming(q, q.verb), a);
  }
}
