/**
 * `ViteManifest.entrypoint`: the explicit-stack walk over the static imports of a manifest
 * entry. The graph may have cycles, shared chunks and, for a manifest that was not
 * validated, imports of chunks it does not hold. The walk is compared with the recursive one,
 * whose post-order the page loads.
 */
module Manifest {
  import opened Wrappers
  import Sequences

  type Key = string

  datatype Chunk = Chunk(file: string, css: seq<string>, imports: seq<Key>)

  type Manifest = map<Key, Chunk>

  datatype Error = MissingChunk(key: Key)

  // ---------------------------------------------------------------------
  // The recursive walk
  // ---------------------------------------------------------------------

  /** What a walk has seen, and the chunks it has finished, in order. */
  datatype Walk = Walk(seen: set<Key>, order: seq<Key>)

  lemma Shrinks(m: Manifest, key: Key, seen: set<Key>)
    requires key in m && key !in seen
    ensures |m.Keys - (seen + {key})| < |m.Keys - seen|
  {
    assert m.Keys - seen == m.Keys - (seen + {key}) + {key};
  }

  /** Depth first: a chunk new to the walk is finished after everything it imports. */
  function Visit(m: Manifest, key: Key, seen: set<Key>): (w: Walk)
    ensures seen <= w.seen
    decreases |m.Keys - seen|, 1, 0
  {
    if key in seen || key !in m then Walk(seen, [])
    else
      Shrinks(m, key, seen);
      var inner := VisitAll(m, m[key].imports, seen + {key});
      Walk(inner.seen, inner.order + [key])
  }

  lemma ShrinksOrKeeps(m: Manifest, seen: set<Key>, more: set<Key>)
    requires seen <= more
    ensures |m.Keys - more| <= |m.Keys - seen|
  {
    Sequences.SubsetIsSmaller(m.Keys - more, m.Keys - seen);
  }

  function VisitAll(m: Manifest, keys: seq<Key>, seen: set<Key>): (w: Walk)
    ensures seen <= w.seen
    decreases |m.Keys - seen|, 2, |keys|
  {
    if keys == [] then Walk(seen, [])
    else
      var first := Visit(m, keys[0], seen);
      ShrinksOrKeeps(m, seen, first.seen);
      var rest := VisitAll(m, keys[1..], first.seen);
      Walk(rest.seen, first.order + rest.order)
  }

  /** The dependencies of an entry: the post-order of the walk that starts from its imports. */
  function PostOrder(m: Manifest, entry: Key): seq<Key>
    requires entry in m
  {
    VisitAll(m, m[entry].imports, {entry}).order
  }

  // ---------------------------------------------------------------------
  // The walk with an explicit stack
  // ---------------------------------------------------------------------

  datatype Frame = Frame(key: Key, expanded: bool)

  /** What the recursive walk makes of a stack, whose top is its last element. */
  function Unwind(m: Manifest, stack: seq<Frame>, seen: set<Key>): Walk
    decreases |stack|
  {
    if stack == [] then Walk(seen, [])
    else
      var last := |stack| - 1;
      var top, below := stack[last], stack[..last];
      if top.expanded then
        var rest := Unwind(m, below, seen);
        Walk(rest.seen, [top.key] + rest.order)
      else
        var first := Visit(m, top.key, seen);
        var rest := Unwind(m, below, first.seen);
        Walk(rest.seen, first.order + rest.order)
  }

  /** `[(key, False) for key in reversed(keys)]`. */
  function Pushed(keys: seq<Key>): (frames: seq<Frame>)
    ensures |frames| == |keys|
  {
    seq(|keys|, i requires 0 <= i < |keys| => Frame(keys[|keys| - 1 - i], false))
  }

  lemma PushedHolds(keys: seq<Key>)
    ensures forall c :: c in keys ==> Frame(c, false) in Pushed(keys)
  {
    forall c | c in keys
      ensures Frame(c, false) in Pushed(keys)
    {
      var i :| 0 <= i < |keys| && keys[i] == c;
      assert Pushed(keys)[|keys| - 1 - i] == Frame(c, false);
    }
  }

  /** Pushing the imports in reverse visits them in order before what is below them. */
  lemma {:induction false} UnwindPushed(m: Manifest, stack: seq<Frame>, keys: seq<Key>, seen: set<Key>)
    ensures var all := VisitAll(m, keys, seen);
      var rest := Unwind(m, stack, all.seen);
      Unwind(m, stack + Pushed(keys), seen) == Walk(rest.seen, all.order + rest.order)
    decreases |keys|
  {
    if keys == [] {
      Sequences.Nil(stack);
      Sequences.Nil(Unwind(m, stack, seen).order);
    } else {
      var frames, first := stack + Pushed(keys), Visit(m, keys[0], seen);
      assert frames[..|frames| - 1] == stack + Pushed(keys[1..]);
      UnwindPushed(m, stack, keys[1..], first.seen);
      var rest := VisitAll(m, keys[1..], first.seen);
      Sequences.Assoc(first.order, rest.order, Unwind(m, stack, rest.seen).order);
    }
  }

  // ---------------------------------------------------------------------
  // Reachability
  // ---------------------------------------------------------------------

  /** A nonempty chain of static imports, every link of which leaves a chunk of the manifest. */
  ghost predicate IsPath(m: Manifest, path: seq<Key>) {
    && |path| >= 2
    && forall i :: 0 <= i < |path| - 1 ==> path[i] in m && path[i + 1] in m[path[i]].imports
  }

  /** `b` is imported by `a`, directly or not. */
  ghost predicate Reaches(m: Manifest, a: Key, b: Key) {
    exists path :: IsPath(m, path) && path[0] == a && path[|path| - 1] == b
  }

  lemma ReachesDirectly(m: Manifest, a: Key, b: Key)
    requires a in m && b in m[a].imports
    ensures Reaches(m, a, b)
  {
    assert IsPath(m, [a, b]);
  }

  lemma ReachesOn(m: Manifest, a: Key, b: Key, c: Key)
    requires Reaches(m, a, b) && b in m && c in m[b].imports
    ensures Reaches(m, a, c)
  {
    var path :| IsPath(m, path) && path[0] == a && path[|path| - 1] == b;
    assert IsPath(m, path + [c]);
  }

  lemma ReachesFrom(m: Manifest, a: Key, b: Key, c: Key)
    requires a in m && b in m[a].imports && Reaches(m, b, c)
    ensures Reaches(m, a, c)
  {
    var path :| IsPath(m, path) && path[0] == b && path[|path| - 1] == c;
    var longer := [a] + path;
    forall i | 0 <= i < |longer| - 1
      ensures longer[i] in m && longer[i + 1] in m[longer[i]].imports
    {
      if i > 0 {
        assert longer[i] == path[i - 1] && longer[i + 1] == path[i];
      }
    }
    assert IsPath(m, longer);
  }

  // ---------------------------------------------------------------------
  // What the recursive walk finds, and in what order
  // ---------------------------------------------------------------------

  /** The walk finishes each chunk it newly saw exactly once, and no other. */
  ghost predicate Finishes(m: Manifest, seen: set<Key>, w: Walk) {
    && Sequences.Distinct(w.order)
    && (forall k :: k in w.order ==> k in m && k !in seen)
    && (forall k :: k in w.seen <==> k in seen || k in w.order)
  }

  lemma {:induction false} VisitFinishes(m: Manifest, key: Key, seen: set<Key>)
    ensures Finishes(m, seen, Visit(m, key, seen))
    ensures key in m ==> key in Visit(m, key, seen).seen
    decreases |m.Keys - seen|, 1, 0
  {
    if key !in seen && key in m {
      Shrinks(m, key, seen);
      VisitAllFinishes(m, m[key].imports, seen + {key});
    }
  }

  lemma FinishesAppend(m: Manifest, seen: set<Key>, first: Walk, rest: Walk)
    requires Finishes(m, seen, first) && Finishes(m, first.seen, rest)
    ensures Finishes(m, seen, Walk(rest.seen, first.order + rest.order))
  {
    forall i, j | 0 <= i < j < |first.order + rest.order|
      ensures (first.order + rest.order)[i] != (first.order + rest.order)[j]
    {
      if i < |first.order| <= j {
        assert first.order[i] in first.order && rest.order[j - |first.order|] in rest.order;
      }
    }
  }

  lemma {:induction false} VisitAllFinishes(m: Manifest, keys: seq<Key>, seen: set<Key>)
    ensures Finishes(m, seen, VisitAll(m, keys, seen))
    ensures forall k :: k in keys && k in m ==> k in VisitAll(m, keys, seen).seen
    decreases |m.Keys - seen|, 2, |keys|
  {
    if keys != [] {
      var first := Visit(m, keys[0], seen);
      VisitFinishes(m, keys[0], seen);
      ShrinksOrKeeps(m, seen, first.seen);
      VisitAllFinishes(m, keys[1..], first.seen);
      FinishesAppend(m, seen, first, VisitAll(m, keys[1..], first.seen));
      forall k | k in keys && k in m
        ensures k in VisitAll(m, keys, seen).seen
      {
        assert k == keys[0] || k in keys[1..];
      }
    }
  }

  /** Everything the walk finishes is one of the keys it starts from, or imported by one. */
  ghost predicate ReachedFrom(m: Manifest, keys: seq<Key>, k: Key) {
    exists key :: key in keys && (k == key || Reaches(m, key, k))
  }

  lemma {:induction false} VisitReaches(m: Manifest, key: Key, seen: set<Key>, k: Key)
    requires k in Visit(m, key, seen).order
    ensures k == key || Reaches(m, key, k)
    decreases |m.Keys - seen|, 1, 0
  {
    if key !in seen && key in m && k != key {
      Shrinks(m, key, seen);
      VisitAllReaches(m, m[key].imports, seen + {key}, k);
      var child :| child in m[key].imports && (k == child || Reaches(m, child, k));
      ReachesDirectly(m, key, child);
      if k != child {
        ReachesFrom(m, key, child, k);
      }
    }
  }

  lemma {:induction false} VisitAllReaches(m: Manifest, keys: seq<Key>, seen: set<Key>, k: Key)
    requires k in VisitAll(m, keys, seen).order
    ensures ReachedFrom(m, keys, k)
    decreases |m.Keys - seen|, 2, |keys|
  {
    if keys != [] {
      var first := Visit(m, keys[0], seen);
      ShrinksOrKeeps(m, seen, first.seen);
      if k in first.order {
        VisitReaches(m, keys[0], seen, k);
        assert keys[0] in keys;
      } else {
        VisitAllReaches(m, keys[1..], first.seen, k);
        var key :| key in keys[1..] && (k == key || Reaches(m, key, k));
        assert key in keys;
      }
    }
  }

  /**
   * The import `b` of the chunk at `order[i]` was seen before the walk, or stands before it, or
   * reaches it, so that the two are on a cycle.
   */
  ghost predicate InOrder(m: Manifest, seen: set<Key>, order: seq<Key>, i: nat, b: Key)
    requires i < |order|
  {
    b in seen || b in order[..i] || Reaches(m, b, order[i])
  }

  ghost predicate Ordered(m: Manifest, seen: set<Key>, order: seq<Key>) {
    forall i: nat, b :: i < |order| && order[i] in m && b in m[order[i]].imports && b in m ==>
      InOrder(m, seen, order, i, b)
  }

  lemma {:induction false} VisitOrders(m: Manifest, key: Key, seen: set<Key>)
    ensures Ordered(m, seen, Visit(m, key, seen).order)
    decreases |m.Keys - seen|, 1, 0
  {
    if key !in seen && key in m {
      Shrinks(m, key, seen);
      var w, inner := Visit(m, key, seen), VisitAll(m, m[key].imports, seen + {key});
      VisitAllOrders(m, m[key].imports, seen + {key});
      VisitAllFinishes(m, m[key].imports, seen + {key});
      forall i: nat, b | i < |w.order| && w.order[i] in m && b in m[w.order[i]].imports && b in m
        ensures InOrder(m, seen, w.order, i, b)
      {
        if i == |inner.order| {
          assert w.order[..i] == inner.order;
          if b == key {
            ReachesDirectly(m, key, key);
          }
        } else {
          assert InOrder(m, seen + {key}, inner.order, i, b);
          assert w.order[..i] == inner.order[..i];
          if b == key {
            VisitReaches(m, key, seen, w.order[i]);
          }
        }
      }
    }
  }

  lemma OrderedAppend(m: Manifest, seen: set<Key>, first: Walk, rest: seq<Key>)
    requires Finishes(m, seen, first) && Ordered(m, seen, first.order) && Ordered(m, first.seen, rest)
    ensures Ordered(m, seen, first.order + rest)
  {
    var order := first.order + rest;
    forall i: nat, b | i < |order| && order[i] in m && b in m[order[i]].imports && b in m
      ensures InOrder(m, seen, order, i, b)
    {
      if i < |first.order| {
        assert order[..i] == first.order[..i];
        assert InOrder(m, seen, first.order, i, b);
      } else {
        var j := i - |first.order|;
        assert order[..i] == first.order + rest[..j];
        assert InOrder(m, first.seen, rest, j, b);
      }
    }
  }

  lemma {:induction false} VisitAllOrders(m: Manifest, keys: seq<Key>, seen: set<Key>)
    ensures Ordered(m, seen, VisitAll(m, keys, seen).order)
    decreases |m.Keys - seen|, 2, |keys|
  {
    if keys != [] {
      var first := Visit(m, keys[0], seen);
      VisitFinishes(m, keys[0], seen);
      VisitOrders(m, keys[0], seen);
      ShrinksOrKeeps(m, seen, first.seen);
      VisitAllOrders(m, keys[1..], first.seen);
      var rest := VisitAll(m, keys[1..], first.seen);
      OrderedAppend(m, seen, first, rest.order);
    }
  }

  /** The walk misses nothing: it finishes the imports of what it finishes. */
  lemma {:induction false} VisitCloses(m: Manifest, key: Key, seen: set<Key>, k: Key, b: Key)
    requires k in Visit(m, key, seen).order && k in m && b in m[k].imports && b in m
    ensures b in Visit(m, key, seen).seen
    decreases |m.Keys - seen|, 1, 0
  {
    if key !in seen && key in m {
      Shrinks(m, key, seen);
      if k == key {
        VisitAllFinishes(m, m[key].imports, seen + {key});
      } else {
        VisitAllCloses(m, m[key].imports, seen + {key}, k, b);
      }
    }
  }

  lemma {:induction false} VisitAllCloses(m: Manifest, keys: seq<Key>, seen: set<Key>, k: Key, b: Key)
    requires k in VisitAll(m, keys, seen).order && k in m && b in m[k].imports && b in m
    ensures b in VisitAll(m, keys, seen).seen
    decreases |m.Keys - seen|, 2, |keys|
  {
    if keys != [] {
      var first := Visit(m, keys[0], seen);
      ShrinksOrKeeps(m, seen, first.seen);
      if k in first.order {
        VisitCloses(m, keys[0], seen, k, b);
      } else {
        VisitAllCloses(m, keys[1..], first.seen, k, b);
      }
    }
  }

  /** What a path from the entry leads to, the walk saw. */
  lemma {:induction false} PathIsSeen(m: Manifest, entry: Key, path: seq<Key>)
    requires entry in m && IsPath(m, path) && path[0] == entry && path[|path| - 1] in m
    ensures path[|path| - 1] in VisitAll(m, m[entry].imports, {entry}).seen
    decreases |path|
  {
    var w := VisitAll(m, m[entry].imports, {entry});
    var last := |path| - 1;
    VisitAllFinishes(m, m[entry].imports, {entry});
    if last > 1 {
      var shorter := path[..last];
      assert IsPath(m, shorter);
      PathIsSeen(m, entry, shorter);
      if path[last - 1] != entry {
        VisitAllCloses(m, m[entry].imports, {entry}, path[last - 1], path[last]);
      }
    }
  }

  /**
   * The dependency list holds every chunk the entry reaches by static imports, except the entry,
   * exactly once, and nothing else.
   */
  lemma HoldsWhatIsReachable(m: Manifest, entry: Key)
    requires entry in m
    ensures Sequences.Distinct(PostOrder(m, entry))
    ensures forall k :: k in PostOrder(m, entry) <==> k != entry && k in m && Reaches(m, entry, k)
  {
    VisitAllFinishes(m, m[entry].imports, {entry});
    forall k
      ensures k in PostOrder(m, entry) <==> k != entry && k in m && Reaches(m, entry, k)
    {
      if k in PostOrder(m, entry) {
        VisitAllReaches(m, m[entry].imports, {entry}, k);
        var child :| child in m[entry].imports && (k == child || Reaches(m, child, k));
        ReachesDirectly(m, entry, child);
        if k != child {
          ReachesFrom(m, entry, child, k);
        }
      } else if k != entry && k in m && Reaches(m, entry, k) {
        var path :| IsPath(m, path) && path[0] == entry && path[|path| - 1] == k;
        PathIsSeen(m, entry, path);
      }
    }
  }

  /**
   * An import stands before its importer unless it is the entry or the two are on a cycle; so in
   * an acyclic graph every import stands before its importer.
   */
  lemma ImportsComeFirst(m: Manifest, entry: Key, i: nat, b: Key)
    requires entry in m && i < |PostOrder(m, entry)|
    requires var a := PostOrder(m, entry)[i]; a in m && b in m[a].imports && b in m
    ensures b in PostOrder(m, entry)[..i] || Reaches(m, b, PostOrder(m, entry)[i])
  {
    VisitAllOrders(m, m[entry].imports, {entry});
    assert InOrder(m, {entry}, PostOrder(m, entry), i, b);
    if b == entry {
      HoldsWhatIsReachable(m, entry);
      assert PostOrder(m, entry)[i] in PostOrder(m, entry);
    }
  }

  lemma AcyclicImportsComeFirst(m: Manifest, entry: Key, i: nat, b: Key)
    requires entry in m && i < |PostOrder(m, entry)|
    requires var a := PostOrder(m, entry)[i]; a in m && b in m[a].imports && b in m
    requires forall k :: !Reaches(m, k, k)
    ensures b in PostOrder(m, entry)[..i]
  {
    ImportsComeFirst(m, entry, i, b);
    if Reaches(m, b, PostOrder(m, entry)[i]) {
      ReachesOn(m, b, PostOrder(m, entry)[i], b);
    }
  }

  /** What `reload` checks: every import is a chunk of the manifest. */
  predicate Validated(m: Manifest) {
    forall k | k in m :: forall c | c in m[k].imports :: c in m
  }

  /** In a validated manifest no walk meets a missing chunk. */
  lemma ValidatedMissesNothing(m: Manifest, entry: Key, k: Key)
    requires Validated(m) && Reaches(m, entry, k)
    ensures k in m
  {
    var path :| IsPath(m, path) && path[0] == entry && path[|path| - 1] == k;
    assert path[|path| - 2 + 1] in m[path[|path| - 2]].imports;
  }

  // ---------------------------------------------------------------------
  // The walk as the program does it
  // ---------------------------------------------------------------------

  /** Every import of a seen chunk is seen or still on the stack. */
  ghost predicate Covered(m: Manifest, seen: set<Key>, stack: seq<Frame>) {
    forall k, c :: k in seen && k in m && c in m[k].imports ==> c in seen || Frame(c, false) in stack
  }

  ghost predicate AllReached(m: Manifest, entry: Key, seen: set<Key>, stack: seq<Frame>) {
    && (forall k :: k in seen ==> k in m && (k == entry || Reaches(m, entry, k)))
    && (forall f :: f in stack ==> Reaches(m, entry, f.key))
  }

  /** Replacing a frame by its expanded self and its imports. */
  lemma ExpandKeeps(m: Manifest, entry: Key, seen: set<Key>, below: seq<Frame>, key: Key)
    requires key in m && Covered(m, seen, below + [Frame(key, false)])
    requires AllReached(m, entry, seen, below + [Frame(key, false)])
    ensures var stack := below + [Frame(key, true)] + Pushed(m[key].imports);
      Covered(m, seen + {key}, stack) && AllReached(m, entry, seen + {key}, stack)
  {
    var before, stack := below + [Frame(key, false)], below + [Frame(key, true)] + Pushed(m[key].imports);
    PushedHolds(m[key].imports);
    assert forall f :: f in before <==> f in below || f == Frame(key, false);
    forall f | f in stack
      ensures Reaches(m, entry, f.key)
    {
      if f !in below && f != Frame(key, true) {
        ReachesOn(m, entry, key, f.key);
      }
    }
  }

  lemma StartKeeps(m: Manifest, entry: Key)
    requires entry in m
    ensures Covered(m, {entry}, Pushed(m[entry].imports)) && AllReached(m, entry, {entry}, Pushed(m[entry].imports))
  {
    PushedHolds(m[entry].imports);
    forall f | f in Pushed(m[entry].imports)
      ensures Reaches(m, entry, f.key)
    {
      ReachesDirectly(m, entry, f.key);
    }
  }

  /** With nothing left on the stack, no path from the entry leads out of what was seen. */
  lemma {:induction false} PathStaysSeen(m: Manifest, seen: set<Key>, path: seq<Key>, i: nat)
    requires Covered(m, seen, []) && IsPath(m, path) && path[0] in seen && i < |path|
    ensures path[i] in seen
  {
    if i > 0 {
      PathStaysSeen(m, seen, path, i - 1);
    }
  }

  lemma NothingMissing(m: Manifest, entry: Key, seen: set<Key>)
    requires Covered(m, seen, []) && AllReached(m, entry, seen, []) && entry in seen
    ensures forall k :: Reaches(m, entry, k) ==> k in m
  {
    forall k | Reaches(m, entry, k)
      ensures k in m
    {
      var path :| IsPath(m, path) && path[0] == entry && path[|path| - 1] == k;
      PathStaysSeen(m, seen, path, |path| - 1);
    }
  }

  /** One turn of the loop takes from the recursive walk what it adds to the list. */
  lemma {:induction false} UnwindExpand(m: Manifest, below: seq<Frame>, key: Key, seen: set<Key>)
    requires key in m && key !in seen
    ensures Unwind(m, below + [Frame(key, false)], seen)
         == Unwind(m, below + [Frame(key, true)] + Pushed(m[key].imports), seen + {key})
  {
    var keys := m[key].imports;
    var inner := VisitAll(m, keys, seen + {key});
    UnwindPushed(m, below + [Frame(key, true)], keys, seen + {key});
    assert (below + [Frame(key, true)])[..|below|] == below;
    assert (below + [Frame(key, false)])[..|below|] == below;
    var rest := Unwind(m, below, inner.seen);
    assert inner.order + [key] + rest.order == inner.order + ([key] + rest.order);
  }

  lemma {:induction false} UnwindPop(m: Manifest, below: seq<Frame>, top: Frame, seen: set<Key>, done: seq<Key>)
    requires top.expanded || top.key in seen
    ensures done + Unwind(m, below + [top], seen).order
         == (if top.expanded then done + [top.key] else done) + Unwind(m, below, seen).order
  {
    assert (below + [top])[..|below|] == below;
    var rest := Unwind(m, below, seen).order;
    assert done + ([top.key] + rest) == done + [top.key] + rest;
    assert [] + rest == rest;
  }

  /** Every chunk the entry reaches is in the manifest. */
  ghost predicate Complete(m: Manifest, entry: Key) {
    forall k :: Reaches(m, entry, k) ==> k in m
  }

  /** What every turn of the loop keeps. */
  ghost predicate LoopOk(m: Manifest, entry: Key, seen: set<Key>, done: seq<Key>, stack: seq<Frame>)
    requires entry in m
  {
    && entry in seen
    && done + Unwind(m, stack, seen).order == PostOrder(m, entry)
    && Covered(m, seen, stack) && AllReached(m, entry, seen, stack)
  }

  lemma {:induction false} StartUnwinds(m: Manifest, entry: Key)
    requires entry in m
    ensures [] + Unwind(m, Pushed(m[entry].imports), {entry}).order == PostOrder(m, entry)
  {
    UnwindPushed(m, [], m[entry].imports, {entry});
    assert [] + Pushed(m[entry].imports) == Pushed(m[entry].imports);
  }

  lemma StartOk(m: Manifest, entry: Key)
    requires entry in m
    ensures LoopOk(m, entry, {entry}, [], Pushed(m[entry].imports))
  {
    StartKeeps(m, entry);
    StartUnwinds(m, entry);
    hide Unwind, Covered, AllReached, PostOrder;
  }

  lemma PopOk(m: Manifest, entry: Key, seen: set<Key>, done: seq<Key>, below: seq<Frame>, top: Frame)
    requires entry in m && LoopOk(m, entry, seen, done, below + [top]) && (top.expanded || top.key in seen)
    ensures LoopOk(m, entry, seen, if top.expanded then done + [top.key] else done, below)
  {
    UnwindPop(m, below, top, seen, done);
    hide Unwind, Covered, AllReached;
  }

  lemma ExpandOk(m: Manifest, entry: Key, seen: set<Key>, done: seq<Key>, below: seq<Frame>, key: Key)
    requires entry in m && LoopOk(m, entry, seen, done, below + [Frame(key, false)]) && key in m && key !in seen
    ensures LoopOk(m, entry, seen + {key}, done, below + [Frame(key, true)] + Pushed(m[key].imports))
  {
    ExpandKeeps(m, entry, seen, below, key);
    UnwindExpand(m, below, key, seen);
    hide Unwind, Covered, AllReached;
  }

  lemma DoneOk(m: Manifest, entry: Key, seen: set<Key>, done: seq<Key>)
    requires entry in m && LoopOk(m, entry, seen, done, [])
    ensures done == PostOrder(m, entry) && Complete(m, entry)
  {
    NothingMissing(m, entry, seen);
    assert done + [] == done;
  }

  /**
   * It ends on every finite graph, cyclic or not; it fails exactly when a chunk the entry reaches
   * is missing, and otherwise returns the post-order of the recursive walk.
   */
  method Entrypoint(m: Manifest, entry: Key) returns (r: Result<seq<Key>, Error>)
    ensures entry !in m ==> r == Err(MissingChunk(entry))
    ensures entry in m ==> (r.Ok? <==> Complete(m, entry))
    ensures entry in m && r.Ok? ==> r.value == PostOrder(m, entry)
    ensures entry in m && r.Err? ==> r.error.key !in m && Reaches(m, entry, r.error.key)
  {
    if entry !in m {
      return Err(MissingChunk(entry));
    }
    hide *;
    var seen, dependencies, stack := {entry}, [], Pushed(m[entry].imports);
    StartOk(m, entry);
    while stack != []
      invariant LoopOk(m, entry, seen, dependencies, stack)
      decreases |m.Keys - seen|, |stack|
    {
      var below, top := stack[..|stack| - 1], stack[|stack| - 1];
      Sequences.SnocIs(stack);
      if top.expanded || top.key in seen {
        PopOk(m, entry, seen, dependencies, below, top);
        stack := below;
        if top.expanded {
          dependencies := dependencies + [top.key];
        }
      } else {
        if top.key !in m {
          return Err(MissingChunk(top.key));
        }
        ExpandOk(m, entry, seen, dependencies, below, top.key);
        Shrinks(m, top.key, seen);
        seen, stack := seen + {top.key}, below + [Frame(top.key, true)] + Pushed(m[top.key].imports);
      }
    }
    DoneOk(m, entry, seen, dependencies);
    r := Ok(dependencies);
  }
}
