/**
 * Registering a tree of blueprints on an application: collect the tree, plan every route against
 * the tables, and only then commit. Blueprints are told apart by their `id`; a child may occur
 * many times, and the graph of children may have cycles.
 */
module Blueprints {
  import opened Wrappers
  import opened Rules
  import Sequences

  type Id = nat

  datatype Child = Child(id: Id, urlPrefix: Option<string>, name: Option<string>)

  /**
   * A route or WebSocket a blueprint declares, its methods in upper case. `otherwise` are the
   * methods `add_url_rule` falls back to when `methods` is empty, and `acceptable` says whether it
   * takes the remaining options: their names and the status code.
   */
  datatype Deferred = Deferred(rule: string, endpoint: string, methods: seq<string>, otherwise: seq<string>,
                               acceptable: bool)

  datatype Blueprint = Blueprint(name: string, urlPrefix: string, children: seq<Child>,
                                 routes: seq<Deferred>, sockets: seq<Deferred>, files: Option<string>)

  type Graph = map<Id, Blueprint>

  predicate ChildrenKnown(g: Graph, children: seq<Child>) {
    forall i :: 0 <= i < |children| ==> children[i].id in g
  }

  predicate Closed(g: Graph) {
    forall id | id in g :: ChildrenKnown(g, g[id].children)
  }

  datatype Error = BadName | Cycle | NameTaken | BadRule | EndpointTaken | PathTaken | CommitFailed

  datatype Planned = Planned(registered: string, id: Id, prefix: string)

  // ---------------------------------------------------------------------
  // The tree of registrations
  // ---------------------------------------------------------------------

  function ChildName(g: Graph, registered: string, child: Child): string
    requires child.id in g
  {
    registered + "." + (if child.name.Some? && child.name.value != "" then child.name.value else g[child.id].name)
  }

  function ChildPrefix(g: Graph, prefix: string, child: Child): string
    requires child.id in g
  {
    StripRight(prefix) + if child.urlPrefix.Some? then child.urlPrefix.value else g[child.id].urlPrefix
  }

  lemma Fewer(g: Graph, id: Id, ancestors: set<Id>)
    requires id in g && id !in ancestors
    ensures |g.Keys - (ancestors + {id})| < |g.Keys - ancestors|
  {
    assert g.Keys - ancestors == (g.Keys - (ancestors + {id})) + {id};
  }

  /** The whole tree below a blueprint, parents before children; None if an ancestor recurs. */
  ghost function Unfold(g: Graph, id: Id, registered: string, prefix: string, ancestors: set<Id>): Option<seq<Planned>>
    requires Closed(g) && id in g
    decreases |g.Keys - ancestors|, 1, 0
  {
    if id in ancestors then None
    else
      Fewer(g, id, ancestors);
      match UnfoldAll(g, g[id].children, registered, prefix, ancestors + {id})
      case None => None
      case Some(below) => Some([Planned(registered, id, StripRight(prefix))] + below)
  }

  ghost function UnfoldAll(g: Graph, children: seq<Child>, registered: string, prefix: string, ancestors: set<Id>)
    : Option<seq<Planned>>
    requires Closed(g) && ChildrenKnown(g, children)
    decreases |g.Keys - ancestors|, 2, |children|
  {
    if children == [] then Some([])
    else
      var front, child := children[..|children| - 1], children[|children| - 1];
      match UnfoldAll(g, front, registered, prefix, ancestors)
      case None => None
      case Some(before) =>
        match Unfold(g, child.id, ChildName(g, registered, child), ChildPrefix(g, prefix, child), ancestors)
        case None => None
        case Some(last) => Some(before + last)
  }

  /**
   * A planned child: named after its parent, by its option if that is given and not empty, else by its
   * own name, and below its parent's prefix, with its option's prefix or else its own.
   */
  predicate IsChild(g: Graph, parent: Planned, child: Child, p: Planned) {
    && p.id == child.id && child.id in g
    && p.registered == parent.registered + "."
         + (if child.name == None || child.name == Some("") then g[child.id].name else child.name.value)
    && IsTrimmed(p.prefix, parent.prefix
                             + match child.urlPrefix
                               case Some(prefix) => prefix
                               case None => g[child.id].urlPrefix)
  }

  ghost predicate HasParent(g: Graph, list: seq<Planned>, k: nat) {
    exists j, c :: 0 <= j < k < |list| && list[j].id in g && 0 <= c < |g[list[j].id].children|
                   && IsChild(g, list[j], g[list[j].id].children[c], list[k])
  }

  ghost predicate HasChild(g: Graph, list: seq<Planned>, j: nat, child: Child) {
    exists k :: j < k < |list| && j < |list| && IsChild(g, list[j], child, list[k])
  }

  ghost predicate ChildrenBelow(g: Graph, list: seq<Planned>, j: nat)
    requires j < |list|
  {
    list[j].id in g && forall c: nat :: c < |g[list[j].id].children| ==> HasChild(g, list, j, g[list[j].id].children[c])
  }

  /** Below every planned blueprint all its children are planned. */
  ghost predicate Complete(g: Graph, list: seq<Planned>) {
    forall j: nat :: j < |list| ==> ChildrenBelow(g, list, j)
  }

  /** The tree of a registration: its root, and below every blueprint its children and nothing else. */
  ghost predicate IsTree(g: Graph, tree: seq<Planned>, id: Id, registered: string, prefix: string) {
    && tree != [] && tree[0].id == id && tree[0].registered == registered && IsTrimmed(tree[0].prefix, prefix)
    && Complete(g, tree) && forall k: nat :: 0 < k < |tree| ==> HasParent(g, tree, k)
  }

  /** The trees of some children of one parent, one after the other. */
  ghost predicate IsForest(g: Graph, parent: Planned, children: seq<Child>, list: seq<Planned>) {
    && Complete(g, list)
    && (forall c: nat :: c < |children| ==> exists k :: 0 <= k < |list| && IsChild(g, parent, children[c], list[k]))
    && (forall k: nat :: k < |list| ==>
          HasParent(g, list, k) || exists c :: 0 <= c < |children| && IsChild(g, parent, children[c], list[k]))
  }

  lemma ShiftedParent(g: Graph, a: seq<Planned>, b: seq<Planned>, k: nat)
    ensures HasParent(g, a, k) ==> HasParent(g, a + b, k)
    ensures HasParent(g, b, k) ==> HasParent(g, a + b, |a| + k)
  {
    hide IsChild;
    if HasParent(g, a, k) {
      var j, c :| 0 <= j < k < |a| && a[j].id in g && 0 <= c < |g[a[j].id].children|
                  && IsChild(g, a[j], g[a[j].id].children[c], a[k]);
      assert (a + b)[j] == a[j] && (a + b)[k] == a[k];
      assert IsChild(g, (a + b)[j], g[(a + b)[j].id].children[c], (a + b)[k]);
    }
    if HasParent(g, b, k) {
      var j, c :| 0 <= j < k < |b| && b[j].id in g && 0 <= c < |g[b[j].id].children|
                  && IsChild(g, b[j], g[b[j].id].children[c], b[k]);
      var i := |a| + j;
      assert (a + b)[i] == b[j] && (a + b)[|a| + k] == b[k];
      assert IsChild(g, (a + b)[i], g[(a + b)[i].id].children[c], (a + b)[|a| + k]);
    }
  }

  lemma ShiftedChild(g: Graph, a: seq<Planned>, b: seq<Planned>, j: nat, child: Child)
    ensures HasChild(g, a, j, child) ==> HasChild(g, a + b, j, child)
    ensures HasChild(g, b, j, child) ==> HasChild(g, a + b, |a| + j, child)
  {
    hide IsChild;
    if HasChild(g, a, j, child) {
      var k :| j < k < |a| && IsChild(g, a[j], child, a[k]);
      assert (a + b)[j] == a[j] && (a + b)[k] == a[k];
      assert IsChild(g, (a + b)[j], child, (a + b)[k]);
    }
    if HasChild(g, b, j, child) {
      var k :| j < k < |b| && IsChild(g, b[j], child, b[k]);
      var i := |a| + j;
      assert (a + b)[i] == b[j] && (a + b)[|a| + k] == b[k];
      assert IsChild(g, (a + b)[i], child, (a + b)[|a| + k]);
    }
  }

  lemma ShiftedBelow(g: Graph, a: seq<Planned>, b: seq<Planned>, j: nat)
    ensures j < |a| && ChildrenBelow(g, a, j) ==> ChildrenBelow(g, a + b, j)
    ensures j < |b| && ChildrenBelow(g, b, j) ==> ChildrenBelow(g, a + b, |a| + j)
  {
    hide HasChild;
    if j < |a| && ChildrenBelow(g, a, j) {
      assert (a + b)[j] == a[j];
      forall c: nat | c < |g[a[j].id].children| ensures HasChild(g, a + b, j, g[a[j].id].children[c]) {
        ShiftedChild(g, a, b, j, g[a[j].id].children[c]);
      }
    }
    if j < |b| && ChildrenBelow(g, b, j) {
      assert (a + b)[|a| + j] == b[j];
      forall c: nat | c < |g[b[j].id].children| ensures HasChild(g, a + b, |a| + j, g[b[j].id].children[c]) {
        ShiftedChild(g, a, b, j, g[b[j].id].children[c]);
      }
    }
  }

  lemma CompleteAppend(g: Graph, a: seq<Planned>, b: seq<Planned>)
    requires Complete(g, a) && Complete(g, b)
    ensures Complete(g, a + b)
  {
    hide ChildrenBelow;
    forall j: nat | j < |a + b| ensures ChildrenBelow(g, a + b, j) {
      if j < |a| {
        ShiftedBelow(g, a, b, j);
      } else {
        assert ChildrenBelow(g, b, j - |a|);
        ShiftedBelow(g, a, b, j - |a|);
      }
    }
  }

  /** One more tree, that of the next child. */
  lemma ForestGrows(g: Graph, parent: Planned, children: seq<Child>, list: seq<Planned>, child: Child,
                    tree: seq<Planned>)
    requires IsForest(g, parent, children, list) && tree != [] && IsChild(g, parent, child, tree[0])
    requires Complete(g, tree) && forall k: nat :: 0 < k < |tree| ==> HasParent(g, tree, k)
    ensures IsForest(g, parent, children + [child], list + tree)
  {
    hide HasParent, IsChild;
    CompleteAppend(g, list, tree);
    hide Complete;
    var more, all := children + [child], list + tree;
    forall c: nat | c < |more| ensures exists k :: 0 <= k < |all| && IsChild(g, parent, more[c], all[k]) {
      if c < |children| {
        var k :| 0 <= k < |list| && IsChild(g, parent, children[c], list[k]);
        assert IsChild(g, parent, more[c], all[k]);
      } else {
        assert all[|list|] == tree[0] && more[c] == child;
      }
    }
    forall k: nat | k < |all|
      ensures HasParent(g, all, k) || exists c :: 0 <= c < |more| && IsChild(g, parent, more[c], all[k])
    {
      if k < |list| {
        ShiftedParent(g, list, tree, k);
        if c :| 0 <= c < |children| && IsChild(g, parent, children[c], list[k]) {
          assert IsChild(g, parent, more[c], all[k]);
        }
      } else if k > |list| {
        ShiftedParent(g, list, tree, k - |list|);
      } else {
        assert IsChild(g, parent, more[|children|], all[k]);
      }
    }
  }

  /** A root above the trees of its children. */
  lemma RootParents(g: Graph, root: Planned, list: seq<Planned>, k: nat)
    requires root.id in g && k < |list|
    requires HasParent(g, list, k)
             || exists c :: 0 <= c < |g[root.id].children| && IsChild(g, root, g[root.id].children[c], list[k])
    ensures HasParent(g, [root] + list, k + 1)
  {
    hide IsChild;
    var all := [root] + list;
    ShiftedParent(g, [root], list, k);
    if c :| 0 <= c < |g[root.id].children| && IsChild(g, root, g[root.id].children[c], list[k]) {
      assert all[0] == root && all[k + 1] == list[k];
      assert IsChild(g, all[0], g[all[0].id].children[c], all[k + 1]);
    }
  }

  lemma RootChildren(g: Graph, root: Planned, list: seq<Planned>)
    requires root.id in g && IsForest(g, root, g[root.id].children, list)
    ensures ChildrenBelow(g, [root] + list, 0)
  {
    hide IsChild, Complete, HasParent;
    var all, children := [root] + list, g[root.id].children;
    assert all[0] == root;
    forall c: nat | c < |children| ensures HasChild(g, all, 0, children[c]) {
      var k :| 0 <= k < |list| && IsChild(g, root, children[c], list[k]);
      var i := k + 1;
      assert all[i] == list[k];
      assert IsChild(g, all[0], children[c], all[i]);
    }
  }

  lemma TreeOf(g: Graph, root: Planned, list: seq<Planned>, id: Id, registered: string, prefix: string)
    requires id in g && root.id == id && root.registered == registered && IsTrimmed(root.prefix, prefix)
    requires IsForest(g, root, g[id].children, list)
    ensures IsTree(g, [root] + list, id, registered, prefix)
  {
    hide IsChild, IsTrimmed, ChildrenBelow, HasParent;
    var all := [root] + list;
    assert all[0] == root;
    RootChildren(g, root, list);
    forall j: nat | j < |all| ensures ChildrenBelow(g, all, j) {
      if j > 0 {
        assert ChildrenBelow(g, list, j - 1);
        ShiftedBelow(g, [root], list, j - 1);
      }
    }
    forall k: nat | 0 < k < |all| ensures HasParent(g, all, k) {
      RootParents(g, root, list, k - 1);
    }
  }

  lemma {:induction false} ChildIsChild(g: Graph, parent: Planned, prefix: string, child: Child, p: Planned)
    requires child.id in g && parent.prefix == StripRight(prefix) && p.id == child.id
    requires p.registered == ChildName(g, parent.registered, child)
    requires IsTrimmed(p.prefix, ChildPrefix(g, prefix, child))
    ensures IsChild(g, parent, child, p)
  {
    hide IsTrimmed, StripRight;
  }

  /** What `collect` unfolds is such a tree. */
  lemma {:induction false} UnfoldIsTree(g: Graph, id: Id, registered: string, prefix: string, ancestors: set<Id>)
    requires Closed(g) && id in g && Unfold(g, id, registered, prefix, ancestors).Some?
    ensures IsTree(g, Unfold(g, id, registered, prefix, ancestors).value, id, registered, prefix)
    decreases |g.Keys - ancestors|, 1, 0
  {
    hide IsTree, IsForest, UnfoldAll, IsTrimmed;
    Fewer(g, id, ancestors);
    var root := Planned(registered, id, StripRight(prefix));
    TrimmedIs(prefix);
    UnfoldAllIsForest(g, g[id].children, root, prefix, ancestors + {id});
    TreeOf(g, root, UnfoldAll(g, g[id].children, registered, prefix, ancestors + {id}).value, id, registered, prefix);
  }

  lemma NoForest(g: Graph, parent: Planned)
    ensures IsForest(g, parent, [], [])
  {
  }

  lemma {:induction false} UnfoldAllIsForest(g: Graph, children: seq<Child>, parent: Planned, prefix: string,
                                             ancestors: set<Id>)
    requires Closed(g) && ChildrenKnown(g, children) && parent.prefix == StripRight(prefix)
    requires UnfoldAll(g, children, parent.registered, prefix, ancestors).Some?
    ensures IsForest(g, parent, children, UnfoldAll(g, children, parent.registered, prefix, ancestors).value)
    decreases |g.Keys - ancestors|, 2, |children|
  {
    hide IsForest, Unfold;
    if children == [] {
      NoForest(g, parent);
    } else {
      var front, child := children[..|children| - 1], children[|children| - 1];
      var name, below := ChildName(g, parent.registered, child), ChildPrefix(g, prefix, child);
      UnfoldAllIsForest(g, front, parent, prefix, ancestors);
      UnfoldIsTree(g, child.id, name, below, ancestors);
      var before := UnfoldAll(g, front, parent.registered, prefix, ancestors).value;
      var tree := Unfold(g, child.id, name, below, ancestors).value;
      ChildIsChild(g, parent, prefix, child, tree[0]);
      hide ChildName, ChildPrefix, IsChild, IsTrimmed, UnfoldAll;
      ForestGrows(g, parent, front, before, child, tree);
      Sequences.SnocIs(children);
    }
  }

  predicate Edge(g: Graph, a: Id, b: Id) {
    a in g && exists i :: 0 <= i < |g[a].children| && g[a].children[i].id == b
  }

  predicate Path(g: Graph, path: seq<Id>) {
    path != [] && forall i :: 0 < i < |path| ==> Edge(g, path[i - 1], path[i])
  }

  predicate Repeats(path: seq<Id>) {
    exists i, j :: 0 <= i < j < |path| && path[i] == path[j]
  }

  ghost predicate Cyclic(g: Graph, id: Id) {
    exists path :: Path(g, path) && path[0] == id && Repeats(path)
  }

  /** Where the tree is finite, a child's part of it is. */
  lemma {:induction false} ChildUnfolds(g: Graph, children: seq<Child>, registered: string, prefix: string,
                                        ancestors: set<Id>, i: nat)
    requires Closed(g) && ChildrenKnown(g, children) && i < |children|
    requires UnfoldAll(g, children, registered, prefix, ancestors).Some?
    ensures Unfold(g, children[i].id, ChildName(g, registered, children[i]),
                   ChildPrefix(g, prefix, children[i]), ancestors).Some?
    decreases |children|
  {
    if i < |children| - 1 {
      ChildUnfolds(g, children[..|children| - 1], registered, prefix, ancestors, i);
    }
  }

  lemma {:induction false} UnfoldedPathAvoids(g: Graph, path: seq<Id>, registered: string, prefix: string,
                                        ancestors: set<Id>)
    requires Closed(g) && Path(g, path) && path[0] in g
    requires Unfold(g, path[0], registered, prefix, ancestors).Some?
    ensures !Repeats(path) && forall c | c in path :: c !in ancestors
    decreases |path|
  {
    if |path| > 1 {
      var below := path[1..];
      assert Edge(g, path[0], path[1]);
      var i :| 0 <= i < |g[path[0]].children| && g[path[0]].children[i].id == path[1];
      var child := g[path[0]].children[i];
      Fewer(g, path[0], ancestors);
      ChildUnfolds(g, g[path[0]].children, registered, prefix, ancestors + {path[0]}, i);
      assert forall k :: 0 < k < |below| ==> Edge(g, below[k - 1], below[k]) by {
        assert forall k :: 0 < k < |below| ==> below[k - 1] == path[k] && below[k] == path[k + 1];
      }
      UnfoldedPathAvoids(g, below, ChildName(g, registered, child), ChildPrefix(g, prefix, child),
                         ancestors + {path[0]});
      forall a, b | 0 <= a < b < |path| ensures path[a] != path[b] {
        assert path[b] == below[b - 1] && path[b] in below;
        assert a > 0 ==> path[a] == below[a - 1];
      }
      assert forall c | c in path :: c == path[0] || c in below;
    }
  }

  /** Where the tree is infinite, some path runs into an ancestor or into itself. */
  lemma {:induction false} CycleBelow(g: Graph, id: Id, registered: string, prefix: string, ancestors: set<Id>)
    returns (path: seq<Id>)
    requires Closed(g) && id in g && Unfold(g, id, registered, prefix, ancestors).None?
    ensures Path(g, path) && path[0] == id && (path[|path| - 1] in ancestors || Repeats(path))
    decreases |g.Keys - ancestors|, 1, 0
  {
    if id in ancestors {
      path := [id];
    } else {
      Fewer(g, id, ancestors);
      var i, below := CycleBelowAll(g, g[id].children, registered, prefix, ancestors + {id});
      path := [id] + below;
      assert Edge(g, id, below[0]);
      forall k | 0 < k < |path| ensures Edge(g, path[k - 1], path[k]) {
        if k > 1 {
          assert Edge(g, below[k - 2], below[k - 1]);
        }
      }
      if Repeats(below) {
        var a, b :| 0 <= a < b < |below| && below[a] == below[b];
        assert path[a + 1] == path[b + 1];
      } else if below[|below| - 1] == id {
        assert path[0] == path[|path| - 1];
      }
    }
  }

  lemma {:induction false} CycleBelowAll(g: Graph, children: seq<Child>, registered: string, prefix: string,
                                        ancestors: set<Id>)
    returns (i: nat, path: seq<Id>)
    requires Closed(g) && ChildrenKnown(g, children) && UnfoldAll(g, children, registered, prefix, ancestors).None?
    ensures i < |children| && Path(g, path) && path[0] == children[i].id
    ensures path[|path| - 1] in ancestors || Repeats(path)
    decreases |g.Keys - ancestors|, 2, |children|
  {
    var front, child := children[..|children| - 1], children[|children| - 1];
    if UnfoldAll(g, front, registered, prefix, ancestors).None? {
      i, path := CycleBelowAll(g, front, registered, prefix, ancestors);
    } else {
      i := |children| - 1;
      path := CycleBelow(g, child.id, ChildName(g, registered, child), ChildPrefix(g, prefix, child), ancestors);
    }
  }

  /** The tree is finite exactly when no cycle can be reached from its root. */
  lemma {:induction false} FiniteIffAcyclic(g: Graph, id: Id, registered: string, prefix: string)
    requires Closed(g) && id in g
    ensures Unfold(g, id, registered, prefix, {}).Some? <==> !Cyclic(g, id)
  {
    hide Repeats, Unfold;
    if Unfold(g, id, registered, prefix, {}).None? {
      var path := CycleBelow(g, id, registered, prefix, {});
    } else if Cyclic(g, id) {
      var path :| Path(g, path) && path[0] == id && Repeats(path);
      UnfoldedPathAvoids(g, path, registered, prefix, {});
      assert false;
    }
  }

  // ---------------------------------------------------------------------
  // Collecting
  // ---------------------------------------------------------------------

  /** No name is taken, and none is planned twice. */
  predicate NamesFree(taken: set<string>, planned: seq<Planned>) {
    && (forall i :: 0 <= i < |planned| ==> planned[i].registered !in taken)
    && (forall i, j :: 0 <= i < j < |planned| ==> planned[i].registered != planned[j].registered)
  }

  /** Nothing stands in the way of adding the tree `more` to a plan. */
  ghost predicate Collects(taken: set<string>, planned: seq<Planned>, more: Option<seq<Planned>>) {
    more.Some? && NamesFree(taken, planned + more.value)
  }

  lemma PrefixFree(taken: set<string>, a: seq<Planned>, b: seq<Planned>)
    requires NamesFree(taken, a + b)
    ensures NamesFree(taken, a)
  {
    assert forall i :: 0 <= i < |a| ==> (a + b)[i] == a[i];
  }

  /** If the first children cannot be collected, neither can all. */
  lemma {:induction false} FrontCollects(g: Graph, children: seq<Child>, n: nat, registered: string, prefix: string,
                                         ancestors: set<Id>, taken: set<string>, planned: seq<Planned>)
    requires Closed(g) && ChildrenKnown(g, children) && n <= |children|
    requires Collects(taken, planned, UnfoldAll(g, children, registered, prefix, ancestors))
    ensures Collects(taken, planned, UnfoldAll(g, children[..n], registered, prefix, ancestors))
    decreases |children|
  {
    hide NamesFree;
    if n < |children| {
      var front, child := children[..|children| - 1], children[|children| - 1];
      var before := UnfoldAll(g, front, registered, prefix, ancestors).value;
      var last := Unfold(g, child.id, ChildName(g, registered, child), ChildPrefix(g, prefix, child), ancestors).value;
      assert planned + (before + last) == (planned + before) + last;
      PrefixFree(taken, planned + before, last);
      FrontCollects(g, front, n, registered, prefix, ancestors, taken, planned);
      assert front[..n] == children[..n];
    } else {
      assert children[..n] == children;
    }
  }

  lemma {:induction false} OneMoreChild(g: Graph, children: seq<Child>, i: nat, registered: string,
                                        prefix: string, ancestors: set<Id>)
    requires Closed(g) && ChildrenKnown(g, children) && i < |children|
    ensures UnfoldAll(g, children[..i + 1], registered, prefix, ancestors) ==
      var before := UnfoldAll(g, children[..i], registered, prefix, ancestors);
      var last := Unfold(g, children[i].id, ChildName(g, registered, children[i]),
                         ChildPrefix(g, prefix, children[i]), ancestors);
      if before.None? || last.None? then None else Some(before.value + last.value)
  {
    var front := children[..i + 1];
    assert front[..|front| - 1] == children[..i] && front[|front| - 1] == children[i];
  }

  /** What `collect` answers: the longer plan, or the reason there is none. */
  ghost predicate Collected(taken: set<string>, planned: seq<Planned>, more: Option<seq<Planned>>,
                            r: Result<seq<Planned>, Error>) {
    match r
    case Ok(plan) => Collects(taken, planned, more) && plan == planned + more.value
    case Err(e) => !Collects(taken, planned, more) && (e == NameTaken || (e == Cycle && more.None?))
  }

  method NameIsFree(taken: set<string>, planned: seq<Planned>, self: Planned) returns (free: bool)
    requires NamesFree(taken, planned)
    ensures free <==> NamesFree(taken, planned + [self])
  {
    free := self.registered !in taken && forall i | 0 <= i < |planned| :: planned[i].registered != self.registered;
    if !free && self.registered !in taken {
      ghost var i :| 0 <= i < |planned| && planned[i].registered == self.registered;
      assert (planned + [self])[i].registered == (planned + [self])[|planned|].registered;
    } else if !free {
      assert (planned + [self])[|planned|].registered in taken;
    }
  }

  /** `collect`, which raises at the first ancestor or name it meets again. */
  method Collect(g: Graph, id: Id, registered: string, prefix: string, ancestors: set<Id>,
                 taken: set<string>, planned: seq<Planned>) returns (r: Result<seq<Planned>, Error>)
    requires Closed(g) && id in g && NamesFree(taken, planned)
    ensures Collected(taken, planned, Unfold(g, id, registered, prefix, ancestors), r)
    decreases |g.Keys - ancestors|, 1, 0
  {
    hide UnfoldAll, NamesFree, ChildName, ChildPrefix;
    if id in ancestors {
      return Err(Cycle);
    }
    var self := Planned(registered, id, StripRight(prefix));
    var named := NameIsFree(taken, planned, self);
    ghost var below := UnfoldAll(g, g[id].children, registered, prefix, ancestors + {id});
    Fewer(g, id, ancestors);
    if below.Some? {
      assert planned + ([self] + below.value) == (planned + [self]) + below.value;
    }
    if !named {
      if below.Some? && NamesFree(taken, (planned + [self]) + below.value) {
        PrefixFree(taken, planned + [self], below.value);
        assert false;
      }
      return Err(NameTaken);
    }
    r := CollectAll(g, g[id].children, registered, prefix, ancestors + {id}, taken, planned + [self]);
  }

  lemma {:induction false} FrontUnfolds(g: Graph, children: seq<Child>, n: nat, registered: string,
                                        prefix: string, ancestors: set<Id>)
    requires Closed(g) && ChildrenKnown(g, children) && n <= |children|
    requires UnfoldAll(g, children, registered, prefix, ancestors).Some?
    ensures UnfoldAll(g, children[..n], registered, prefix, ancestors).Some?
    decreases |children|
  {
    if n < |children| {
      FrontUnfolds(g, children[..|children| - 1], n, registered, prefix, ancestors);
      assert children[..|children| - 1][..n] == children[..n];
    } else {
      assert children[..n] == children;
    }
  }

  lemma {:induction false} WholeFails(g: Graph, children: seq<Child>, n: nat, registered: string,
                                      prefix: string, ancestors: set<Id>,
                   taken: set<string>, planned: seq<Planned>)
    requires Closed(g) && ChildrenKnown(g, children) && n <= |children|
    requires !Collects(taken, planned, UnfoldAll(g, children[..n], registered, prefix, ancestors))
    ensures !Collects(taken, planned, UnfoldAll(g, children, registered, prefix, ancestors))
    ensures UnfoldAll(g, children[..n], registered, prefix, ancestors).None? ==>
      UnfoldAll(g, children, registered, prefix, ancestors).None?
  {
    if UnfoldAll(g, children, registered, prefix, ancestors).Some? {
      FrontUnfolds(g, children, n, registered, prefix, ancestors);
      if Collects(taken, planned, UnfoldAll(g, children, registered, prefix, ancestors)) {
        FrontCollects(g, children, n, registered, prefix, ancestors, taken, planned);
        assert false;
      }
    }
  }

  method CollectAll(g: Graph, children: seq<Child>, registered: string, prefix: string, ancestors: set<Id>,
                    taken: set<string>, planned: seq<Planned>) returns (r: Result<seq<Planned>, Error>)
    requires Closed(g) && ChildrenKnown(g, children) && NamesFree(taken, planned)
    ensures Collected(taken, planned, UnfoldAll(g, children, registered, prefix, ancestors), r)
    decreases |g.Keys - ancestors|, 2, |children|
  {
    hide Unfold, NamesFree, Closed, ChildName, ChildPrefix;
    var plan := planned;
    assert planned + [] == planned;
    for i := 0 to |children|
      invariant NamesFree(taken, plan)
      invariant UnfoldAll(g, children[..i], registered, prefix, ancestors).Some?
      invariant plan == planned + UnfoldAll(g, children[..i], registered, prefix, ancestors).value
    {
      hide UnfoldAll;
      var child := children[i];
      var more := Collect(g, child.id, ChildName(g, registered, child), ChildPrefix(g, prefix, child),
                          ancestors, taken, plan);
      OneMoreChild(g, children, i, registered, prefix, ancestors);
      ghost var before := UnfoldAll(g, children[..i], registered, prefix, ancestors).value;
      ghost var last := Unfold(g, child.id, ChildName(g, registered, child), ChildPrefix(g, prefix, child), ancestors);
      if last.Some? {
        assert planned + (before + last.value) == (planned + before) + last.value;
      }
      if more.Err? {
        WholeFails(g, children, i + 1, registered, prefix, ancestors, taken, planned);
        return Err(more.error);
      }
      plan := more.value;
    }
    assert children[..|children|] == children;
    r := Ok(plan);
  }

  // ---------------------------------------------------------------------
  // Planning
  // ---------------------------------------------------------------------

  datatype Candidate = Candidate(rule: string, endpoint: string, methods: seq<string>, otherwise: seq<string>,
                                 websocket: bool, acceptable: bool)

  datatype Http = Http(rule: string, methods: set<string>)

  /** The endpoint dictionaries: HTTP routes and WebSocket rules. */
  datatype Tables = Tables(http: map<string, Http>, sockets: map<string, string>)

  function DeclaredBy(b: Blueprint): seq<(Deferred, bool)> {
    seq(|b.routes|, i requires 0 <= i < |b.routes| => (b.routes[i], false))
    + (if b.files.None? then []
       else [(Deferred(StripRight(b.files.value) + "/<path:filename>", "static", ["GET"], ["GET"], true), false)])
    + seq(|b.sockets|, i requires 0 <= i < |b.sockets| =>
        (b.sockets[i].(methods := ["WEBSOCKET"]), true))
  }

  function CandidateOf(p: Planned, declared: (Deferred, bool)): Candidate {
    Candidate(p.prefix + declared.0.rule, p.registered + "." + declared.0.endpoint, declared.0.methods,
              declared.0.otherwise, declared.1, declared.0.acceptable)
  }

  /** Every route and WebSocket of a plan, in the order they are looked at, their rules not normalized yet. */
  function Candidates(g: Graph, planned: seq<Planned>): seq<Candidate> {
    if planned == [] then []
    else
      var p := planned[0];
      var declared := if p.id in g then DeclaredBy(g[p.id]) else [];
      seq(|declared|, i requires 0 <= i < |declared| => CandidateOf(p, declared[i])) + Candidates(g, planned[1..])
  }

  predicate Shares(a: set<string>, b: seq<string>) {
    exists i :: 0 <= i < |b| && b[i] in a
  }

  function MethodSet(methods: seq<string>): set<string> {
    set m | m in methods
  }

  /** Two candidates of one normal rule that share a method, or two WebSockets of one rule. */
  predicate Clash(a: Candidate, b: Candidate) {
    && a.websocket == b.websocket && NormalizeRule(a.rule) == NormalizeRule(b.rule)
    && (a.websocket || Shares(MethodSet(a.methods), b.methods))
  }

  /** A candidate's path is registered already. */
  predicate PathTakenBy(t: Tables, c: Candidate) {
    if c.websocket then NormalizeRule(c.rule) in t.sockets.Values
    else exists e | e in t.http :: t.http[e].rule == NormalizeRule(c.rule) && Shares(t.http[e].methods, c.methods)
  }

  predicate Paths(t: Tables, cs: seq<Candidate>) {
    && (forall i :: 0 <= i < |cs| ==> !PathTakenBy(t, cs[i]))
    && (forall i, j :: 0 <= i < j < |cs| ==> !Clash(cs[i], cs[j]))
  }

  predicate Endpoints(t: Tables, cs: seq<Candidate>) {
    && (forall i :: 0 <= i < |cs| ==> cs[i].endpoint !in t.http && cs[i].endpoint !in t.sockets)
    && (forall i, j :: 0 <= i < j < |cs| ==> cs[i].endpoint != cs[j].endpoint)
  }

  /** What planning checks before anything is committed. */
  predicate Plans(t: Tables, cs: seq<Candidate>) {
    && (forall i :: 0 <= i < |cs| ==>
          ParseRule(cs[i].rule).Some? && (cs[i].websocket || Sequences.Distinct(cs[i].methods)))
    && Endpoints(t, cs) && Paths(t, cs)
  }

  /** The sets the planning loop keeps: what the tables and the candidates so far use. */
  ghost predicate Used(t: Tables, cs: seq<Candidate>, endpoints: set<string>, pairs: set<(string, string)>,
                       rules: set<string>) {
    && (forall e :: e in endpoints <==> e in t.http || e in t.sockets || exists c :: c in cs && c.endpoint == e)
    && (forall r, m :: (r, m) in pairs <==>
          || (exists e :: e in t.http && t.http[e].rule == r && m in t.http[e].methods)
          || (exists c :: c in cs && !c.websocket && NormalizeRule(c.rule) == r && m in c.methods))
    && (forall r :: r in rules <==>
          r in t.sockets.Values || exists c :: c in cs && c.websocket && NormalizeRule(c.rule) == r)
  }

  /** The candidate passes every check against the tables and the candidates before it. */
  predicate Passes(t: Tables, cs: seq<Candidate>, c: Candidate) {
    && ParseRule(c.rule).Some? && (c.websocket || Sequences.Distinct(c.methods))
    && c.endpoint !in t.http && c.endpoint !in t.sockets && (forall b | b in cs :: b.endpoint != c.endpoint)
    && !PathTakenBy(t, c) && (forall b | b in cs :: !Clash(b, c))
  }

  lemma PlansOneMore(t: Tables, cs: seq<Candidate>, c: Candidate)
    ensures Plans(t, cs + [c]) <==> Plans(t, cs) && Passes(t, cs, c)
  {
    hide ParseRule, Sequences.Distinct, PathTakenBy, Clash;
    var more := cs + [c];
    if Plans(t, more) {
      assert forall i :: 0 <= i < |cs| ==> more[i] == cs[i];
      assert more[|cs|] == c;
    }
    if Plans(t, cs) && Passes(t, cs, c) {
      assert forall i :: 0 <= i < |cs| ==> cs[i] in cs;
    }
  }

  lemma {:induction false} FrontPlans(t: Tables, cs: seq<Candidate>, n: nat)
    requires n <= |cs| && Plans(t, cs)
    ensures Plans(t, cs[..n])
    decreases |cs|
  {
    hide Plans, Passes;
    if n < |cs| {
      var front, last := cs[..|cs| - 1], cs[|cs| - 1];
      assert cs == front + [last];
      PlansOneMore(t, front, last);
      FrontPlans(t, front, n);
      assert front[..n] == cs[..n];
    } else {
      assert cs[..n] == cs;
    }
  }

  /** Claim the pairs of a rule and methods, unless one is taken or repeated. */
  method ClaimPairs(rule: string, methods: seq<string>, pairs: set<(string, string)>)
    returns (ok: bool, claimed: set<(string, string)>)
    ensures ok <==> Sequences.Distinct(methods) && forall i :: 0 <= i < |methods| ==> (rule, methods[i]) !in pairs
    ensures ok ==> forall r, m :: (r, m) in claimed <==> (r, m) in pairs || (r == rule && m in methods)
  {
    claimed := pairs;
    for i := 0 to |methods|
      invariant Sequences.Distinct(methods[..i]) && forall j :: 0 <= j < i ==> (rule, methods[j]) !in pairs
      invariant forall r, m :: (r, m) in claimed <==> (r, m) in pairs || (r == rule && m in methods[..i])
    {
      if (rule, methods[i]) in claimed {
        return false, claimed;
      }
      claimed := claimed + {(rule, methods[i])};
      assert methods[..i + 1] == methods[..i] + [methods[i]];
      assert forall j :: 0 <= j < i ==> methods[..i][j] in methods[..i];
    }
    assert methods[..|methods|] == methods;
    ok := true;
  }

  lemma ClaimDecides(t: Tables, cs: seq<Candidate>, c: Candidate, endpoints: set<string>,
                     pairs: set<(string, string)>, rules: set<string>)
    requires Used(t, cs, endpoints, pairs, rules)
    ensures c.endpoint in endpoints <==>
      c.endpoint in t.http || c.endpoint in t.sockets || exists b :: b in cs && b.endpoint == c.endpoint
    ensures c.websocket ==>
      (NormalizeRule(c.rule) in rules <==> PathTakenBy(t, c) || exists b :: b in cs && Clash(b, c))
    ensures !c.websocket ==>
      ((exists i :: 0 <= i < |c.methods| && (NormalizeRule(c.rule), c.methods[i]) in pairs)
       <==> PathTakenBy(t, c) || exists b :: b in cs && Clash(b, c))
  {
    hide NormalizeRule;
    if !c.websocket {
      var rule := NormalizeRule(c.rule);
      if i :| 0 <= i < |c.methods| && (rule, c.methods[i]) in pairs {
        var m := c.methods[i];
        if b :| b in cs && !b.websocket && NormalizeRule(b.rule) == rule && m in b.methods {
          assert c.methods[i] in MethodSet(b.methods);
          assert Clash(b, c);
        }
      }
      if b :| b in cs && Clash(b, c) {
        var i :| 0 <= i < |c.methods| && c.methods[i] in MethodSet(b.methods);
        assert (rule, c.methods[i]) in pairs;
      }
      if PathTakenBy(t, c) {
        var e :| e in t.http && t.http[e].rule == rule && Shares(t.http[e].methods, c.methods);
        var i :| 0 <= i < |c.methods| && c.methods[i] in t.http[e].methods;
        assert (rule, c.methods[i]) in pairs;
      }
    }
  }

  lemma UsedOneMore(t: Tables, cs: seq<Candidate>, c: Candidate, endpoints: set<string>, pairs: set<(string, string)>,
                    rules: set<string>, claimed: set<(string, string)>)
    requires Used(t, cs, endpoints, pairs, rules)
    requires c.websocket ==> claimed == pairs
    requires !c.websocket ==>
      forall r, m :: (r, m) in claimed <==> (r, m) in pairs || (r == NormalizeRule(c.rule) && m in c.methods)
    ensures Used(t, cs + [c], endpoints + {c.endpoint}, claimed,
                 if c.websocket then rules + {NormalizeRule(c.rule)} else rules)
  {
    hide NormalizeRule;
    assert forall b :: b in cs + [c] <==> b in cs || b == c;
  }

  lemma StartUsed(t: Tables, endpoints: set<string>, pairs: set<(string, string)>, rules: set<string>)
    requires endpoints == t.http.Keys + t.sockets.Keys && rules == t.sockets.Values
    requires pairs == set e, m | e in t.http && m in t.http[e].methods :: (t.http[e].rule, m)
    ensures Used(t, [], endpoints, pairs, rules) && Plans(t, [])
  {
  }

  /** The planning loop: it passes exactly the plans that break no rule, and changes no table. */
  method Plan(t: Tables, cs: seq<Candidate>) returns (error: Option<Error>)
    ensures error.None? <==> Plans(t, cs)
    ensures error.Some? ==> error.value in {BadRule, EndpointTaken, PathTaken}
  {
    hide Used, Plans, Clash, PathTakenBy, NormalizeRule, ParseRule, Sequences.Distinct;
    var endpoints, rules := t.http.Keys + t.sockets.Keys, t.sockets.Values;
    var pairs := set e, m | e in t.http && m in t.http[e].methods :: (t.http[e].rule, m);
    StartUsed(t, endpoints, pairs, rules);
    for i := 0 to |cs|
      invariant Plans(t, cs[..i]) && Used(t, cs[..i], endpoints, pairs, rules)
    {
      var c := cs[i];
      ghost var seen := cs[..i];
      ClaimDecides(t, seen, c, endpoints, pairs, rules);
      PlansOneMore(t, seen, c);
      assert cs[..i + 1] == seen + [c];
      if Plans(t, cs) {
        FrontPlans(t, cs, i + 1);
      }
      if ParseRule(c.rule).None? {
        return Some(BadRule);
      }
      if c.endpoint in endpoints {
        return Some(EndpointTaken);
      }
      var claimed := pairs;
      if c.websocket {
        if NormalizeRule(c.rule) in rules {
          return Some(PathTaken);
        }
      } else {
        var ok;
        ok, claimed := ClaimPairs(NormalizeRule(c.rule), c.methods, pairs);
        if !ok {
          return Some(PathTaken);
        }
      }
      UsedOneMore(t, seen, c, endpoints, pairs, rules, claimed);
      endpoints, pairs := endpoints + {c.endpoint}, claimed;
      if c.websocket {
        rules := rules + {NormalizeRule(c.rule)};
      }
    }
    assert cs[..|cs|] == cs;
    error := None;
  }

  // ---------------------------------------------------------------------
  // Committing
  // ---------------------------------------------------------------------

  /** The methods `add_url_rule` uses. */
  function Effective(c: Candidate): Candidate {
    if !c.websocket && c.methods == [] then c.(methods := c.otherwise) else c
  }

  function AllEffective(cs: seq<Candidate>): seq<Candidate> {
    seq(|cs|, i requires 0 <= i < |cs| => Effective(cs[i]))
  }

  /** Its options are taken, and an HTTP route has methods. */
  predicate Acceptable(c: Candidate) {
    c.acceptable && (c.websocket || c.methods != [])
  }

  /** `add_url_rule` or `websocket` with its own checks; None where it raises. */
  function CommitOne(t: Tables, c: Candidate): Option<Tables> {
    if !Acceptable(c) || ParseRule(c.rule).None? || PathTakenBy(t, c) then None
    else if c.websocket then
      if c.endpoint in t.sockets then None
      else Some(t.(sockets := t.sockets[c.endpoint := NormalizeRule(c.rule)]))
    else if c.endpoint in t.http then None
    else Some(t.(http := t.http[c.endpoint := Http(NormalizeRule(c.rule), MethodSet(c.methods))]))
  }

  /** Committing one by one, up to the first that raises. */
  function CommitAll(t: Tables, cs: seq<Candidate>): (Tables, bool)
    decreases |cs|
  {
    if cs == [] then (t, true)
    else
      match CommitOne(t, Effective(cs[0]))
      case None => (t, false)
      case Some(next) => CommitAll(next, cs[1..])
  }

  predicate AllAcceptable(cs: seq<Candidate>) {
    forall i :: 0 <= i < |cs| ==> Acceptable(Effective(cs[i]))
  }

  predicate AllParse(cs: seq<Candidate>) {
    forall i :: 0 <= i < |cs| ==> ParseRule(cs[i].rule).Some?
  }

  /** Within one table, no two routes share a rule and a method, and no two WebSockets a rule. */
  predicate Unique(t: Tables) {
    && (forall a, b | a in t.http && b in t.http && a != b ::
          t.http[a].rule == t.http[b].rule ==> t.http[a].methods !! t.http[b].methods)
    && (forall a, b | a in t.sockets && b in t.sockets && a != b :: t.sockets[a] != t.sockets[b])
  }

  lemma CommitKeepsUnique(t: Tables, c: Candidate)
    requires Unique(t) && CommitOne(t, c).Some?
    ensures Unique(CommitOne(t, c).value)
  {
    hide NormalizeRule, ParseRule;
    if !c.websocket {
      forall a | a in t.http && t.http[a].rule == NormalizeRule(c.rule)
        ensures t.http[a].methods !! MethodSet(c.methods)
      {
        forall m | m in c.methods ensures m !in t.http[a].methods {
          var i :| 0 <= i < |c.methods| && c.methods[i] == m;
          assert !Shares(t.http[a].methods, c.methods);
        }
      }
    } else {
      forall a | a in t.sockets ensures t.sockets[a] != NormalizeRule(c.rule) {
        assert t.sockets[a] in t.sockets.Values;
      }
    }
  }

  lemma {:induction false} CommitAllKeepsUnique(t: Tables, cs: seq<Candidate>)
    requires Unique(t)
    ensures Unique(CommitAll(t, cs).0)
    decreases |cs|
  {
    hide Unique, CommitOne;
    if cs != [] {
      var next := CommitOne(t, Effective(cs[0]));
      if next.Some? {
        CommitKeepsUnique(t, Effective(cs[0]));
        CommitAllKeepsUnique(next.value, cs[1..]);
      }
    }
  }

  lemma TakenAfter(t: Tables, c: Candidate, other: Candidate)
    requires CommitOne(t, c).Some?
    ensures PathTakenBy(CommitOne(t, c).value, other) <==> PathTakenBy(t, other) || Clash(c, other)
  {
    hide NormalizeRule, ParseRule, Shares, MethodSet;
    var next := CommitOne(t, c).value;
    if c.websocket {
      assert next.sockets.Values == t.sockets.Values + {NormalizeRule(c.rule)} by {
        assert next.sockets[c.endpoint] == NormalizeRule(c.rule);
        forall r | r in t.sockets.Values ensures r in next.sockets.Values {
          var e :| e in t.sockets && t.sockets[e] == r;
          assert next.sockets[e] == r;
        }
      }
    } else if !other.websocket {
      assert forall e :: e in t.http ==> e in next.http && next.http[e] == t.http[e];
      assert next.http[c.endpoint] == Http(NormalizeRule(c.rule), MethodSet(c.methods));
      assert forall e :: e in next.http ==> e == c.endpoint || e in t.http;
    }
  }

  lemma NotTaken(t: Tables, c: Candidate)
    requires CommitOne(t, c).Some?
    ensures !PathTakenBy(t, c)
  {
  }

  /** With one candidate committed, the rest fits as it fitted beside it. */
  lemma PathsAfter(t: Tables, cs: seq<Candidate>)
    requires cs != [] && CommitOne(t, cs[0]).Some?
    ensures Paths(t, cs) <==> Paths(CommitOne(t, cs[0]).value, cs[1..])
  {
    hide CommitOne, PathTakenBy, Clash;
    var next := CommitOne(t, cs[0]).value;
    forall i | 1 <= i < |cs| ensures PathTakenBy(next, cs[i]) <==> PathTakenBy(t, cs[i]) || Clash(cs[0], cs[i]) {
      TakenAfter(t, cs[0], cs[i]);
    }
    NotTaken(t, cs[0]);
    assert forall i :: 1 <= i < |cs| ==> cs[i] == cs[1..][i - 1];
    assert forall i :: 0 <= i < |cs| - 1 ==> cs[1..][i] == cs[i + 1];
  }

  lemma CommitOneDecides(t: Tables, cs: seq<Candidate>)
    requires cs != [] && AllParse(cs) && Endpoints(t, cs)
    ensures var c := Effective(cs[0]);
      && (CommitOne(t, c).Some? <==> Acceptable(c) && !PathTakenBy(t, c))
      && (CommitOne(t, c).Some? ==> Endpoints(CommitOne(t, c).value, cs[1..]) && AllParse(cs[1..]))
  {
    hide PathTakenBy, ParseRule, NormalizeRule;
    assert cs[0].endpoint !in t.http;
    assert forall i :: 0 <= i < |cs| - 1 ==> cs[1..][i] == cs[i + 1];
  }

  /**
   * Committing a plan succeeds exactly when `add_url_rule` takes every route's options and the
   * methods it falls back to clash with nothing.
   */
  lemma {:induction false} CommitSucceeds(t: Tables, cs: seq<Candidate>)
    requires AllParse(cs) && Endpoints(t, cs)
    ensures CommitAll(t, cs).1 <==> AllAcceptable(cs) && Paths(t, AllEffective(cs))
    decreases |cs|
  {
    hide AllParse, Endpoints, CommitOne, PathTakenBy, Clash;
    if cs != [] {
      var c, effective := Effective(cs[0]), AllEffective(cs);
      CommitOneDecides(t, cs);
      assert effective[0] == c && effective[1..] == AllEffective(cs[1..]);
      assert forall i :: 1 <= i < |cs| ==> cs[i] == cs[1..][i - 1];
      assert AllAcceptable(cs) <==> Acceptable(c) && AllAcceptable(cs[1..]);
      if CommitOne(t, c).Some? {
        PathsAfter(t, effective);
        CommitSucceeds(CommitOne(t, c).value, cs[1..]);
      }
    }
  }

  /** When every route names its methods, only the remaining options can make a commit fail. */
  lemma {:induction false} PlannedCommits(t: Tables, cs: seq<Candidate>)
    requires Plans(t, cs) && forall i :: 0 <= i < |cs| ==> cs[i].methods != []
    ensures CommitAll(t, cs).1 <==> forall i :: 0 <= i < |cs| ==> cs[i].acceptable
  {
    hide CommitAll, Endpoints, Paths;
    assert AllEffective(cs) == cs;
    CommitSucceeds(t, cs);
  }

  function EndpointsOf(cs: seq<Candidate>, websocket: bool): set<string> {
    set i | 0 <= i < |cs| && cs[i].websocket == websocket :: cs[i].endpoint
  }

  lemma NoEndpoints()
    ensures EndpointsOf([], false) == {} && EndpointsOf([], true) == {}
  {
  }

  predicate Holds(t: Tables, c: Candidate) {
    if c.websocket then c.endpoint in t.sockets && t.sockets[c.endpoint] == NormalizeRule(c.rule)
    else c.endpoint in t.http && t.http[c.endpoint] == Http(NormalizeRule(c.rule), MethodSet(Effective(c).methods))
  }

  lemma OneAdded(t: Tables, cs: seq<Candidate>)
    requires cs != [] && CommitOne(t, Effective(cs[0])).Some? && Endpoints(t, cs)
    ensures var c, rest, next := cs[0], cs[1..], CommitOne(t, Effective(cs[0])).value;
      && Holds(next, c) && Endpoints(next, rest)
      && next.http.Keys + EndpointsOf(rest, false) == t.http.Keys + EndpointsOf(cs, false)
      && next.sockets.Keys + EndpointsOf(rest, true) == t.sockets.Keys + EndpointsOf(cs, true)
      && (forall e :: e in t.http ==> e in next.http && next.http[e] == t.http[e])
      && (forall e :: e in t.sockets ==> e in next.sockets && next.sockets[e] == t.sockets[e])
  {
    hide NormalizeRule, ParseRule, PathTakenBy, MethodSet;
    var c, rest, next := cs[0], cs[1..], CommitOne(t, Effective(cs[0])).value;
    assert c.endpoint !in t.http && c.endpoint !in t.sockets;
    assert next.http.Keys == t.http.Keys + (if c.websocket then {} else {c.endpoint});
    assert next.sockets.Keys == t.sockets.Keys + (if c.websocket then {c.endpoint} else {});
    assert forall i :: 0 <= i < |rest| ==> rest[i] == cs[i + 1];
  }

  lemma StillHolds(a: Tables, b: Tables, c: Candidate)
    requires Holds(a, c)
    requires forall e :: e in a.http ==> e in b.http && b.http[e] == a.http[e]
    requires forall e :: e in a.sockets ==> e in b.sockets && b.sockets[e] == a.sockets[e]
    ensures Holds(b, c)
  {
  }

  /** A committed table holds what it held and every candidate, under its endpoint, and nothing else. */
  lemma {:induction false} CommitAdds(t: Tables, cs: seq<Candidate>)
    requires CommitAll(t, cs).1 && Endpoints(t, cs)
    ensures var after := CommitAll(t, cs).0;
      && after.http.Keys == t.http.Keys + EndpointsOf(cs, false)
      && after.sockets.Keys == t.sockets.Keys + EndpointsOf(cs, true)
      && (forall e :: e in t.http ==> after.http[e] == t.http[e])
      && (forall e :: e in t.sockets ==> after.sockets[e] == t.sockets[e])
      && (forall i :: 0 <= i < |cs| ==> Holds(after, cs[i]))
    decreases |cs|
  {
    hide CommitOne, Effective, Holds, Endpoints, EndpointsOf;
    if cs == [] {
      NoEndpoints();
    } else {
      var c, rest := cs[0], cs[1..];
      var next := CommitOne(t, Effective(c)).value;
      OneAdded(t, cs);
      CommitAdds(next, rest);
      var after := CommitAll(next, rest).0;
      StillHolds(next, after, c);
      forall i | 0 <= i < |cs| ensures Holds(after, cs[i]) {
        assert i > 0 ==> cs[i] == rest[i - 1];
      }
    }
  }

  // ---------------------------------------------------------------------
  // Naming, and merging the application hooks
  // ---------------------------------------------------------------------

  function NameAll(blueprints: map<string, Id>, planned: seq<Planned>): map<string, Id> {
    if planned == [] then blueprints
    else
      var last := planned[|planned| - 1];
      NameAll(blueprints, planned[..|planned| - 1])[last.registered := last.id]
  }

  /** The hooks of each registered blueprint were merged, once. */
  ghost predicate Merged(blueprints: map<string, Id>, merged: seq<Id>) {
    && (forall id :: id in merged <==> id in blueprints.Values)
    && (forall i, j :: 0 <= i < j < |merged| ==> merged[i] != merged[j])
  }

  lemma MergedOneMore(blueprints: map<string, Id>, merged: seq<Id>, registered: string, id: Id)
    requires Merged(blueprints, merged) && registered !in blueprints
    ensures Merged(blueprints[registered := id], if id in blueprints.Values then merged else merged + [id])
  {
    var more := blueprints[registered := id];
    assert more[registered] == id;
    forall x | x in blueprints.Values ensures x in more.Values {
      var n :| n in blueprints && blueprints[n] == x;
      assert more[n] == x;
    }
    assert more.Values == blueprints.Values + {id};
  }

  lemma {:induction false} NotNamed(blueprints: map<string, Id>, planned: seq<Planned>, name: string)
    requires name !in blueprints && forall p :: p in planned ==> p.registered != name
    ensures name !in NameAll(blueprints, planned)
  {
    if planned != [] {
      assert planned[|planned| - 1] in planned;
      NotNamed(blueprints, planned[..|planned| - 1], name);
    }
  }

  /** Every blueprint of the list is named, beside those that were. */
  predicate Named(before: map<string, Id>, planned: seq<Planned>, after: map<string, Id>) {
    && (forall k :: 0 <= k < |planned| ==>
          planned[k].registered in after && after[planned[k].registered] == planned[k].id)
    && (forall n :: n in before ==> n in after && after[n] == before[n])
    && (forall n :: n in after && n !in before ==> exists k :: 0 <= k < |planned| && planned[k].registered == n)
  }

  lemma NamedOneMore(before: map<string, Id>, planned: seq<Planned>, less: map<string, Id>, last: Planned)
    requires Named(before, planned, less)
    requires last.registered !in before && forall k :: 0 <= k < |planned| ==> planned[k].registered != last.registered
    ensures Named(before, planned + [last], less[last.registered := last.id])
  {
    var more, all := less[last.registered := last.id], planned + [last];
    assert all[|planned|] == last && forall k :: 0 <= k < |planned| ==> all[k] == planned[k];
    forall n | n in more && n !in before ensures exists k :: 0 <= k < |all| && all[k].registered == n {
      if n != last.registered {
        var k :| 0 <= k < |planned| && planned[k].registered == n;
        assert all[k].registered == n;
      }
    }
  }

  lemma {:induction false} AllAreNamed(before: map<string, Id>, planned: seq<Planned>)
    requires NamesFree(before.Keys, planned)
    ensures Named(before, planned, NameAll(before, planned))
  {
    if planned != [] {
      var front, last := planned[..|planned| - 1], planned[|planned| - 1];
      assert planned == front + [last];
      PrefixFree(before.Keys, front, [last]);
      AllAreNamed(before, front);
      hide Named;
      NamedOneMore(before, front, NameAll(before, front), last);
    }
  }

  // ---------------------------------------------------------------------
  // What a registered tree adds
  // ---------------------------------------------------------------------

  /** A route stands under its blueprint's name and below its prefix, for its methods or those it falls back to. */
  ghost predicate HoldsRoute(t: Tables, p: Planned, d: Deferred) {
    var e := p.registered + "." + d.endpoint;
    && e in t.http && IsNormal(t.http[e].rule, p.prefix + d.rule)
    && forall m :: m in t.http[e].methods <==> m in (if d.methods != [] then d.methods else d.otherwise)
  }

  ghost predicate HoldsSocket(t: Tables, p: Planned, d: Deferred) {
    var e := p.registered + "." + d.endpoint;
    e in t.sockets && IsNormal(t.sockets[e], p.prefix + d.rule)
  }

  /** So do the files of a blueprint with a static folder, below their own path. */
  ghost predicate HoldsFiles(t: Tables, p: Planned, url: string) {
    var e := p.registered + "." + "static";
    && e in t.http && t.http[e].methods == {"GET"}
    && exists trimmed :: IsTrimmed(trimmed, url) && IsNormal(t.http[e].rule, p.prefix + (trimmed + "/<path:filename>"))
  }

  ghost predicate HoldsBlueprint(t: Tables, p: Planned, b: Blueprint) {
    && (forall i :: 0 <= i < |b.routes| ==> HoldsRoute(t, p, b.routes[i]))
    && (forall i :: 0 <= i < |b.sockets| ==> HoldsSocket(t, p, b.sockets[i]))
    && (b.files.Some? ==> HoldsFiles(t, p, b.files.value))
  }

  /** The blueprint declares a WebSocket or HTTP endpoint of this name. */
  predicate Declares(p: Planned, b: Blueprint, websocket: bool, e: string) {
    if websocket then exists i :: 0 <= i < |b.sockets| && e == p.registered + "." + b.sockets[i].endpoint
    else
      || (exists i :: 0 <= i < |b.routes| && e == p.registered + "." + b.routes[i].endpoint)
      || (b.files.Some? && e == p.registered + "." + "static")
  }

  /** Everything the tree declares was added, nothing else was, and nothing was changed. */
  ghost predicate Added(g: Graph, tree: seq<Planned>, before: Tables, after: Tables) {
    && (forall k :: 0 <= k < |tree| ==> tree[k].id in g && HoldsBlueprint(after, tree[k], g[tree[k].id]))
    && (forall e :: e in before.http ==> e in after.http && after.http[e] == before.http[e])
    && (forall e :: e in before.sockets ==> e in after.sockets && after.sockets[e] == before.sockets[e])
    && (forall e :: e in after.http && e !in before.http ==>
          exists k :: 0 <= k < |tree| && tree[k].id in g && Declares(tree[k], g[tree[k].id], false, e))
    && (forall e :: e in after.sockets && e !in before.sockets ==>
          exists k :: 0 <= k < |tree| && tree[k].id in g && Declares(tree[k], g[tree[k].id], true, e))
  }

  lemma {:induction false} IsCandidate(g: Graph, tree: seq<Planned>, k: nat, n: nat)
    requires k < |tree| && tree[k].id in g && n < |DeclaredBy(g[tree[k].id])|
    ensures CandidateOf(tree[k], DeclaredBy(g[tree[k].id])[n]) in Candidates(g, tree)
  {
    hide DeclaredBy, CandidateOf;
    var p := tree[0];
    var declared := if p.id in g then DeclaredBy(g[p.id]) else [];
    var own := seq(|declared|, i requires 0 <= i < |declared| => CandidateOf(p, declared[i]));
    if k == 0 {
      assert own[n] in own;
    } else {
      IsCandidate(g, tree[1..], k - 1, n);
    }
  }

  lemma {:induction false} CandidateIs(g: Graph, tree: seq<Planned>, c: Candidate) returns (k: nat, n: nat)
    requires c in Candidates(g, tree)
    ensures k < |tree| && tree[k].id in g && n < |DeclaredBy(g[tree[k].id])|
    ensures c == CandidateOf(tree[k], DeclaredBy(g[tree[k].id])[n])
  {
    hide DeclaredBy, CandidateOf;
    var p := tree[0];
    var declared := if p.id in g then DeclaredBy(g[p.id]) else [];
    var own := seq(|declared|, i requires 0 <= i < |declared| => CandidateOf(p, declared[i]));
    if c in own {
      var i :| 0 <= i < |own| && own[i] == c;
      k, n := 0, i;
    } else {
      k, n := CandidateIs(g, tree[1..], c);
      k := k + 1;
    }
  }

  lemma RouteIsHeld(t: Tables, p: Planned, d: Deferred)
    requires Holds(t, CandidateOf(p, (d, false)))
    ensures HoldsRoute(t, p, d)
  {
    NormalIs(p.prefix + d.rule);
    hide NormalizeRule, IsNormal;
  }

  lemma SocketIsHeld(t: Tables, p: Planned, d: Deferred)
    requires Holds(t, CandidateOf(p, (d.(methods := ["WEBSOCKET"]), true)))
    ensures HoldsSocket(t, p, d)
  {
    NormalIs(p.prefix + d.rule);
    hide NormalizeRule, IsNormal;
  }

  lemma {:induction false} FilesAreHeld(t: Tables, p: Planned, url: string)
    requires Holds(t, CandidateOf(p, (Deferred(StripRight(url) + "/<path:filename>", "static", ["GET"], ["GET"], true),
                                      false)))
    ensures HoldsFiles(t, p, url)
  {
    TrimmedIs(url);
    NormalIs(p.prefix + (StripRight(url) + "/<path:filename>"));
    assert MethodSet(["GET"]) == {"GET"};
    hide NormalizeRule, IsNormal, IsTrimmed, StripRight;
  }

  lemma BlueprintIsHeld(t: Tables, p: Planned, b: Blueprint)
    requires forall n :: 0 <= n < |DeclaredBy(b)| ==> Holds(t, CandidateOf(p, DeclaredBy(b)[n]))
    ensures HoldsBlueprint(t, p, b)
  {
    hide Holds, CandidateOf, HoldsRoute, HoldsSocket, HoldsFiles;
    var declared := DeclaredBy(b);
    var files := if b.files.None? then 0 else 1;
    forall i | 0 <= i < |b.routes| ensures HoldsRoute(t, p, b.routes[i]) {
      assert declared[i] == (b.routes[i], false);
      RouteIsHeld(t, p, b.routes[i]);
    }
    forall i | 0 <= i < |b.sockets| ensures HoldsSocket(t, p, b.sockets[i]) {
      assert declared[|b.routes| + files + i] == (b.sockets[i].(methods := ["WEBSOCKET"]), true);
      SocketIsHeld(t, p, b.sockets[i]);
    }
    if b.files.Some? {
      assert declared[|b.routes|]
        == (Deferred(StripRight(b.files.value) + "/<path:filename>", "static", ["GET"], ["GET"], true), false);
      FilesAreHeld(t, p, b.files.value);
    }
  }

  lemma DeclaredIs(p: Planned, b: Blueprint, n: nat)
    requires n < |DeclaredBy(b)|
    ensures var c := CandidateOf(p, DeclaredBy(b)[n]);
      Declares(p, b, c.websocket, c.endpoint)
  {
    var files := if b.files.None? then 0 else 1;
    if n < |b.routes| {
      assert DeclaredBy(b)[n] == (b.routes[n], false);
    } else if n >= |b.routes| + files {
      assert DeclaredBy(b)[n] == (b.sockets[n - |b.routes| - files].(methods := ["WEBSOCKET"]), true);
    }
  }

  lemma {:induction false} NewIsDeclared(g: Graph, tree: seq<Planned>, e: string, websocket: bool)
    requires e in EndpointsOf(Candidates(g, tree), websocket)
    ensures exists k :: 0 <= k < |tree| && tree[k].id in g
              && Declares(tree[k], g[tree[k].id], websocket, e)
  {
    hide Declares, DeclaredBy, CandidateOf, Candidates;
    var cs := Candidates(g, tree);
    var i :| 0 <= i < |cs| && cs[i].websocket == websocket && cs[i].endpoint == e;
    var k, n := CandidateIs(g, tree, cs[i]);
    DeclaredIs(tree[k], g[tree[k].id], n);
  }

  /** A committed tree is in the tables with all it declares, and nothing else is new. */
  lemma {:induction false} TreeIsAdded(g: Graph, tree: seq<Planned>, before: Tables)
    requires (forall k :: 0 <= k < |tree| ==> tree[k].id in g) && Endpoints(before, Candidates(g, tree))
    requires CommitAll(before, Candidates(g, tree)).1
    ensures Added(g, tree, before, CommitAll(before, Candidates(g, tree)).0)
  {
    hide CommitAll, Candidates, Endpoints, EndpointsOf, DeclaredBy, CandidateOf, Holds, HoldsBlueprint;
    hide Declares;
    var cs := Candidates(g, tree);
    var after := CommitAll(before, cs).0;
    CommitAdds(before, cs);
    forall k | 0 <= k < |tree| ensures HoldsBlueprint(after, tree[k], g[tree[k].id]) {
      forall n | 0 <= n < |DeclaredBy(g[tree[k].id])|
        ensures Holds(after, CandidateOf(tree[k], DeclaredBy(g[tree[k].id])[n]))
      {
        IsCandidate(g, tree, k, n);
      }
      BlueprintIsHeld(after, tree[k], g[tree[k].id]);
    }
    forall e | e in after.http && e !in before.http
      ensures exists k :: 0 <= k < |tree| && tree[k].id in g && Declares(tree[k], g[tree[k].id], false, e)
    {
      NewIsDeclared(g, tree, e, false);
    }
    forall e | e in after.sockets && e !in before.sockets
      ensures exists k :: 0 <= k < |tree| && tree[k].id in g && Declares(tree[k], g[tree[k].id], true, e)
    {
      NewIsDeclared(g, tree, e, true);
    }
  }

  // ---------------------------------------------------------------------
  // The application
  // ---------------------------------------------------------------------

  lemma TreeIsKnown(g: Graph, tree: seq<Planned>, id: Id, registered: string, prefix: string)
    requires IsTree(g, tree, id, registered, prefix)
    ensures forall k :: 0 <= k < |tree| ==> tree[k].id in g
  {
    forall k: nat | k < |tree| ensures tree[k].id in g {
      assert ChildrenBelow(g, tree, k);
    }
  }

  predicate NameOk(name: Option<string>) {
    name.None? || (name.value != "" && '.' !in name.value)
  }

  lemma NothingPlanned(taken: set<string>)
    ensures NamesFree(taken, [])
  {
  }

  lemma WhatPlansSays(t: Tables, cs: seq<Candidate>)
    requires Plans(t, cs)
    ensures AllParse(cs) && Endpoints(t, cs)
  {
  }

  class App {
    var http: map<string, Http>
    var sockets: map<string, string>
    var blueprints: map<string, Id>
    var merged: seq<Id>

    constructor ()
      ensures Valid() && http == map[] && sockets == map[] && blueprints == map[]
    {
      http, sockets, blueprints, merged := map[], map[], map[], [];
    }

    function Held(): Tables
      reads this
    {
      Tables(http, sockets)
    }

    ghost predicate Valid()
      reads this
    {
      Unique(Held()) && Merged(blueprints, merged)
    }

    method AddUrlRule(c: Candidate) returns (ok: bool)
      requires !c.websocket
      modifies this`http
      ensures ok <==> CommitOne(old(Held()), Effective(c)).Some?
      ensures Held() == if ok then CommitOne(old(Held()), Effective(c)).value else old(Held())
    {
      hide ParseRule, NormalizeRule;
      var methods := if c.methods != [] then c.methods else c.otherwise;
      if !c.acceptable || methods == [] || c.endpoint in http || ParseRule(c.rule).None? {
        return false;
      }
      if exists e, i :: e in http && http[e].rule == NormalizeRule(c.rule) && 0 <= i < |methods|
                        && methods[i] in http[e].methods {
        return false;
      }
      http := http[c.endpoint := Http(NormalizeRule(c.rule), set m | m in methods)];
      ok := true;
    }

    method Websocket(c: Candidate) returns (ok: bool)
      requires c.websocket
      modifies this`sockets
      ensures ok <==> CommitOne(old(Held()), Effective(c)).Some?
      ensures Held() == if ok then CommitOne(old(Held()), Effective(c)).value else old(Held())
    {
      hide ParseRule, NormalizeRule;
      if !c.acceptable || c.endpoint in sockets || NormalizeRule(c.rule) in sockets.Values || ParseRule(c.rule).None? {
        return false;
      }
      sockets := sockets[c.endpoint := NormalizeRule(c.rule)];
      ok := true;
    }

    /** The commit loop: an exception leaves what was committed before it. */
    method Commit(cs: seq<Candidate>) returns (ok: bool)
      modifies this`http, this`sockets
      ensures (Held(), ok) == CommitAll(old(Held()), cs)
    {
      hide CommitOne, Effective;
      for i := 0 to |cs|
        invariant CommitAll(Held(), cs[i..]) == CommitAll(old(Held()), cs)
      {
        assert cs[i..][0] == cs[i] && cs[i..][1..] == cs[i + 1..];
        var done;
        if cs[i].websocket {
          done := Websocket(cs[i]);
        } else {
          done := AddUrlRule(cs[i]);
        }
        if !done {
          return false;
        }
      }
      ok := true;
    }

    /** Record every planned blueprint; the hooks of one already known are not merged again. */
    method Record(planned: seq<Planned>)
      requires Merged(blueprints, merged) && NamesFree(blueprints.Keys, planned)
      modifies this`blueprints, this`merged
      ensures blueprints == NameAll(old(blueprints), planned) && Merged(blueprints, merged)
    {
      hide Merged;
      ghost var before := blueprints;
      for i := 0 to |planned|
        invariant blueprints == NameAll(before, planned[..i]) && Merged(blueprints, merged)
      {
        var p := planned[i];
        NotNamed(before, planned[..i], p.registered);
        MergedOneMore(blueprints, merged, p.registered, p.id);
        assert planned[..i + 1][..i] == planned[..i];
        if p.id !in blueprints.Values {
          merged := merged + [p.id];
        }
        blueprints := blueprints[p.registered := p.id];
      }
      assert planned[..|planned|] == planned;
    }

    /** `register_blueprint`. */
    method RegisterBlueprint(g: Graph, id: Id, urlPrefix: Option<string>, namePrefix: string, name: Option<string>)
      returns (error: Option<Error>, ghost tree: Option<seq<Planned>>, ghost cs: seq<Candidate>)
      requires Closed(g) && id in g && Valid()
      modifies this
      ensures Valid()
      ensures tree == Unfold(g, id, namePrefix + (if name.Some? then name.value else g[id].name),
                             if urlPrefix.Some? then urlPrefix.value else g[id].urlPrefix, {})
      ensures tree.Some? <==> !Cyclic(g, id)
      ensures tree.Some? ==> cs == Candidates(g, tree.value)
      // Before the commit an error changes nothing, and planning misses no conflict.
      ensures error.Some? && error != Some(CommitFailed) ==>
        http == old(http) && sockets == old(sockets) && blueprints == old(blueprints) && merged == old(merged)
      ensures error.Some? && error != Some(CommitFailed) <==>
        !(NameOk(name) && Collects(old(blueprints).Keys, [], tree) && Plans(old(Held()), cs))
      // The commit fails exactly when an option is not taken or an unnamed method clashes.
      ensures error.None? || error == Some(CommitFailed) ==>
        (error.None? <==> AllAcceptable(cs) && Paths(old(Held()), AllEffective(cs)))
      ensures error.None? || error == Some(CommitFailed) ==> (Held(), error.None?) == CommitAll(old(Held()), cs)
      ensures error == Some(CommitFailed) ==> blueprints == old(blueprints) && merged == old(merged)
      ensures error.None? ==> blueprints == NameAll(old(blueprints), tree.value)
      // What a success adds: the tree below this blueprint with everything it declares.
      ensures error.None? ==>
        && IsTree(g, tree.value, id, namePrefix + (if name.Some? then name.value else g[id].name),
                  if urlPrefix.Some? then urlPrefix.value else g[id].urlPrefix)
        && Added(g, tree.value, old(Held()), Held()) && Named(old(blueprints), tree.value, blueprints)
    {
      hide IsTree, Added, Named;
      hide Unfold, Cyclic, NamesFree, Plans, Paths, Unique, Merged, Closed, CommitAll, Candidates, NameAll;
      var registered := namePrefix + (if name.Some? then name.value else g[id].name);
      var prefix := if urlPrefix.Some? then urlPrefix.value else g[id].urlPrefix;
      tree, cs := Unfold(g, id, registered, prefix, {}), [];
      FiniteIffAcyclic(g, id, registered, prefix);
      if tree.Some? {
        cs := Candidates(g, tree.value);
      }
      if !NameOk(name) {
        return Some(BadName), tree, cs;
      }
      NothingPlanned(blueprints.Keys);
      var planned := Collect(g, id, registered, prefix, {}, blueprints.Keys, []);
      if planned.Err? {
        return Some(planned.error), tree, cs;
      }
      assert [] + tree.value == tree.value;
      var registrations := Candidates(g, planned.value);
      error := Plan(Held(), registrations);
      if error.Some? {
        return;
      }
      WhatPlansSays(Held(), cs);
      CommitSucceeds(Held(), cs);
      CommitAllKeepsUnique(Held(), cs);
      var ok := Commit(registrations);
      if !ok {
        return Some(CommitFailed), tree, cs;
      }
      UnfoldIsTree(g, id, registered, prefix, {});
      TreeIsKnown(g, tree.value, id, registered, prefix);
      TreeIsAdded(g, tree.value, old(Held()));
      AllAreNamed(blueprints, planned.value);
      Record(planned.value);
    }
  }

  // ---------------------------------------------------------------------
  // Where the commit fails after a good plan
  // ---------------------------------------------------------------------

  lemma RuleOf(c: char)
    requires c != '/' && c != '<' && c != '>'
    ensures NormalizeRule(['/', c]) == ['/', c] && ParseRule(['/', c]) == Some([Static([c])])
  {
    var rule := ['/', c];
    assert StripLeft(rule[1..]) == [c] && StripLeft(rule) == [c];
    assert StripRight([c]) == [c] && StripRight(rule) == rule;
    assert Split([c]) == [[c]];
    assert RuleParts(rule) == [[c]];
    assert PySegment([c]) == Some(Static([c]));
    ParsesOne([c], PySegment);
  }

  /** A status code `add_url_rule` refuses is met only in the commit, after the routes before it. */
  lemma StatusIsMetTooLate(good: Candidate, bad: Candidate)
    requires good == Candidate("/a", "b.a", ["GET"], ["GET"], false, true)
    requires bad == Candidate("/b", "b.b", ["GET"], ["GET"], false, false)
    ensures Plans(Tables(map[], map[]), [good, bad])
    ensures CommitAll(Tables(map[], map[]), [good, bad]) == (Tables(map["b.a" := Http("/a", {"GET"})], map[]), false)
  {
    var t := Tables(map[], map[]);
    RuleOf('a');
    RuleOf('b');
    hide NormalizeRule, ParseRule;
    assert "/a"[1] != "/b"[1];
    assert "b.a"[2] != "b.b"[2];
    assert !PathTakenBy(t, good) && !PathTakenBy(t, bad);
    var next := CommitOne(t, Effective(good)).value;
    assert MethodSet(["GET"]) == {"GET"};
    assert next == Tables(map["b.a" := Http("/a", {"GET"})], map[]);
    assert [good, bad][1..] == [bad];
  }

  /**
   * A route planned with an empty list of methods falls back to GET only in the commit, and clashes
   * there. `route` turns None and an empty list into GET, but not an iterable that is true and empty,
   * such as a generator.
   */
  lemma FallbackIsMetTooLate(named: Candidate, unnamed: Candidate)
    requires named == Candidate("/a", "b.a", ["GET"], ["GET"], false, true)
    requires unnamed == Candidate("/a", "b.b", [], ["GET"], false, true)
    ensures Plans(Tables(map[], map[]), [named, unnamed])
    ensures CommitAll(Tables(map[], map[]), [named, unnamed])
      == (Tables(map["b.a" := Http("/a", {"GET"})], map[]), false)
  {
    var t := Tables(map[], map[]);
    RuleOf('a');
    hide NormalizeRule, ParseRule;
    assert "b.a"[2] != "b.b"[2];
    assert !PathTakenBy(t, named) && !PathTakenBy(t, unnamed);
    var next := CommitOne(t, Effective(named)).value;
    assert MethodSet(["GET"]) == {"GET"};
    assert next == Tables(map["b.a" := Http("/a", {"GET"})], map[]);
    assert [named, unnamed][1..] == [unnamed];
    var retried := Effective(unnamed);
    assert retried.methods == ["GET"];
    assert Shares({"GET"}, retried.methods) by {
      assert retried.methods[0] in {"GET"};
    }
    assert PathTakenBy(next, retried) by {
      assert next.http["b.a"].rule == "/a";
    }
  }
}
