/**
 * The nesting limit of a JSON request body: `get_json` walks the parsed value with a stack of
 * iterators, and accepts it exactly when its nesting depth is within the limit.
 */
module JsonDepth {

  /** A parsed value; the items of an array, or the values of an object. */
  datatype Json = Scalar | Container(items: seq<Json>)

  function Depth(value: Json): nat {
    if value.Scalar? then 0 else 1 + DepthOf(value.items)
  }

  function DepthOf(items: seq<Json>): nat {
    if items == [] then 0
    else
      var first, rest := Depth(items[0]), DepthOf(items[1..]);
      if first > rest then first else rest
  }

  function Size(value: Json): nat {
    if value.Scalar? then 1 else 1 + SizeOf(value.items)
  }

  function SizeOf(items: seq<Json>): nat {
    if items == [] then 0 else Size(items[0]) + SizeOf(items[1..])
  }

  /** What every item left in an iterator `level` levels down must satisfy. */
  predicate Shallow(items: seq<Json>, level: nat, limit: nat) {
    items == [] || level + DepthOf(items) <= limit
  }

  /** What the rest of the walk will find: every remaining item is within the limit. */
  predicate AllShallow(pending: seq<seq<Json>>, limit: nat) {
    || pending == []
    || (AllShallow(pending[..|pending| - 1], limit) && Shallow(pending[|pending| - 1], |pending| - 1, limit))
  }

  function Left(pending: seq<seq<Json>>): nat {
    if pending == [] then 0
    else Left(pending[..|pending| - 1]) + 2 * SizeOf(pending[|pending| - 1]) + 1
  }

  lemma {:induction false} Unstack(below: seq<seq<Json>>, top: seq<Json>, limit: nat)
    ensures AllShallow(below + [top], limit) <==> AllShallow(below, limit) && Shallow(top, |below|, limit)
    ensures Left(below + [top]) == Left(below) + 2 * SizeOf(top) + 1
  {
    assert (below + [top])[..|below|] == below;
  }

  /** Taking one item off an iterator whose level is within the limit. */
  lemma {:induction false} TopItem(item: Json, rest: seq<Json>, level: nat, limit: nat)
    requires level <= limit
    ensures item.Scalar? ==> (Shallow([item] + rest, level, limit) <==> Shallow(rest, level, limit))
    ensures item.Container? && level < limit ==>
      (Shallow([item] + rest, level, limit) <==> Shallow(rest, level, limit) && Shallow(item.items, level + 1, limit))
    ensures item.Container? && level == limit ==> !Shallow([item] + rest, level, limit)
    ensures SizeOf([item] + rest) == Size(item) + SizeOf(rest)
  {
    var all := [item] + rest;
    assert all[1..] == rest && all[0] == item;
    assert DepthOf(all) == if Depth(item) > DepthOf(rest) then Depth(item) else DepthOf(rest);
    assert rest == [] ==> DepthOf(rest) == 0;
    assert item.Container? && item.items == [] ==> DepthOf(item.items) == 0;
  }

  lemma {:induction false} OnlyRoot(value: Json, limit: nat)
    ensures AllShallow([[value]], limit) <==> Depth(value) <= limit
  {
    assert [[value]] == [] + [[value]];
    assert AllShallow([], limit);
    Unstack([], [value], limit);
    assert DepthOf([value][1..]) == 0;
  }

  lemma {:induction false} NothingLeft(limit: nat)
    ensures AllShallow([], limit)
  {
  }

  /** The walk: it accepts exactly the values nested at most `limit` deep. */
  method Accepts(value: Json, limit: nat) returns (ok: bool)
    requires limit > 0
    ensures ok <==> Depth(value) <= limit
  {
    hide AllShallow, Left;
    var pending := [[value]];
    OnlyRoot(value, limit);
    while pending != []
      invariant |pending| <= limit + 1 && (AllShallow(pending, limit) <==> Depth(value) <= limit)
      decreases Left(pending)
    {
      var below, top := pending[..|pending| - 1], pending[|pending| - 1];
      assert pending == below + [top];
      Unstack(below, top, limit);
      if top == [] {
        pending := below;
      } else {
        var item, rest := top[0], top[1..];
        assert top == [item] + rest;
        Unstack(below, rest, limit);
        TopItem(item, rest, |below|, limit);
        if item.Container? {
          if |pending| > limit {
            return false;
          }
          Unstack(below + [rest], item.items, limit);
          pending := below + [rest] + [item.items];
        } else {
          pending := below + [rest];
        }
      }
    }
    NothingLeft(limit);
    ok := true;
  }
}
