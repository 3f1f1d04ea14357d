/**
 * The fixed-window rate limit kept in one Redis key and changed only by a script, which runs
 * atomically at one instant of the server's clock. Windows are ghost state: each lifetime of the
 * key and the calls it admitted.
 */
module FixedWindow {
  import opened Wrappers

  datatype Window = Window(start: nat, hits: seq<nat>)

  predicate WindowOk(w: Window, limit: nat, span: nat) {
    0 < |w.hits| <= limit && w.hits[0] == w.start
    && forall k :: 0 <= k < |w.hits| ==> w.start <= w.hits[k] < w.start + span
  }

  /** Windows of `span` milliseconds that do not overlap, none with more hits than the limit. */
  ghost predicate WindowsOk(windows: seq<Window>, limit: nat, span: nat) {
    && (forall i :: 0 <= i < |windows| ==> WindowOk(windows[i], limit, span))
    && (forall i :: 0 < i < |windows| ==> windows[i - 1].start + span <= windows[i].start)
  }

  /** The calls of one list of instants in `[from, to)`. */
  function Within(hits: seq<nat>, from: int, to: int): nat {
    if hits == [] then 0
    else Within(hits[..|hits| - 1], from, to) + (if from <= hits[|hits| - 1] < to then 1 else 0)
  }

  /** The calls admitted in `[from, to)`. */
  function Admitted(windows: seq<Window>, from: int, to: int): nat {
    if windows == [] then 0
    else Admitted(windows[..|windows| - 1], from, to) + Within(windows[|windows| - 1].hits, from, to)
  }

  lemma {:induction false} WithinIsBounded(hits: seq<nat>, from: int, to: int)
    ensures Within(hits, from, to) <= |hits|
    ensures (forall k :: 0 <= k < |hits| ==> !(from <= hits[k] < to)) ==> Within(hits, from, to) == 0
    ensures (forall k :: 0 <= k < |hits| ==> from <= hits[k] < to) ==> Within(hits, from, to) == |hits|
  {
    if hits != [] {
      var front := hits[..|hits| - 1];
      WithinIsBounded(front, from, to);
      assert forall k :: 0 <= k < |front| ==> front[k] == hits[k];
    }
  }

  lemma {:induction false} NoneBefore(windows: seq<Window>, limit: nat, span: nat, from: int, to: int)
    requires WindowsOk(windows, limit, span)
    requires windows != [] ==> windows[|windows| - 1].start + span <= from
    ensures Admitted(windows, from, to) == 0
  {
    if windows != [] {
      var last := windows[|windows| - 1];
      NoneBefore(windows[..|windows| - 1], limit, span, from, to);
      WithinIsBounded(last.hits, from, to);
    }
  }

  lemma {:induction false} WithinHead(first: nat, rest: seq<nat>, from: int, to: int)
    ensures Within([first] + rest, from, to) == (if from <= first < to then 1 else 0) + Within(rest, from, to)
  {
    var all := [first] + rest;
    if rest == [] {
      assert all[..0] == [];
    } else {
      WithinHead(first, rest[..|rest| - 1], from, to);
      assert all[..|all| - 1] == [first] + rest[..|rest| - 1];
    }
  }

  /** A window begun before the interval leaves its first hit out. */
  lemma {:induction false} BegunBefore(w: Window, limit: nat, span: nat, from: int, to: int)
    requires WindowOk(w, limit, span) && w.start < from
    ensures Within(w.hits, from, to) <= limit - 1
  {
    assert w.hits == [w.hits[0]] + w.hits[1..];
    WithinHead(w.hits[0], w.hits[1..], from, to);
    WithinIsBounded(w.hits[1..], from, to);
  }

  /** No half-open interval as long as a window holds twice the limit. */
  lemma {:induction false} LessThanTwice(windows: seq<Window>, limit: nat, span: nat, from: int)
    requires WindowsOk(windows, limit, span) && limit > 0
    ensures Admitted(windows, from, from + span) <= 2 * limit - 1
  {
    if windows != [] {
      var front, last := windows[..|windows| - 1], windows[|windows| - 1];
      WithinIsBounded(last.hits, from, from + span);
      if last.start >= from + span {
        LessThanTwice(front, limit, span, from);
      } else if front != [] {
        var earlier, previous := front[..|front| - 1], front[|front| - 1];
        assert windows[|windows| - 2] == previous;
        BegunBefore(previous, limit, span, from, from + span);
        if earlier != [] {
          assert windows[|windows| - 3] == earlier[|earlier| - 1];
        }
        NoneBefore(earlier, limit, span, from, from + span);
      }
    }
  }

  /** `n` calls at one instant. */
  function At(instant: nat, n: nat): (hits: seq<nat>)
    ensures |hits| == n && forall k :: 0 <= k < n ==> hits[k] == instant
  {
    seq(n, _ => instant)
  }

  /** One less than twice the limit is met: a window that fills up at its end, and the next at its start. */
  lemma {:induction false} OneLessIsMet(limit: nat, span: nat)
    requires limit > 0 && span > 1
    ensures var windows := [Window(0, [0] + At(span - 1, limit - 1)), Window(span, At(span, limit))];
      WindowsOk(windows, limit, span) && Admitted(windows, 1, 1 + span) == 2 * limit - 1
  {
    var late, next := At(span - 1, limit - 1), At(span, limit);
    var hits := [0] + late;
    var windows := [Window(0, hits), Window(span, next)];
    WithinIsBounded(next, 1, 1 + span);
    WithinIsBounded(late, 1, 1 + span);
    WithinHead(0, late, 1, 1 + span);
    assert windows[..1] == [Window(0, hits)] && [Window(0, hits)][..0] == [];
    assert Admitted([], 1, 1 + span) == 0;
    assert Admitted([Window(0, hits)], 1, 1 + span) == Within(hits, 1, 1 + span);
  }

  // ---------------------------------------------------------------------
  // The key and the script
  // ---------------------------------------------------------------------

  /** The seconds of the `retry-after` header: the time left rounded up, and one at least. */
  function RetryAfter(left: int): (seconds: nat)
    ensures seconds >= 1 && left <= 1000 * seconds
    ensures left > 0 ==> 1000 * seconds < left + 1000
  {
    if left <= 0 then 1 else (left + 999) / 1000
  }

  lemma Open(windows: seq<Window>, limit: nat, span: nat, now: nat)
    requires WindowsOk(windows, limit, span) && limit > 0 && span > 0
    requires windows != [] ==> windows[|windows| - 1].start + span <= now
    ensures WindowsOk(windows + [Window(now, [now])], limit, span)
  {
    var more := windows + [Window(now, [now])];
    assert forall i :: 0 <= i < |windows| ==> more[i] == windows[i];
  }

  class Key {
    const limit: nat
    const span: nat
    var now: nat
    var value: Option<nat>
    var expires: Option<nat>
    ghost var windows: seq<Window>

    constructor (limit: nat, span: nat)
      requires limit > 0 && span > 0
      ensures Valid() && !Live() && now == 0 && windows == [] && this.limit == limit && this.span == span
    {
      this.limit, this.span := limit, span;
      now, value, expires, windows := 0, None, None, [];
    }

    predicate Live()
      reads this
    {
      value.Some? && (expires.None? || now < expires.value)
    }

    /** The counter is the number of hits of the last window, until that window ends. */
    ghost predicate Valid()
      reads this
    {
      && limit > 0 && span > 0 && WindowsOk(windows, limit, span)
      && (Live() ==> windows != [] && expires == Some(Last().start + span) && value == Some(|Last().hits|))
      && (!Live() && windows != [] ==> Last().start + span <= now)
      && (windows != [] ==> forall k :: 0 <= k < |Last().hits| ==> Last().hits[k] <= now)
    }

    ghost function Last(): Window
      requires windows != []
      reads this
    {
      windows[|windows| - 1]
    }

    /** The clock moves on, between scripts. */
    method Advance(delay: nat)
      requires Valid()
      modifies this`now
      ensures Valid() && now == old(now) + delay
    {
      now := now + delay;
    }

    method Get() returns (r: Option<nat>)
      ensures r == if Live() then value else None
    {
      r := if Live() then value else None;
    }

    /** INCR: an expired or missing key starts again, without an expiry. */
    method Incr() returns (count: nat)
      modifies this`value, this`expires
      ensures value == Some(count)
      ensures count == if old(Live()) then old(value).value + 1 else 1
      ensures expires == if old(Live()) then old(expires) else None
    {
      if Live() {
        count := value.value + 1;
      } else {
        count, expires := 1, None;
      }
      value := Some(count);
    }

    /** PTTL. */
    method Pttl() returns (left: int)
      ensures left == if !Live() then -2 else if expires.None? then -1 else expires.value - now
    {
      left := if !Live() then -2 else if expires.None? then -1 else expires.value - now;
    }

    /**
     * The script: it refuses exactly when this lifetime of the key has admitted the limit already.
     * The time left it reports is that of the lifetime.
     */
    method Script() returns (allowed: bool, count: nat, left: int)
      requires Valid()
      modifies this`value, this`expires, this`windows
      ensures Valid()
      ensures allowed <==> !(old(Live()) && |old(Last()).hits| == limit)
      ensures !allowed ==> windows == old(windows) && count == limit
      ensures allowed && old(Live()) ==>
        windows == old(windows)[|old(windows)| - 1 := Window(old(Last()).start, old(Last()).hits + [now])]
      ensures allowed && !old(Live()) ==> windows == old(windows) + [Window(now, [now])]
      ensures Live() && count == |Last().hits| && 0 < left <= span && now + left == Last().start + span
    {
      var held := Get();
      count := if held.Some? then held.value else 0;
      if count >= limit {
        left := Pttl();
        return false, count, left;
      }
      ghost var before, live := windows, Live();
      count := Incr();
      if count == 1 {
        expires := Some(now + span);
      }
      if live {
        windows := before[|before| - 1 := Window(before[|before| - 1].start, before[|before| - 1].hits + [now])];
      } else {
        Open(before, limit, span, now);
        windows := before + [Window(now, [now])];
      }
      left := Pttl();
      allowed := true;
    }

    /** A refused caller that waits the seconds it was told is admitted, if it is then the first. */
    method WaitAndRetry() returns (allowed: bool)
      requires Valid()
      modifies this
      ensures Valid() && allowed
      ensures now == old(now) + if old(Live() && |Last().hits| == limit)
                                then 1000 * RetryAfter(old(Last().start + span - now)) else 0
      ensures windows != [] && Last().hits != [] && Last().hits[|Last().hits| - 1] == now
    {
      var count, left;
      allowed, count, left := Script();
      if !allowed {
        Advance(1000 * RetryAfter(left));
        allowed, count, left := Script();
      }
    }
  }

  /** `n` more calls in the window that is open. */
  method Fill(key: Key, n: nat)
    requires key.Valid() && key.Live() && |key.Last().hits| + n <= key.limit
    modifies key
    ensures key.Valid() && key.Live() && key.now == old(key.now)
    ensures var last := old(key.Last());
      key.windows
        == old(key.windows)[|old(key.windows)| - 1 := Window(last.start, last.hits + At(key.now, n))]
  {
    ghost var before, last, now := key.windows, key.Last(), key.now;
    assert last.hits + At(now, 0) == last.hits;
    for k := 0 to n
      invariant key.Valid() && key.Live() && key.now == now
      invariant key.windows == before[|before| - 1 := Window(last.start, last.hits + At(now, k))]
    {
      var _, _, _ := key.Script();
      assert last.hits + At(now, k) + [now] == last.hits + At(now, k + 1);
    }
  }

  /**
   * Calls that meet the bound: one at 0, the others of its window at its end, and a whole limit
   * one millisecond later, when the next window begins.
   */
  method FillTwice(limit: nat, span: nat) returns (key: Key)
    requires limit > 0 && span > 1
    ensures key.Valid() && key.limit == limit && key.span == span
    ensures Admitted(key.windows, 1, 1 + span) == 2 * limit - 1
  {
    hide WindowsOk, Admitted;
    key := new Key(limit, span);
    var _, _, _ := key.Script();
    assert key.windows == [Window(0, [0])];
    key.Advance(span - 1);
    Fill(key, limit - 1);
    key.Advance(1);
    assert key.windows == [Window(0, [0] + At(span - 1, limit - 1))];
    var _, _, _ := key.Script();
    assert key.windows[1] == Window(span, [span]);
    Fill(key, limit - 1);
    assert [span] + At(span, limit - 1) == At(span, limit);
    assert key.windows == [Window(0, [0] + At(span - 1, limit - 1)), Window(span, At(span, limit))];
    OneLessIsMet(limit, span);
  }
}
