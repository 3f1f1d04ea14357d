/** Byte strings, and the search primitives the streaming parser relies on. */
module Bytes {
  import opened Wrappers

  type Byte = x: int | 0 <= x < 256
  type Bytes = seq<Byte>

  const CRLF: Bytes := [13, 10]
  const DASHES: Bytes := [45, 45]
  const BLANK_LINE: Bytes := [13, 10, 13, 10]

  /** `m` stands in `s` at offset `i`. */
  predicate OccursAt(s: Bytes, m: Bytes, i: nat) {
    i + |m| <= |s| && s[i..i + |m|] == m
  }

  /** Python's `bytes.find(marker, start)`, with None for -1. */
  function Find(s: Bytes, m: Bytes, start: nat): (r: Option<nat>)
    ensures r.Some? ==> start <= r.value && OccursAt(s, m, r.value)
    decreases |s| - start
  {
    if start + |m| > |s| then None
    else if OccursAt(s, m, start) then Some(start)
    else if start == |s| then None
    else Find(s, m, start + 1)
  }

  /** `Find` gives the first occurrence: there is none below what it returns. */
  lemma {:induction false} FindIsFirst(s: Bytes, m: Bytes, start: nat, i: nat)
    requires start <= i
    requires Find(s, m, start).Some? ==> i < Find(s, m, start).value
    ensures !OccursAt(s, m, i)
    decreases |s| - start
  {
    if start + |m| <= |s| && start < i {
      FindIsFirst(s, m, start + 1, i);
    }
  }

  /** The concatenation of a list of byte strings. */
  function Flatten(chunks: seq<Bytes>): Bytes {
    if chunks == [] then [] else chunks[0] + Flatten(chunks[1..])
  }

  /** An occurrence inside a prefix is an occurrence in the whole, and conversely. */
  lemma OccursInPrefix(s: Bytes, t: Bytes, m: Bytes, i: nat)
    requires i + |m| <= |s|
    ensures OccursAt(s, m, i) <==> OccursAt(s + t, m, i)
  {
    assert (s + t)[i..i + |m|] == s[i..i + |m|];
  }

  /** Dropping `k` bytes moves every later occurrence down by `k`. */
  lemma OccursInSuffix(s: Bytes, m: Bytes, k: nat, i: nat)
    requires k <= |s|
    ensures OccursAt(s[k..], m, i) <==> OccursAt(s, m, k + i)
  {
    if k + i + |m| <= |s| {
      assert s[k..][i..i + |m|] == s[k + i..k + i + |m|];
    }
  }
}
