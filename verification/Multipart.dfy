/**
 * The streaming reader and the part loop of the multipart/form-data parser
 * (section 5.1.1 of RFC 2046, section 4 of RFC 7578). The reader sees its input
 * one read at a time, keeps a carry-over window and looks ahead to decide each
 * delimiter; the functions here say what it must do to the bytes as a whole.
 */
module Multipart {
  import opened Wrappers
  import opened Bytes

  datatype Error = BadRequest | TooLarge

  // ---------------------------------------------------------------------
  // The one-shot search the streaming reader refines
  // ---------------------------------------------------------------------

  /** What may follow a delimiter: a line end, or `--` and then a line end or the end of input. */
  predicate EndsDelimiter(rest: Bytes) {
    || CRLF <= rest
    || (DASHES <= rest && (|rest| == 2 || CRLF <= rest[2..]))
  }

  predicate MatchAt(s: Bytes, marker: Bytes, delimiter: bool, i: nat) {
    OccursAt(s, marker, i) && (delimiter ==> EndsDelimiter(s[i + |marker|..]))
  }

  /** The least offset from `start` on at which `marker` matches. */
  function FirstFrom(s: Bytes, marker: Bytes, delimiter: bool, start: nat): (r: Option<nat>)
    ensures r.Some? ==> start <= r.value && MatchAt(s, marker, delimiter, r.value)
    decreases |s| - start
  {
    if start > |s| then None
    else if MatchAt(s, marker, delimiter, start) then Some(start)
    else FirstFrom(s, marker, delimiter, start + 1)
  }

  function First(s: Bytes, marker: Bytes, delimiter: bool): Option<nat> {
    FirstFrom(s, marker, delimiter, 0)
  }

  lemma FirstFits(s: Bytes, marker: Bytes, delimiter: bool)
    ensures var first := First(s, marker, delimiter); first.Some? ==> first.value + |marker| <= |s|
  {
  }

  /** `FirstFrom` skips nothing that matches. */
  lemma {:induction false} FirstIsLeast(s: Bytes, marker: Bytes, delimiter: bool, start: nat, i: nat)
    requires start <= i
    requires FirstFrom(s, marker, delimiter, start).Some? ==> i < FirstFrom(s, marker, delimiter, start).value
    ensures !MatchAt(s, marker, delimiter, i)
    decreases i - start
  {
    if start < i && i <= |s| {
      FirstIsLeast(s, marker, delimiter, start + 1, i);
    }
  }

  /** Offsets that do not match can be skipped. */
  lemma {:induction false} FirstSkips(s: Bytes, marker: Bytes, delimiter: bool, start: nat, i: nat)
    requires start <= i <= |s| + 1
    requires forall j: nat :: start <= j < i ==> !MatchAt(s, marker, delimiter, j)
    ensures FirstFrom(s, marker, delimiter, start) == FirstFrom(s, marker, delimiter, i)
    decreases i - start
  {
    if start < i {
      FirstSkips(s, marker, delimiter, start + 1, i);
    }
  }

  /** Python's `value[lo:hi]`, which saturates at the end. */
  function Slice(s: Bytes, lo: nat, hi: nat): Bytes
    requires lo <= hi
  {
    if hi <= |s| then s[lo..hi] else if lo <= |s| then s[lo..] else []
  }

  /** What one `find` in the window says about the first match in the whole input. */
  lemma {:induction false} Scanned(buffer: Bytes, rest: Bytes, marker: Bytes, delimiter: bool, from: nat)
    requires from <= |buffer| + 1
    ensures var s, index := buffer + rest, Find(buffer, marker, from);
      var first := FirstFrom(s, marker, delimiter, from);
      if index.Some? then first == FirstFrom(s, marker, delimiter, index.value)
      else first.None? || first.value + |marker| > |buffer|
  {
    var s, index := buffer + rest, Find(buffer, marker, from);
    forall j: nat | from <= j && j + |marker| <= |buffer| && (index.Some? ==> j < index.value)
      ensures !MatchAt(s, marker, delimiter, j)
    {
      FindIsFirst(buffer, marker, from, j);
      OccursInPrefix(buffer, rest, marker, j);
    }
    if index.Some? {
      FirstSkips(s, marker, delimiter, from, index.value);
    }
  }

  /** Taking `k` more bytes off a remainder that starts at `written`. */
  lemma Advance(base: Bytes, s: Bytes, written: nat, k: nat)
    requires written + k <= |s|
    ensures s[written..][k..] == s[written + k..]
    ensures base + s[..written] + s[written..][..k] == base + s[..written + k]
  {
    assert s[..written] + s[written..][..k] == s[..written + k];
  }

  /** A candidate in the window is the first match, or is skipped, as the look-ahead decides. */
  lemma Candidate(buffer: Bytes, rest: Bytes, marker: Bytes, delimiter: bool, i: nat, valid: bool)
    requires OccursAt(buffer, marker, i)
    requires valid == (delimiter ==> EndsDelimiter((buffer + rest)[i + |marker|..]))
    ensures FirstFrom(buffer + rest, marker, delimiter, i) ==
            if valid then Some(i) else FirstFrom(buffer + rest, marker, delimiter, i + 1)
  {
    OccursInPrefix(buffer, rest, marker, i);
  }

  /** A candidate too close to the end of the input to be a delimiter ends the search. */
  lemma {:induction false} TruncatedCandidate(s: Bytes, marker: Bytes, i: nat)
    requires i + |marker| <= |s| < i + |marker| + 2
    ensures FirstFrom(s, marker, true, i).None?
  {
  }

  function Shift(first: Option<nat>, k: nat): Option<nat> {
    if first.Some? then Some(k + first.value) else None
  }

  lemma MatchAtDrop(s: Bytes, marker: Bytes, delimiter: bool, k: nat, i: nat)
    requires k <= |s|
    ensures MatchAt(s[k..], marker, delimiter, i) <==> MatchAt(s, marker, delimiter, k + i)
  {
    OccursInSuffix(s, marker, k, i);
    if OccursAt(s, marker, k + i) {
      assert s[k..][i + |marker|..] == s[k + i + |marker|..];
    }
  }

  /** Dropping `k` bytes moves every later match down by `k`. */
  lemma {:induction false} FirstFromDrop(s: Bytes, marker: Bytes, delimiter: bool, k: nat, i: nat)
    requires k <= |s|
    ensures FirstFrom(s, marker, delimiter, k + i) == Shift(FirstFrom(s[k..], marker, delimiter, i), k)
    decreases |s| - i
  {
    hide MatchAt;
    if k + i <= |s| {
      MatchAtDrop(s, marker, delimiter, k, i);
      FirstFromDrop(s, marker, delimiter, k, i + 1);
    }
  }

  /** Dropping bytes below the first match only moves it. */
  lemma FirstAfterDrop(buffer: Bytes, rest: Bytes, marker: Bytes, delimiter: bool, k: nat)
    requires k <= |buffer|
    requires var first := First(buffer + rest, marker, delimiter); first.Some? ==> k <= first.value
    ensures First(buffer + rest, marker, delimiter) == Shift(First(buffer[k..] + rest, marker, delimiter), k)
  {
    var s := buffer + rest;
    assert s[k..] == buffer[k..] + rest;
    forall j: nat | j < k
      ensures !MatchAt(s, marker, delimiter, j)
    {
      FirstIsLeast(s, marker, delimiter, 0, j);
    }
    FirstSkips(s, marker, delimiter, 0, k);
    FirstFromDrop(s, marker, delimiter, k, 0);
  }

  /** `until` on the whole: what precedes the first match and what follows it. */
  function Cut(s: Bytes, marker: Bytes, delimiter: bool, maximum: Option<nat>): Option<(Bytes, Bytes)> {
    var first := First(s, marker, delimiter);
    if first.None? || (maximum.Some? && first.value > maximum.value) then None
    else Some((s[..first.value], s[first.value + |marker|..]))
  }

  /** What one round of `until` found in `t`: it fails, cuts at the first match, or moves `n` bytes on. */
  ghost predicate RoundOk(t: Bytes, rest: Bytes, before: Bytes, after: Bytes, written: nat, maximum: Option<nat>,
                          marker: Bytes, delimiter: bool, r: Result<Option<nat>, Error>)
  {
    var first := First(t, marker, delimiter);
    match r
    case Err(BadRequest) => first.None?
    case Err(TooLarge) =>
      maximum.Some? && maximum.value < written + (if first.Some? then first.value else |t|)
    case Ok(None) =>
      && first.Some? && first.value <= |t| && after == before + t[..first.value]
      && (maximum.Some? ==> written + first.value <= maximum.value)
      && first.value + |marker| <= |t| && rest == t[first.value + |marker|..]
    case Ok(Some(n)) =>
      && n <= |t| && rest == t[n..] && after == before + t[..n]
      && first == Shift(First(rest, marker, delimiter), n)
      && (maximum.Some? ==> written + n <= maximum.value)
  }

  /** Between rounds: `written` bytes of `s` were moved, `rest` is left, and no match was passed. */
  ghost predicate Progress(s: Bytes, base: Bytes, rest: Bytes, data: Bytes, written: nat, maximum: Option<nat>,
                           marker: Bytes, delimiter: bool)
  {
    && written <= |s| && rest == s[written..] && data == base + s[..written]
    && (maximum.Some? ==> written <= maximum.value)
    && First(s, marker, delimiter) == Shift(First(rest, marker, delimiter), written)
  }

  lemma NoMatch(t: Bytes, rest: Bytes, before: Bytes, after: Bytes, written: nat, maximum: Option<nat>,
                marker: Bytes, delimiter: bool)
    requires First(t, marker, delimiter).None?
    ensures RoundOk(t, rest, before, after, written, maximum, marker, delimiter, Err(BadRequest))
  {
  }

  lemma NoMatchLeft(t: Bytes, rest: Bytes, before: Bytes, after: Bytes, written: nat, maximum: Option<nat>,
                    marker: Bytes, delimiter: bool, n: nat)
    requires RoundOk(t, rest, before, after, written, maximum, marker, delimiter, Ok(Some(n)))
    requires First(rest, marker, delimiter).None?
    ensures RoundOk(t, rest, before, after, written, maximum, marker, delimiter, Err(BadRequest))
  {
  }

  lemma NothingTaken(t: Bytes, data: Bytes)
    ensures t[0..] == t && data + t[..0] == data
  {
  }

  lemma ProgressMoves(s: Bytes, base: Bytes, t: Bytes, rest: Bytes, before: Bytes, after: Bytes, written: nat,
                      maximum: Option<nat>, marker: Bytes, delimiter: bool, n: nat)
    requires Progress(s, base, t, before, written, maximum, marker, delimiter)
    requires RoundOk(t, rest, before, after, written, maximum, marker, delimiter, Ok(Some(n)))
    ensures Progress(s, base, rest, after, written + n, maximum, marker, delimiter)
  {
    hide First;
    Advance(base, s, written, n);
  }

  lemma StartsProgress(s: Bytes, base: Bytes, maximum: Option<nat>, marker: Bytes, delimiter: bool)
    ensures Progress(s, base, s, base, 0, maximum, marker, delimiter)
  {
    assert s[..0] == [] && base + [] == base;
  }

  lemma MaximumHolds(s: Bytes, base: Bytes, rest: Bytes, data: Bytes, written: nat, maximum: Option<nat>,
                     marker: Bytes, delimiter: bool)
    requires Progress(s, base, rest, data, written, maximum, marker, delimiter)
    ensures maximum.Some? ==> written <= maximum.value
  {
  }

  /**
   * Why there is no cut: no match, or too much before it. Where there is no match and more than
   * `maximum` bytes, which of the two is met first depends on the reads.
   */
  predicate CutFails(s: Bytes, marker: Bytes, delimiter: bool, maximum: Option<nat>, error: Error) {
    var first := First(s, marker, delimiter);
    match error
    case BadRequest => first.None?
    case TooLarge => maximum.Some? && maximum.value < (if first.Some? then first.value else |s|)
  }

  /** What `until` answers: the one-shot cut, or the reason there is none. */
  ghost predicate UntilOk(s: Bytes, base: Bytes, rest: Bytes, data: Bytes, maximum: Option<nat>,
                          marker: Bytes, delimiter: bool, r: Result<(), Error>)
  {
    var cut := Cut(s, marker, delimiter, maximum);
    && (r.Ok? <==> cut.Some?)
    && (r.Ok? ==> data == base + cut.value.0 && rest == cut.value.1)
    && (r.Err? ==> CutFails(s, marker, delimiter, maximum, r.error))
  }

  lemma ProgressEnds(s: Bytes, base: Bytes, t: Bytes, rest: Bytes, before: Bytes, after: Bytes, written: nat,
                     maximum: Option<nat>, marker: Bytes, delimiter: bool, r: Result<Option<nat>, Error>)
    requires Progress(s, base, t, before, written, maximum, marker, delimiter)
    requires RoundOk(t, rest, before, after, written, maximum, marker, delimiter, r) && !(r.Ok? && r.value.Some?)
    ensures UntilOk(s, base, rest, after, maximum, marker, delimiter, if r.Ok? then Ok(()) else Err(r.error))
  {
    hide FirstFrom;
    var first := First(t, marker, delimiter);
    if r.Ok? {
      Advance(base, s, written, first.value);
      Advance(base, s, written, first.value + |marker|);
    }
  }

  // ---------------------------------------------------------------------
  // The streaming reader
  // ---------------------------------------------------------------------

  /** A readable body. Each read hands out the next piece, however the bytes were cut. */
  class Source {
    var chunks: seq<Bytes>

    constructor (chunks: seq<Bytes>)
      requires forall i :: 0 <= i < |chunks| ==> chunks[i] != []
      ensures this.chunks == chunks && Valid()
    {
      this.chunks := chunks;
    }

    ghost predicate Valid()
      reads this
    {
      forall i :: 0 <= i < |chunks| ==> chunks[i] != []
    }

    /** An empty result means, and only means, the end of the input. */
    method Read() returns (chunk: Bytes)
      requires Valid()
      modifies this
      ensures Valid()
      ensures old(chunks) == [] ==> chunk == [] && chunks == []
      ensures old(chunks) != [] ==> chunk == old(chunks)[0] != [] && chunks == old(chunks)[1..]
    {
      if chunks == [] {
        chunk := [];
      } else {
        chunk := chunks[0];
        chunks := chunks[1..];
      }
    }
  }

  /** BytesIO or a spooled temporary file: where a part's bytes go. */
  class Sink {
    var data: Bytes
    var closed: bool

    constructor ()
      ensures data == [] && !closed
    {
      data, closed := [], false;
    }

    method Write(value: Bytes)
      modifies this`data
      ensures data == old(data) + value
    {
      data := data + value;
    }

    method Close()
      modifies this`closed
      ensures closed
    {
      closed := true;
    }
  }

  /** The window after the look-ahead is long enough to decide the delimiter for the whole input. */
  lemma DecidedByWindow(buffer: Bytes, rest: Bytes, end: nat, eof: bool)
    requires end + 2 <= |buffer| && (eof ==> rest == [])
    requires buffer[end..end + 2] == DASHES ==> end + 4 <= |buffer| || eof
    ensures EndsDelimiter((buffer + rest)[end..]) ==
            if buffer[end..end + 2] == DASHES
            then Slice(buffer, end + 2, end + 4) == CRLF || (eof && |buffer| == end + 2)
            else buffer[end..end + 2] == CRLF
  {
    var after := (buffer + rest)[end..];
    assert after[..2] == buffer[end..end + 2];
    assert CRLF <= after <==> after[..2] == CRLF;
    assert DASHES <= after <==> after[..2] == DASHES;
    if end + 4 <= |buffer| {
      assert after[2..4] == buffer[end + 2..end + 4];
    }
  }

  class Reader {
    const source: Source
    var buffer: Bytes
    var eof: bool

    constructor (source: Source)
      requires source.Valid()
      ensures this.source == source && Valid() && Remaining() == Flatten(source.chunks)
    {
      this.source, buffer, eof := source, [], false;
    }

    ghost predicate Valid()
      reads this, source
    {
      source.Valid() && (eof ==> source.chunks == [])
    }

    /** Everything not consumed yet: the window and what the source still holds. */
    ghost function Remaining(): Bytes
      reads this, source
    {
      buffer + Flatten(source.chunks)
    }

    method Fill() returns (more: bool)
      requires Valid()
      modifies this`buffer, this`eof, source
      ensures Valid() && Remaining() == old(Remaining())
      ensures more == (old(source.chunks) != []) == !eof
      ensures old(buffer) <= buffer
      ensures more ==> |source.chunks| < |old(source.chunks)| && |buffer| > |old(buffer)|
      ensures !more ==> buffer == old(buffer) == Remaining() && source.chunks == []
    {
      var chunk := source.Read();
      eof := chunk == [];
      buffer := buffer + chunk;
      more := chunk != [];
      assert Remaining() == old(Remaining());
    }

    /** The look-ahead behind a candidate delimiter that ends at `end` of the window. */
    method Decide(end: nat) returns (r: Result<bool, Error>)
      requires Valid() && end <= |buffer|
      modifies this`buffer, this`eof, source
      ensures Valid() && Remaining() == old(Remaining()) && old(buffer) <= buffer
      ensures |source.chunks| <= |old(source.chunks)|
      ensures r.Ok? ==> r.value == EndsDelimiter(Remaining()[end..])
      ensures r.Err? ==> r.error == BadRequest && |Remaining()| < end + 2
    {
      while |buffer| < end + 2
        invariant Valid() && Remaining() == old(Remaining()) && old(buffer) <= buffer
        invariant |source.chunks| <= |old(source.chunks)|
        decreases |source.chunks|
      {
        var more := Fill();
        if !more {
          return Err(BadRequest);
        }
      }
      var valid := Slice(buffer, end, end + 2) == CRLF;
      if Slice(buffer, end, end + 2) == DASHES {
        while |buffer| < end + 4 && !eof
          invariant Valid() && Remaining() == old(Remaining()) && old(buffer) <= buffer
          invariant end + 2 <= |buffer| && buffer[end..end + 2] == DASHES
          invariant |source.chunks| <= |old(source.chunks)|
          decreases |source.chunks| + (if eof then 0 else 1)
        {
          var more := Fill();
        }
        valid := Slice(buffer, end + 2, end + 4) == CRLF || (eof && |buffer| == end + 2);
      }
      DecidedByWindow(buffer, Flatten(source.chunks), end, eof);
      r := Ok(valid);
    }

    /** The inner loops of `until`: the first match that starts and is decided in the window. */
    method Scan(marker: Bytes, delimiter: bool) returns (r: Result<Option<nat>, Error>)
      requires Valid()
      modifies this`buffer, this`eof, source
      ensures Valid() && Remaining() == old(Remaining())
      ensures |source.chunks| <= |old(source.chunks)|
      ensures var first := First(Remaining(), marker, delimiter); match r
        case Ok(Some(i)) => first == Some(i) && i + |marker| <= |buffer|
        case Ok(None) => first.None? || first.value + |marker| > |buffer|
        case Err(error) => first.None? && error == BadRequest
    {
      hide FirstFrom, Find, EndsDelimiter;
      ghost var s, first := Remaining(), First(Remaining(), marker, delimiter);
      var index := Find(buffer, marker, 0);
      Scanned(buffer, Flatten(source.chunks), marker, delimiter, 0);
      while index.Some?
        invariant Valid() && Remaining() == s
        invariant index.Some? ==> OccursAt(buffer, marker, index.value)
        invariant index.Some? ==> first == FirstFrom(s, marker, delimiter, index.value)
        invariant index.None? ==> first.None? || first.value + |marker| > |buffer|
        invariant |source.chunks| <= |old(source.chunks)|
        decreases if index.Some? then |s| + 1 - index.value else 0
      {
        ghost var window := buffer;
        var end := index.value + |marker|;
        var valid := true;
        if delimiter {
          var decision := Decide(end);
          if decision.Err? {
            TruncatedCandidate(s, marker, index.value);
            return Err(BadRequest);
          }
          valid := decision.value;
        }
        Candidate(buffer, Flatten(source.chunks), marker, delimiter, index.value, valid);
        if valid {
          return Ok(index);
        }
        var next := Find(buffer, marker, index.value + 1);
        Scanned(buffer, Flatten(source.chunks), marker, delimiter, index.value + 1);
        index := next;
      }
      r := Ok(None);
    }

    /** Moves `count` bytes of the window to `sink`, unless that exceeds `maximum`, and drops `skip` more. */
    method Emit(count: nat, skip: nat, sink: Sink, written: nat, maximum: Option<nat>) returns (ok: bool)
      requires count + skip <= |buffer|
      modifies this`buffer, sink`data
      ensures ok <==> maximum.Some? ==> written + count <= maximum.value
      ensures buffer == old(buffer)[count + skip..]
      ensures sink.data == if ok then old(sink.data) + old(buffer)[..count] else old(sink.data)
    {
      var value := buffer[..count];
      buffer := buffer[count + skip..];
      if maximum.Some? && written + |value| > maximum.value {
        return false;
      }
      sink.Write(value);
      return true;
    }

    /** The match is in the window: emit what precedes it, drop it, and be done. */
    method Finish(marker: Bytes, sink: Sink, written: nat, maximum: Option<nat>, delimiter: bool, index: nat)
      returns (r: Result<Option<nat>, Error>)
      requires Valid() && First(Remaining(), marker, delimiter) == Some(index) && index + |marker| <= |buffer|
      modifies this`buffer, sink`data
      ensures Valid() && !(r.Ok? && r.value.Some?)
      ensures RoundOk(old(Remaining()), Remaining(), old(sink.data), sink.data, written, maximum, marker, delimiter, r)
    {
      hide FirstFrom, First, Find, MatchAt, Flatten;
      var ok := Emit(index, |marker|, sink, written, maximum);
      r := if ok then Ok(None) else Err(TooLarge);
    }

    /** No match is decided yet: pass on all but the carry-over. */
    method PassOn(marker: Bytes, sink: Sink, written: nat, maximum: Option<nat>, delimiter: bool)
      returns (r: Result<nat, Error>)
      requires Valid() && (maximum.Some? ==> written <= maximum.value)
      requires var first := First(Remaining(), marker, delimiter); first.None? || first.value + |marker| > |buffer|
      modifies this`buffer, sink`data
      ensures Valid()
      ensures RoundOk(old(Remaining()), Remaining(), old(sink.data), sink.data, written, maximum, marker, delimiter,
                      if r.Ok? then Ok(Some(r.value)) else Err(r.error))
      ensures r.Ok? ==>
        var first := First(Remaining(), marker, delimiter);
        first.None? || first.value + |marker| > |buffer|
    {
      hide FirstFrom, First, Find, MatchAt, Flatten;
      ghost var t := Remaining();
      var keep, count := |marker| + 4, 0;
      FirstFits(t, marker, delimiter);
      if |buffer| > keep {
        count := |buffer| - keep;
        FirstAfterDrop(buffer, Flatten(source.chunks), marker, delimiter, count);
        var ok := Emit(count, 0, sink, written, maximum);
        if !ok {
          return Err(TooLarge);
        }
      } else {
        NothingTaken(t, sink.data);
      }
      r := Ok(count);
    }

    /**
     * One round of `until`'s outer loop: finish at the first match if the window decides it,
     * else pass on all but the carry-over and read more. Ok(Some(n)) says `n` bytes were passed on.
     */
    method Round(marker: Bytes, sink: Sink, written: nat, maximum: Option<nat>, delimiter: bool)
      returns (r: Result<Option<nat>, Error>)
      requires Valid() && (maximum.Some? ==> written <= maximum.value)
      modifies this`buffer, this`eof, source, sink`data
      ensures Valid()
      ensures RoundOk(old(Remaining()), Remaining(), old(sink.data), sink.data, written, maximum, marker, delimiter, r)
      ensures r.Ok? && r.value.Some? ==> |source.chunks| < |old(source.chunks)|
    {
      hide First, RoundOk, Flatten;
      ghost var t, before := Remaining(), sink.data;
      var scan := Scan(marker, delimiter);
      if scan.Err? {
        NoMatch(t, Remaining(), before, sink.data, written, maximum, marker, delimiter);
        return Err(BadRequest);
      }
      if scan.value.Some? {
        r := Finish(marker, sink, written, maximum, delimiter, scan.value.value);
        return;
      }
      var passed := PassOn(marker, sink, written, maximum, delimiter);
      if passed.Err? {
        return Err(passed.error);
      }
      ghost var left := Remaining();
      FirstFits(left, marker, delimiter);
      var more := Fill();
      if !more {
        NoMatchLeft(t, left, before, sink.data, written, maximum, marker, delimiter, passed.value);
        return Err(BadRequest);
      }
      r := Ok(Some(passed.value));
    }

    /**
     * `until`: moves everything before the first match to `sink` and drops the match.
     * Success, the bytes written and the bytes left are those of the one-shot search,
     * so they do not depend on how the source was cut.
     */
    method Until(marker: Bytes, sink: Sink, maximum: Option<nat>, delimiter: bool)
      returns (r: Result<(), Error>)
      requires Valid()
      modifies this`buffer, this`eof, source, sink`data
      ensures Valid()
      ensures UntilOk(old(Remaining()), old(sink.data), Remaining(), sink.data, maximum, marker, delimiter, r)
    {
      hide First, Remaining, RoundOk, Progress, UntilOk;
      ghost var s, base := Remaining(), sink.data;
      StartsProgress(s, base, maximum, marker, delimiter);
      var written: nat := 0;
      while true
        invariant Valid()
        invariant Progress(s, base, Remaining(), sink.data, written, maximum, marker, delimiter)
        invariant maximum.Some? ==> written <= maximum.value
        decreases |source.chunks|
      {
        ghost var t, before := Remaining(), sink.data;
        var round := Round(marker, sink, written, maximum, delimiter);
        if round.Ok? && round.value.Some? {
          ProgressMoves(s, base, t, Remaining(), before, sink.data, written, maximum, marker, delimiter,
                        round.value.value);
          written := written + round.value.value;
          MaximumHolds(s, base, Remaining(), sink.data, written, maximum, marker, delimiter);
        } else {
          ProgressEnds(s, base, t, Remaining(), before, sink.data, written, maximum, marker, delimiter, round);
          return if round.Ok? then Ok(()) else Err(round.error);
        }
      }
    }

    method Take(count: nat) returns (r: Result<Bytes, Error>)
      requires Valid()
      modifies this`buffer, this`eof, source
      ensures Valid()
      ensures r.Ok? <==> count <= |old(Remaining())|
      ensures r.Ok? ==> r.value == old(Remaining())[..count] && Remaining() == old(Remaining())[count..]
      ensures r.Err? ==> r.error == BadRequest
    {
      while |buffer| < count
        invariant Valid() && Remaining() == old(Remaining())
        decreases |source.chunks|
      {
        var more := Fill();
        if !more {
          return Err(BadRequest);
        }
      }
      r := Ok(buffer[..count]);
      buffer := buffer[count..];
    }
  }
}
