/**
 * Where request bodies are kept: the Rust server and the Python gateways each store a body whose
 * size is bounded, in memory up to a limit and in a temporary file beyond it. What either keeps
 * depends only on the bytes received, not on the pieces they came in. Reads may fail, and so may
 * the disk.
 */
module BodyStorage {
  import opened Wrappers
  import opened Bytes

  datatype Error = TooLarge | Incomplete | Invalid | ReadFailed | StorageFailed | Unexpected | Cancelled

  /** What a list of reads delivers before the first that fails. */
  function Received(pieces: seq<Option<Bytes>>): Bytes {
    if pieces == [] || pieces[0].None? then [] else pieces[0].value + Received(pieces[1..])
  }

  // ---------------------------------------------------------------------
  // The Rust server
  // ---------------------------------------------------------------------

  /** Operations on temporary files, counted; `fails` says which of them the system refuses. */
  class Disk {
    const fails: nat -> bool
    var done: nat
    ghost var refused: bool

    constructor (fails: nat -> bool)
      ensures this.fails == fails && !refused
    {
      this.fails, done, refused := fails, 0, false;
    }

    method Use() returns (ok: bool)
      modifies this
      ensures done == old(done) + 1 && ok == !fails(old(done)) && refused == (old(refused) || !ok)
    {
      ok := !fails(done);
      done, refused := done + 1, refused || !ok;
    }
  }

  class TempFile {
    var data: Bytes
    var position: nat

    constructor ()
      ensures data == [] && position == 0
    {
      data, position := [], 0;
    }

    method Append(value: Bytes)
      requires position == |data|
      modifies this
      ensures data == old(data) + value && position == |data|
    {
      data, position := data + value, position + |value|;
    }

    method Rewind()
      modifies this`position
      ensures position == 0
    {
      position := 0;
    }
  }

  const USIZE_MAX: nat := 0xFFFF_FFFF_FFFF_FFFF

  datatype StoredBody = StoredBody(memory: Bytes, file: TempFile?, size: nat)

  /** In memory or in a file, never in both. */
  function Held(memory: Bytes, file: TempFile?): Bytes
    reads file
  {
    if file == null then memory else file.data
  }

  /** The temporary file that takes over from memory, or null when the system refuses. */
  method Spill(memory: Bytes, disk: Disk) returns (file: TempFile?)
    modifies disk
    ensures disk.refused == (old(disk.refused) || file == null)
    ensures file != null ==> fresh(file) && file.data == memory && file.position == |memory|
  {
    file := null;
    var ok := disk.Use();
    if ok {
      var temporary := new TempFile();
      ok := disk.Use();
      if ok {
        temporary.Append(memory);
        file := temporary;
      }
    }
  }

  /**
   * `store_request_body`. Unless the disk refuses, a body is too large exactly when more bytes than
   * the maximum were received, whatever their pieces, and incomplete exactly when it is not too
   * large and a read failed. `peak` is the most that was ever held in memory.
   */
  method StoreRequestBody(pieces: seq<Option<Bytes>>, maximum: nat, memoryLimit: nat, disk: Disk)
    returns (r: Result<StoredBody, Error>, ghost peak: nat)
    requires maximum <= USIZE_MAX && !disk.refused
    modifies disk
    ensures disk.refused <==> r == Err(StorageFailed)
    ensures !disk.refused ==>
      && (r == Err(TooLarge) <==> |Received(pieces)| > maximum)
      && (r == Err(Incomplete) <==> |Received(pieces)| <= maximum && None in pieces)
      && (r.Ok? <==> |Received(pieces)| <= maximum && None !in pieces)
    ensures r.Ok? ==>
      var body := r.value;
      && Held(body.memory, body.file) == Received(pieces) && body.size == |Received(pieces)|
      && (body.file != null <==> body.size > memoryLimit)
      && (body.file != null ==> fresh(body.file) && body.memory == [] && body.file.position == 0)
    ensures peak <= memoryLimit
  {
    var memory, file: TempFile?, size := [], null, 0;
    var i := 0;
    peak := 0;
    while i < |pieces|
      invariant 0 <= i <= |pieces| && None !in pieces[..i] && !disk.refused
      invariant Held(memory, file) + Received(pieces[i..]) == Received(pieces)
      invariant size == |Held(memory, file)| <= maximum
      invariant file != null <==> size > memoryLimit
      invariant file != null ==> fresh(file) && memory == [] && file.position == |file.data|
      invariant |memory| <= memoryLimit && peak <= memoryLimit
    {
      assert pieces[i..][0] == pieces[i] && pieces[i..][1..] == pieces[i + 1..];
      if pieces[i].None? {
        return Err(Incomplete), peak;
      }
      var chunk := pieces[i].value;
      ghost var held := Held(memory, file);
      assert held + (chunk + Received(pieces[i + 1..])) == held + chunk + Received(pieces[i + 1..]);
      if size + |chunk| > USIZE_MAX {
        return Err(TooLarge), peak;
      }
      size := size + |chunk|;
      if size > maximum {
        return Err(TooLarge), peak;
      }
      if file == null && size > memoryLimit {
        file := Spill(memory, disk);
        if file == null {
          return Err(StorageFailed), peak;
        }
        memory := [];
      }
      if file != null {
        var ok := disk.Use();
        if !ok {
          return Err(StorageFailed), peak;
        }
        file.Append(chunk);
      } else {
        memory := memory + chunk;
        peak := |memory|;
      }
      assert pieces[..i + 1] == pieces[..i] + [pieces[i]];
      i := i + 1;
    }
    assert pieces[..i] == pieces && pieces[i..] == [];
    if file != null {
      var ok := disk.Use();
      if !ok {
        return Err(StorageFailed), peak;
      }
      ok := disk.Use();
      if !ok {
        return Err(StorageFailed), peak;
      }
      file.Rewind();
    }
    r := Ok(StoredBody(memory, file, size));
  }

  // ---------------------------------------------------------------------
  // The Python gateways
  // ---------------------------------------------------------------------

  /** What a write at a position makes of a file's bytes. */
  function Overwritten(data: Bytes, position: nat, value: Bytes): (r: Bytes)
    requires position <= |data|
    ensures |data| <= |r| <= |data| + |value| && position + |value| <= |r|
    ensures position == |data| ==> r == data + value
  {
    if position + |value| <= |data| then data[..position] + value + data[position + |value|..]
    else data[..position] + value
  }

  /** Python's `SpooledTemporaryFile`: it moves to disk when a write ends beyond `maxSize`. */
  class Spool {
    const maxSize: nat
    var data: Bytes
    var position: nat
    var rolled: bool
    var closed: bool

    constructor (maxSize: nat)
      ensures this.maxSize == maxSize && data == [] && position == 0 && !rolled && !closed
    {
      this.maxSize, data, position, rolled, closed := maxSize, [], 0, false, false;
    }

    method Write(value: Bytes)
      requires position <= |data|
      modifies this`data, this`position, this`rolled
      ensures data == Overwritten(old(data), old(position), value) && position == old(position) + |value|
      ensures rolled == (old(rolled) || position > maxSize)
    {
      data, position := Overwritten(data, position, value), position + |value|;
      rolled := rolled || position > maxSize;
    }

    /** `read(size)`: everything that is left for a negative size. */
    method Read(size: int) returns (value: Bytes)
      requires position <= |data|
      modifies this`position
      ensures position == old(position) + |value| <= |data| && value == data[old(position)..position]
      ensures position < |data| ==> 0 <= size == |value|
    {
      var end := if 0 <= size && position + size < |data| then position + size else |data|;
      value := data[position..end];
      position := end;
    }

    method Rewind()
      modifies this`position
      ensures position == 0
    {
      position := 0;
    }

    method Close()
      modifies this`closed
      ensures closed
    {
      closed := true;
    }
  }

  /** `wsgi.input`: what each read answers, None for one that raises; then nothing more. */
  class Input {
    var replies: seq<Option<Bytes>>

    constructor (replies: seq<Option<Bytes>>)
      ensures this.replies == replies
    {
      this.replies := replies;
    }

    method Read(size: nat) returns (r: Option<Bytes>)
      modifies this
      ensures r == if old(replies) == [] then Some([]) else old(replies)[0]
      ensures replies == if old(replies) == [] then [] else old(replies)[1..]
    {
      if replies == [] {
        r := Some([]);
      } else {
        r, replies := replies[0], replies[1..];
      }
    }
  }

  /** One event of an ASGI request; at the end of the list the task is cancelled. */
  datatype Event = Request(body: Bytes, more: bool) | Disconnect | Other

  datatype Ending = Finished | Gone | Misplaced | Stopped

  /** The body bytes that come before the event that ends the reception, and what that event is. */
  function Arrived(events: seq<Event>): (Bytes, Ending) {
    if events == [] then ([], Stopped)
    else if events[0].Disconnect? then ([], Gone)
    else if events[0].Other? then ([], Misplaced)
    else if !events[0].more then (events[0].body, Finished)
    else
      var (rest, ending) := Arrived(events[1..]);
      (events[0].body + rest, ending)
  }

  const READ_SIZE := 65536

  /** What is taken when `got` was taken before. */
  function Behind(got: Bytes, rest: Result<Bytes, Error>): Result<Bytes, Error> {
    if rest.Ok? then Ok(got + rest.value) else rest
  }

  /** The bytes the loop of `fill_from` takes with `remaining` still to come and `room` left. */
  function Taken(replies: seq<Option<Bytes>>, remaining: nat, exact: bool, room: nat): Result<Bytes, Error>
    decreases |replies|
  {
    if remaining == 0 then Ok([])
    else if replies == [] || replies[0] == Some([]) then if exact then Err(Incomplete) else Ok([])
    else if replies[0].None? then Err(ReadFailed)
    else
      var chunk := replies[0].value;
      if |chunk| > remaining then Err(Invalid)
      else if |chunk| > room then Err(TooLarge)
      else
        Behind(chunk, Taken(replies[1..], remaining - |chunk|, exact, room - |chunk|))
  }

  lemma BehindBehind(first: Bytes, second: Bytes, rest: Result<Bytes, Error>)
    ensures Behind(first, Behind(second, rest)) == Behind(first + second, rest)
    ensures Behind([], rest) == rest
  {
    if rest.Ok? {
      assert first + (second + rest.value) == first + second + rest.value;
      assert [] + rest.value == rest.value;
    }
  }

  /** The next reply decides how the loop goes on. */
  lemma TakenUnfolds(got: Bytes, replies: seq<Option<Bytes>>, remaining: nat, exact: bool, room: nat)
    ensures var spec := Behind(got, Taken(replies, remaining, exact, room));
      var reply := if replies == [] then Some([]) else replies[0];
      && (remaining == 0 ==> spec == Ok(got))
      && (remaining > 0 && reply.None? ==> spec == Err(ReadFailed))
      && (remaining > 0 && reply == Some([]) ==> spec == if exact then Err(Incomplete) else Ok(got))
      && (remaining > 0 && reply.Some? && |reply.value| > remaining ==> spec == Err(Invalid))
      && (remaining > 0 && reply.Some? && room < |reply.value| <= remaining ==> spec == Err(TooLarge))
      && (remaining > 0 && reply.Some? && 0 < |reply.value| <= remaining && |reply.value| <= room ==>
          spec == Behind(got + reply.value,
                         Taken(replies[1..], remaining - |reply.value|, exact, room - |reply.value|)))
  {
    assert got + [] == got;
    if replies != [] && replies[0].Some? && |replies[0].value| <= remaining && |replies[0].value| <= room {
      var n := |replies[0].value|;
      BehindBehind(got, replies[0].value, Taken(replies[1..], remaining - n, exact, room - n));
    }
  }

  class BodyBuffer {
    const maximum: nat
    const memoryLimit: nat
    const file: Spool
    var size: nat

    constructor (maximum: nat, memoryLimit: nat)
      requires maximum > 0 && memoryLimit > 0
      ensures Appending() && size == 0 && fresh(file)
      ensures this.maximum == maximum && this.memoryLimit == memoryLimit
    {
      this.maximum, this.memoryLimit, size := maximum, memoryLimit, 0;
      file := new Spool(memoryLimit);
    }

    /** The buffer never holds more than its maximum, and nothing is on disk that fits the limit. */
    ghost predicate Valid()
      reads this, file
    {
      && file.maxSize == memoryLimit
      && file.position <= |file.data| <= size <= maximum
      && (file.rolled ==> size > memoryLimit)
    }

    /** `rolled_to_disk` compares sizes only. */
    predicate RolledToDisk()
      reads this
    {
      size > memoryLimit
    }

    /** Holding exactly the bytes written, on disk exactly when `rolled_to_disk` says so. */
    ghost predicate Whole()
      reads this, file
    {
      Valid() && |file.data| == size && !file.closed && (file.rolled <==> RolledToDisk())
    }

    ghost predicate Appending()
      reads this, file
    {
      Whole() && file.position == size
    }

    /** A write that would exceed the maximum changes nothing. */
    method Write(value: Bytes) returns (ok: bool)
      requires Valid()
      modifies this, file`data, file`position, file`rolled
      ensures Valid() && (ok <==> old(size) + |value| <= maximum)
      ensures size == old(size) + if ok then |value| else 0
      ensures !ok ==> file.data == old(file.data) && file.position == old(file.position)
      ensures ok ==> file.data == Overwritten(old(file.data), old(file.position), value)
      ensures old(Appending()) ==> Appending()
    {
      ok := size + |value| <= maximum;
      if ok {
        file.Write(value);
        size := size + |value|;
      }
    }

    /**
     * `fill_from`: the body is what `Taken` says of the input's replies, rewound; a failure of any
     * kind leaves the storage closed.
     */
    method FillFrom(source: Input, length: Option<nat>, terminated: bool) returns (failure: Option<Error>)
      requires Appending()
      modifies this, file, source
      ensures var remaining := if length.Some? then length.value else if terminated then maximum + 1 else 0;
        var spec := Taken(old(source.replies), remaining, length.Some?, maximum - old(size));
        && failure == (if spec.Ok? then None else Some(spec.error))
        && (spec.Ok? ==> Whole() && file.position == 0 && file.data == old(file.data) + spec.value)
      ensures failure.Some? ==> file.closed
    {
      hide Taken, Behind, Overwritten;
      var remaining: nat := if length.Some? then length.value else if terminated then maximum + 1 else 0;
      ghost var spec, got := Taken(source.replies, remaining, length.Some?, maximum - size), [];
      BehindBehind([], [], spec);
      while remaining > 0
        invariant Appending() && file.data == old(file.data) + got
        invariant spec == Behind(got, Taken(source.replies, remaining, length.Some?, maximum - size))
        decreases remaining
      {
        ghost var replies, room := source.replies, maximum - size;
        TakenUnfolds(got, replies, remaining, length.Some?, room);
        var chunk := source.Read(if remaining < READ_SIZE then remaining else READ_SIZE);
        if chunk.None? {
          file.Close();
          return Some(ReadFailed);
        }
        if chunk.value == [] {
          if length.Some? {
            file.Close();
            return Some(Incomplete);
          }
          break;
        }
        if |chunk.value| > remaining {
          file.Close();
          return Some(Invalid);
        }
        var ok := Write(chunk.value);
        if !ok {
          file.Close();
          return Some(TooLarge);
        }
        remaining := remaining - |chunk.value|;
        got := got + chunk.value;
      }
      if remaining == 0 {
        TakenUnfolds(got, source.replies, remaining, length.Some?, maximum - size);
      }
      file.Rewind();
      failure := None;
    }

    /**
     * `receive_body`: true with the whole body, rewound, exactly when the events end well and their
     * bytes fit; in every other case the storage is closed.
     */
    method ReceiveBody(events: seq<Event>) returns (r: Result<bool, Error>)
      requires Appending()
      modifies this, file
      ensures var (body, ending) := Arrived(events);
        && r == (if old(size) + |body| > maximum then Err(TooLarge)
                 else match ending
                   case Finished => Ok(true)
                   case Gone => Ok(false)
                   case Misplaced => Err(Unexpected)
                   case Stopped => Err(Cancelled))
        && (r == Ok(true) ==> Whole() && file.position == 0 && file.data == old(file.data) + body)
        && (r != Ok(true) ==> file.closed)
    {
      ghost var body, ending := Arrived(events).0, Arrived(events).1;
      var i := 0;
      while i < |events|
        invariant 0 <= i <= |events| && Appending() && ending == Arrived(events[i..]).1
        invariant file.data + Arrived(events[i..]).0 == old(file.data) + body
      {
        var event := events[i];
        assert events[i..][0] == event && events[i..][1..] == events[i + 1..];
        if event.Disconnect? {
          file.Close();
          return Ok(false);
        }
        if event.Other? {
          file.Close();
          return Err(Unexpected);
        }
        ghost var before := file.data;
        var ok := Write(event.body);
        if !ok {
          assert |before| + |Arrived(events[i..]).0| == old(size) + |body|;
          file.Close();
          return Err(TooLarge);
        }
        if !event.more {
          file.Rewind();
          return Ok(true);
        }
        assert before + (event.body + Arrived(events[i + 1..]).0) == file.data + Arrived(events[i + 1..]).0;
        i := i + 1;
      }
      file.Close();
      r := Err(Cancelled);
    }
  }

  // ---------------------------------------------------------------------
  // What `fill_from` takes
  // ---------------------------------------------------------------------

  /** The bytes before the reply that ends the input: an empty one, or a read that fails. */
  function Available(replies: seq<Option<Bytes>>): Bytes {
    if replies == [] || replies[0].None? || replies[0].value == [] then []
    else replies[0].value + Available(replies[1..])
  }

  predicate EndsInFailure(replies: seq<Option<Bytes>>) {
    replies != [] && (replies[0].None? || (replies[0].value != [] && EndsInFailure(replies[1..])))
  }

  /** No reply is longer than what was asked for. */
  predicate Honest(replies: seq<Option<Bytes>>, remaining: nat)
    decreases |replies|
  {
    if remaining == 0 || replies == [] || replies[0].None? then true
    else
      var n := |replies[0].value|;
      n <= remaining && n <= READ_SIZE && Honest(replies[1..], remaining - n)
  }

  /**
   * From an honest input the outcome depends on the bytes only: what is taken is the first
   * `remaining` bytes there are; it is refused as too large exactly when these exceed the room, and
   * as incomplete exactly when an announced length is not reached.
   */
  lemma {:induction false} TakenFromHonest(replies: seq<Option<Bytes>>, remaining: nat, exact: bool, room: nat)
    requires Honest(replies, remaining)
    ensures var all := Available(replies);
      var got := if |all| <= remaining then all else all[..remaining];
      Taken(replies, remaining, exact, room) ==
        if |got| > room then Err(TooLarge)
        else if |got| == remaining then Ok(got)
        else if EndsInFailure(replies) then Err(ReadFailed)
        else if exact then Err(Incomplete)
        else Ok(got)
    decreases |replies|
  {
    if remaining > 0 && replies != [] && replies[0].Some? && replies[0].value != [] {
      var chunk := replies[0].value;
      var all, rest := Available(replies), Available(replies[1..]);
      if |chunk| <= room {
        TakenFromHonest(replies[1..], remaining - |chunk|, exact, room - |chunk|);
      }
      if |all| > remaining {
        assert all[..remaining] == chunk + rest[..remaining - |chunk|];
      }
    }
  }

  /** Whatever the input does, an announced length is met exactly, and the maximum is never exceeded. */
  lemma {:induction false} TakenIsBounded(replies: seq<Option<Bytes>>, remaining: nat, exact: bool, room: nat)
    requires Taken(replies, remaining, exact, room).Ok?
    ensures var got := Taken(replies, remaining, exact, room).value;
      |got| <= room && |got| <= remaining && (exact ==> |got| == remaining) && got <= Available(replies)
    decreases |replies|
  {
    if remaining > 0 && replies != [] && replies[0] != Some([]) {
      var chunk := replies[0].value;
      TakenIsBounded(replies[1..], remaining - |chunk|, exact, room - |chunk|);
    }
  }

  /** With neither a length nor a terminated input nothing is read; a terminated one is read to its end. */
  lemma TerminatedIsWhole(replies: seq<Option<Bytes>>, maximum: nat)
    requires Honest(replies, maximum + 1)
    ensures var spec := Taken(replies, maximum + 1, false, maximum);
      && (spec.Ok? <==> |Available(replies)| <= maximum && !EndsInFailure(replies))
      && (spec.Ok? ==> spec.value == Available(replies))
      && (spec == Err(TooLarge) <==> |Available(replies)| > maximum)
  {
    TakenFromHonest(replies, maximum + 1, false, maximum);
  }
}
