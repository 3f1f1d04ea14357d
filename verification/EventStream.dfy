/**
 * Server-sent events: the encoder, and the parser of section 9.2 of the WHATWG HTML standard that
 * reads its output. Text stands for its UTF-8 bytes. The encoder splits data where Python breaks
 * lines, the parser where the standard does, so data comes back as it was sent only if the two
 * agree on it.
 */
module EventStream {
  import opened Wrappers
  import opened Patterns
  import opened Rules
  import RouteBuild
  import Sequences

  /** An event to send; the data is text already, or JSON written as text. */
  datatype Event = Event(data: string, name: Option<string>, id: Option<string>, retry: Option<int>,
                         comment: Option<string>)

  // ---------------------------------------------------------------------
  // Python's lines
  // ---------------------------------------------------------------------

  /** The breaks other than a line feed. */
  predicate Odd(c: char) {
    '\U{B}' <= c <= '\U{D}' || '\U{1C}' <= c <= '\U{1E}' || c == '\U{85}' || c == '\U{2028}' || c == '\U{2029}'
  }

  /** Where `str.splitlines` breaks. */
  predicate Breaks(c: char) {
    c == '\n' || Odd(c)
  }

  function FirstBreak(text: string): (r: Option<nat>)
    ensures r.Some? ==> r.value < |text| && Breaks(text[r.value]) && forall i :: 0 <= i < r.value ==> !Breaks(text[i])
    ensures r.None? ==> forall i :: 0 <= i < |text| ==> !Breaks(text[i])
  {
    if text == "" then None
    else if Breaks(text[0]) then Some(0)
    else
      var rest := FirstBreak(text[1..]);
      if rest.None? then None else Some(rest.value + 1)
  }

  /** `text.splitlines()`. */
  function SplitLines(text: string): seq<string>
    decreases |text|
  {
    var i := FirstBreak(text);
    if text == "" then []
    else if i.None? then [text]
    else
      var width := if text[i.value] == '\r' && i.value + 1 < |text| && text[i.value + 1] == '\n' then 2 else 1;
      [text[..i.value]] + SplitLines(text[i.value + width..])
  }

  /** `text.splitlines() or [""]`. */
  function Lines(text: string): seq<string> {
    if SplitLines(text) == [] then [""] else SplitLines(text)
  }

  function JoinLines(lines: seq<string>): string {
    if lines == [] then "" else if |lines| == 1 then lines[0] else lines[0] + "\n" + JoinLines(lines[1..])
  }

  lemma {:induction false} LinesHoldNoBreak(text: string, line: string)
    requires line in SplitLines(text)
    ensures forall c | c in line :: !Breaks(c)
    decreases |text|
  {
    var i := FirstBreak(text);
    if i.Some? && line != text[..i.value] {
      var width := if text[i.value] == '\r' && i.value + 1 < |text| && text[i.value + 1] == '\n' then 2 else 1;
      LinesHoldNoBreak(text[i.value + width..], line);
    }
  }

  // ---------------------------------------------------------------------
  // The encoder
  // ---------------------------------------------------------------------

  /** `_sse_single_line` accepts the text. */
  predicate SingleLine(text: string) {
    '\r' !in text && '\n' !in text && '\0' !in text
  }

  predicate Encodable(e: Event) {
    && (e.name.Some? ==> SingleLine(e.name.value))
    && (e.id.Some? ==> SingleLine(e.id.value))
    && (e.retry.Some? ==> e.retry.value >= 0)
  }

  function Prefixed(prefix: string, lines: seq<string>): seq<string> {
    if lines == [] then [] else Prefixed(prefix, lines[..|lines| - 1]) + [prefix + lines[|lines| - 1]]
  }

  /** The lines of the part of an event before its data. */
  function HeadLines(e: Event): seq<string> {
    (if e.comment.Some? then Prefixed(": ", Lines(e.comment.value)) else [])
    + (if e.name.Some? then ["event: " + e.name.value] else [])
    + (if e.id.Some? then ["id: " + e.id.value] else [])
    + (if e.retry.Some? then ["retry: " + RouteBuild.IntText(e.retry.value)] else [])
  }

  /** The lines of an event, before the empty one that ends it. */
  function EventLines(e: Event): seq<string> {
    HeadLines(e) + Prefixed("data: ", Lines(e.data))
  }

  /** Every line, ended by a line feed. */
  function Ended(lines: seq<string>): string {
    if lines == [] then "" else lines[0] + "\n" + Ended(lines[1..])
  }

  function Encoded(e: Event): string {
    Ended(EventLines(e)) + "\n"
  }

  lemma {:induction false} JoinedIsEnded(lines: seq<string>)
    requires lines != []
    ensures JoinLines(lines) + "\n" == Ended(lines)
  {
    if |lines| > 1 {
      JoinedIsEnded(lines[1..]);
      Sequences.Assoc(lines[0] + "\n", JoinLines(lines[1..]), "\n");
    } else {
      assert Ended(lines[1..]) == "";
    }
  }

  method Extend(lines: seq<string>, prefix: string, more: seq<string>) returns (r: seq<string>)
    ensures r == lines + Prefixed(prefix, more)
  {
    r := lines;
    assert more[..0] == [];
    Sequences.Nil(lines);
    for i := 0 to |more|
      invariant r == lines + Prefixed(prefix, more[..i])
    {
      assert more[..i + 1][..i] == more[..i];
      Sequences.Assoc(lines, Prefixed(prefix, more[..i]), [prefix + more[i]]);
      r := r + [prefix + more[i]];
    }
    assert more[..|more|] == more;
  }

  lemma DataIsLast(e: Event)
    ensures EventLines(e) != []
  {
  }

  /** `encode`; None is its ValueError. */
  method Encode(e: Event) returns (r: Option<string>)
    ensures r == if Encodable(e) then Some(Encoded(e)) else None
    ensures r.None? <==>
      || (e.name.Some? && ('\r' in e.name.value || '\n' in e.name.value || '\0' in e.name.value))
      || (e.id.Some? && ('\r' in e.id.value || '\n' in e.id.value || '\0' in e.id.value))
      || (e.retry.Some? && e.retry.value < 0)
  {
    hide Lines, Prefixed;
    var lines: seq<string> := [];
    if e.comment.Some? {
      lines := Extend(lines, ": ", Lines(e.comment.value));
    }
    if e.name.Some? {
      if !SingleLine(e.name.value) {
        return None;
      }
      lines := lines + ["event: " + e.name.value];
    }
    if e.id.Some? {
      if !SingleLine(e.id.value) {
        return None;
      }
      lines := lines + ["id: " + e.id.value];
    }
    if e.retry.Some? {
      if e.retry.value < 0 {
        return None;
      }
      lines := lines + ["retry: " + RouteBuild.IntText(e.retry.value)];
    }
    lines := Extend(lines, "data: ", Lines(e.data));
    assert lines == EventLines(e);
    DataIsLast(e);
    JoinedIsEnded(lines);
    Sequences.Assoc(JoinLines(lines), "\n", "\n");
    assert "\n" + "\n" == "\n\n";
    r := Some(JoinLines(lines) + "\n\n");
  }

  // ---------------------------------------------------------------------
  // The parser of the standard
  // ---------------------------------------------------------------------

  datatype Message = Message(name: string, data: string, lastId: string)

  /** The parser's buffers, and what it has dispatched. */
  datatype Reader = Reader(data: string, name: string, lastId: string, retry: Option<int>, messages: seq<Message>)

  /** A line ends at a line feed, a carriage return, or both. */
  function LineEnd(text: string): (r: Option<nat>)
    ensures r.Some? ==>
      && r.value < |text| && text[r.value] in {'\n', '\r'}
      && forall i :: 0 <= i < r.value ==> text[i] !in {'\n', '\r'}
    ensures r.None? ==> forall i :: 0 <= i < |text| ==> text[i] !in {'\n', '\r'}
  {
    if text == "" then None
    else if text[0] in {'\n', '\r'} then Some(0)
    else
      var rest := LineEnd(text[1..]);
      if rest.None? then None else Some(rest.value + 1)
  }

  function Dispatch(r: Reader): Reader {
    if r.data == "" then r.(name := "")
    else
      r.(data := "", name := "",
         messages := r.messages
           + [Message(if r.name == "" then "message" else r.name, r.data[..|r.data| - 1], r.lastId)])
  }

  function Field(r: Reader, field: string, value: string): Reader {
    match field
    case "event" => r.(name := value)
    case "data" => r.(data := r.data + value + "\n")
    case "id" => if '\0' in value then r else r.(lastId := value)
    case "retry" => if IsAsciiDigits(value) then r.(retry := Some(DigitsValue(value))) else r
    case _ => r
  }

  function Line(r: Reader, line: string): Reader {
    if line == "" then Dispatch(r)
    else if line[0] == ':' then r
    else
      var colon := IndexOf(line, ':');
      if colon.None? then Field(r, line, "")
      else
        var value := line[colon.value + 1..];
        Field(r, line[..colon.value], if value != "" && value[0] == ' ' then value[1..] else value)
  }

  /** What is read from a text; an unfinished last line is dropped. */
  function Read(r: Reader, text: string): Reader
    decreases |text|
  {
    var i := LineEnd(text);
    if i.None? then r
    else
      var width := if text[i.value] == '\r' && i.value + 1 < |text| && text[i.value + 1] == '\n' then 2 else 1;
      Read(Line(r, text[..i.value]), text[i.value + width..])
  }

  lemma {:induction false} ReadsLine(r: Reader, line: string, rest: string)
    requires '\r' !in line && '\n' !in line
    ensures Read(r, line + "\n" + rest) == Read(Line(r, line), rest)
  {
    var text := line + "\n" + rest;
    var i := LineEnd(text);
    assert text[|line|] == '\n';
    assert forall k :: 0 <= k < |line| ==> text[k] == line[k] && line[k] in line;
    assert i == Some(|line|);
    assert text[..|line|] == line && text[|line| + 1..] == rest;
  }

  function ReadAll(r: Reader, lines: seq<string>): Reader
    decreases |lines|
  {
    if lines == [] then r else ReadAll(Line(r, lines[0]), lines[1..])
  }

  /** Lines the parser takes as they are. */
  predicate PlainLines(lines: seq<string>) {
    forall i :: 0 <= i < |lines| ==> '\r' !in lines[i] && '\n' !in lines[i]
  }

  lemma {:induction false} ReadsEnded(r: Reader, lines: seq<string>, rest: string)
    requires PlainLines(lines)
    ensures Read(r, Ended(lines) + rest) == Read(ReadAll(r, lines), rest)
    decreases |lines|
  {
    hide Read;
    if lines == [] {
      Sequences.Nil(rest);
    } else {
      Sequences.Assoc(lines[0] + "\n", Ended(lines[1..]), rest);
      ReadsLine(r, lines[0], Ended(lines[1..]) + rest);
      ReadsEnded(Line(r, lines[0]), lines[1..], rest);
    }
  }

  lemma {:induction false} ReadAllAppend(r: Reader, a: seq<string>, b: seq<string>)
    ensures ReadAll(r, a + b) == ReadAll(ReadAll(r, a), b)
    decreases |a|
  {
    hide Line;
    if a == [] {
      Sequences.Nil(b);
    } else {
      Sequences.HeadTail(a, b);
      ReadAllAppend(Line(r, a[0]), a[1..], b);
    }
  }

  // ---------------------------------------------------------------------
  // Reading an encoded event
  // ---------------------------------------------------------------------

  /** What an event leaves the parser with. */
  function After(r: Reader, e: Event): Reader {
    var lastId := if e.id.Some? then e.id.value else r.lastId;
    Reader("", "", lastId, if e.retry.Some? then e.retry else r.retry,
           r.messages + [Message(if e.name.None? || e.name.value == "" then "message" else e.name.value,
                                 JoinLines(Lines(e.data)), lastId)])
  }

  lemma FieldLine(r: Reader, field: string, value: string)
    requires field != "" && ':' !in field
    ensures Line(r, field + ": " + value) == Field(r, field, value)
  {
    hide Field;
    var line := field + ": " + value;
    assert line[|field|] == ':';
    assert forall k :: 0 <= k < |field| ==> line[k] == field[k] && field[k] in field;
    assert IndexOf(line, ':') == Some(|field|);
    assert line[..|field|] == field;
    var rest := line[|field| + 1..];
    assert rest == " " + value && rest[1..] == value;
  }

  lemma {:induction false} CommentsIgnored(r: Reader, lines: seq<string>)
    ensures ReadAll(r, Prefixed(": ", lines)) == r
  {
    if lines != [] {
      var front, last := lines[..|lines| - 1], lines[|lines| - 1];
      CommentsIgnored(r, front);
      ReadAllAppend(r, Prefixed(": ", front), [": " + last]);
    }
  }

  lemma {:induction false} EndedOneMore(lines: seq<string>, line: string)
    ensures Ended(lines + [line]) == Ended(lines) + line + "\n"
    decreases |lines|
  {
    if lines == [] {
      Sequences.Nil([line]);
      assert Ended([line][1..]) == "";
    } else {
      Sequences.HeadTail(lines, [line]);
      EndedOneMore(lines[1..], line);
      Sequences.Assoc(lines[0] + "\n", Ended(lines[1..]), line);
      Sequences.Assoc(lines[0] + "\n", Ended(lines[1..]) + line, "\n");
    }
  }

  lemma {:induction false} DataGathered(r: Reader, lines: seq<string>)
    ensures ReadAll(r, Prefixed("data: ", lines)) == r.(data := r.data + Ended(lines))
  {
    hide Line;
    if lines == [] {
      Sequences.Nil(r.data);
    } else {
      var front, last := lines[..|lines| - 1], lines[|lines| - 1];
      var t := r.(data := r.data + Ended(front));
      DataGathered(r, front);
      ReadAllAppend(r, Prefixed("data: ", front), ["data: " + last]);
      FieldLine(t, "data", last);
      assert "data" + ": " == "data: ";
      Sequences.SnocIs(lines);
      EndedOneMore(front, last);
      Sequences.Assoc(r.data, Ended(front), last);
      Sequences.Assoc(r.data, Ended(front) + last, "\n");
    }
  }

  lemma {:induction false} ReadsOptional(r: Reader, field: string, value: Option<string>)
    requires field != "" && ':' !in field
    ensures ReadAll(r, if value.Some? then [field + ": " + value.value] else []) ==
      if value.Some? then Field(r, field, value.value) else r
  {
    if value.Some? {
      FieldLine(r, field, value.value);
    }
  }

  lemma {:induction false} NoLines(r: Reader, prefix: string)
    ensures Prefixed(prefix, []) == [] && ReadAll(r, []) == r
  {
  }

  lemma {:induction false} ReadsHead(r: Reader, e: Event)
    requires Encodable(e)
    ensures ReadAll(r, HeadLines(e)) ==
      Reader(r.data, if e.name.Some? then e.name.value else r.name, if e.id.Some? then e.id.value else r.lastId,
             if e.retry.Some? then e.retry else r.retry, r.messages)
  {
    hide ReadAll, Lines, Prefixed;
    var comment := if e.comment.Some? then Prefixed(": ", Lines(e.comment.value)) else [];
    var name := if e.name.Some? then ["event: " + e.name.value] else [];
    var id := if e.id.Some? then ["id: " + e.id.value] else [];
    var retry := if e.retry.Some? then ["retry: " + RouteBuild.IntText(e.retry.value)] else [];
    ReadAllAppend(r, comment + name + id, retry);
    ReadAllAppend(r, comment + name, id);
    ReadAllAppend(r, comment, name);
    CommentsIgnored(r, if e.comment.Some? then Lines(e.comment.value) else []);
    NoLines(r, ": ");
    assert "event" + ": " == "event: " && "id" + ": " == "id: " && "retry" + ": " == "retry: ";
    ReadsOptional(r, "event", e.name);
    var named := if e.name.Some? then r.(name := e.name.value) else r;
    ReadsOptional(named, "id", e.id);
    var known := if e.id.Some? then named.(lastId := e.id.value) else named;
    var wait := if e.retry.Some? then Some(RouteBuild.IntText(e.retry.value)) else None;
    ReadsOptional(known, "retry", wait);
    if e.retry.Some? {
      RouteBuild.DigitsRead(e.retry.value);
    }
  }

  lemma PlainAppend(a: seq<string>, b: seq<string>)
    requires PlainLines(a) && PlainLines(b)
    ensures PlainLines(a + b)
  {
  }

  lemma {:induction false} PrefixedPlain(prefix: string, lines: seq<string>)
    requires '\r' !in prefix && '\n' !in prefix && PlainLines(lines)
    ensures PlainLines(Prefixed(prefix, lines))
  {
    if lines != [] {
      PrefixedPlain(prefix, lines[..|lines| - 1]);
      PlainAppend(Prefixed(prefix, lines[..|lines| - 1]), [prefix + lines[|lines| - 1]]);
    }
  }

  lemma LinesPlain(text: string)
    ensures Lines(text) != [] && PlainLines(Lines(text))
  {
    forall line | line in SplitLines(text) ensures '\r' !in line && '\n' !in line {
      LinesHoldNoBreak(text, line);
    }
  }

  lemma SinglePlain(e: Event)
    requires Encodable(e)
    ensures PlainLines([])
    ensures e.name.Some? ==> PlainLines(["event: " + e.name.value])
    ensures e.id.Some? ==> PlainLines(["id: " + e.id.value])
    ensures e.retry.Some? ==> PlainLines(["retry: " + RouteBuild.IntText(e.retry.value)])
  {
    if e.retry.Some? {
      RouteBuild.IntTextRead(e.retry.value);
    }
  }

  lemma HeadLinesPlain(e: Event)
    requires Encodable(e)
    ensures PlainLines(HeadLines(e))
  {
    hide Lines, Prefixed;
    var comment := if e.comment.Some? then Prefixed(": ", Lines(e.comment.value)) else [];
    var name := if e.name.Some? then ["event: " + e.name.value] else [];
    var id := if e.id.Some? then ["id: " + e.id.value] else [];
    var retry := if e.retry.Some? then ["retry: " + RouteBuild.IntText(e.retry.value)] else [];
    if e.comment.Some? {
      LinesPlain(e.comment.value);
      PrefixedPlain(": ", Lines(e.comment.value));
    }
    if e.retry.Some? {
      RouteBuild.IntTextRead(e.retry.value);
    }
    hide PlainLines;
    SinglePlain(e);
    PlainAppend(comment, name);
    PlainAppend(comment + name, id);
    PlainAppend(comment + name + id, retry);
  }

  lemma EventLinesPlain(e: Event)
    requires Encodable(e)
    ensures PlainLines(EventLines(e))
  {
    hide Lines, Prefixed, PlainLines;
    LinesPlain(e.data);
    PrefixedPlain("data: ", Lines(e.data));
    HeadLinesPlain(e);
    PlainAppend(HeadLines(e), Prefixed("data: ", Lines(e.data)));
  }

  /** Reading an encoded event dispatches exactly one message. */
  lemma {:induction false} ReadsEvent(r: Reader, e: Event, rest: string)
    requires Encodable(e) && r.data == "" && r.name == ""
    ensures Read(r, Encoded(e) + rest) == Read(After(r, e), rest)
  {
    hide Read, ReadAll, Lines, Prefixed, Ended, JoinLines;
    EventLinesPlain(e);
    Sequences.Assoc(Ended(EventLines(e)), "\n", rest);
    ReadsEnded(r, EventLines(e), "\n" + rest);
    ReadAllAppend(r, HeadLines(e), Prefixed("data: ", Lines(e.data)));
    ReadsHead(r, e);
    var head := ReadAll(r, HeadLines(e));
    DataGathered(head, Lines(e.data));
    Sequences.Nil(Ended(Lines(e.data)));
    var full := head.(data := Ended(Lines(e.data)));
    ReadsLine(full, "", rest);
    Sequences.Nil("\n");
    LinesPlain(e.data);
    JoinedIsEnded(Lines(e.data));
    Sequences.FrontLast(JoinLines(Lines(e.data)), '\n');
  }

  function EncodedAll(events: seq<Event>): string {
    if events == [] then "" else Encoded(events[0]) + EncodedAll(events[1..])
  }

  function AfterAll(r: Reader, events: seq<Event>): Reader
    decreases |events|
  {
    if events == [] then r else AfterAll(After(r, events[0]), events[1..])
  }

  /** A stream of encoded events reads as those events, one message each, in order. */
  lemma {:induction false} ReadsStream(r: Reader, events: seq<Event>)
    requires r.data == "" && r.name == "" && forall e :: e in events ==> Encodable(e)
    ensures Read(r, EncodedAll(events)) == AfterAll(r, events)
    decreases |events|
  {
    hide Encoded, Encodable, Lines, JoinLines;
    if events == [] {
      assert LineEnd("").None?;
    } else {
      assert events[0] in events;
      ReadsEvent(r, events[0], EncodedAll(events[1..]));
      ReadsStream(After(r, events[0]), events[1..]);
    }
  }

  // ---------------------------------------------------------------------
  // Which data comes back unchanged
  // ---------------------------------------------------------------------

  lemma {:induction false} JoinedHoldsNoOdd(lines: seq<string>)
    requires forall line :: line in lines ==> forall c | c in line :: !Breaks(c)
    ensures forall c | c in JoinLines(lines) :: !Odd(c)
  {
    if |lines| > 1 {
      assert lines[0] in lines;
      assert forall line :: line in lines[1..] ==> line in lines;
      JoinedHoldsNoOdd(lines[1..]);
    } else if |lines| == 1 {
      assert lines[0] in lines;
    }
  }

  lemma {:induction false} FirstFeed(text: string, i: nat)
    requires FirstBreak(text) == Some(i) && text[i] == '\n'
    ensures SplitLines(text) == [text[..i]] + SplitLines(text[i + 1..])
    ensures text == text[..i] + "\n" + text[i + 1..]
  {
  }

  lemma {:induction false} NoFeed(text: string)
    requires text == "" || FirstBreak(text).None?
    ensures SplitLines(text) == (if text == "" then [] else [text])
  {
  }

  /** Where only line feeds break, joining the lines restores all but a last line feed. */
  lemma {:induction false} FeedsRejoin(text: string)
    requires text != "" && forall c | c in text :: !Odd(c)
    ensures SplitLines(text) != []
    ensures JoinLines(SplitLines(text)) == if text[|text| - 1] == '\n' then text[..|text| - 1] else text
    decreases |text|
  {
    hide SplitLines;
    var i := FirstBreak(text);
    if i.None? {
      NoFeed(text);
      assert text[|text| - 1] != '\n';
    } else {
      assert text[i.value] in text && text[i.value] == '\n';
      var head, rest := text[..i.value], text[i.value + 1..];
      FirstFeed(text, i.value);
      if rest == "" {
        NoFeed(rest);
        Sequences.Nil([head]);
        Sequences.Nil(head + "\n");
      } else {
        assert forall c | c in rest :: c in text;
        FeedsRejoin(rest);
        Sequences.HeadTail([head], SplitLines(rest));
        Sequences.Nil(SplitLines(rest));
      }
    }
  }

  lemma EmptyData()
    ensures JoinLines(Lines("")) == ""
  {
  }

  /** The data a client gets is the data sent, exactly when it has no break but line feeds, and none of them last. */
  lemma DataSurvives(data: string)
    ensures JoinLines(Lines(data)) == data <==>
      && (forall c | c in data :: !(11 <= c as int <= 13 || 28 <= c as int <= 30) && c as int !in {133, 8232, 8233})
      && (data == "" || data[|data| - 1] != '\n')
  {
    hide SplitLines, JoinLines;
    if data == "" {
      EmptyData();
    } else if forall c | c in data :: !Odd(c) {
      FeedsRejoin(data);
    } else {
      forall line | line in Lines(data) ensures forall c | c in line :: !Breaks(c) {
        if line != "" {
          LinesHoldNoBreak(data, line);
        }
      }
      JoinedHoldsNoOdd(Lines(data));
    }
  }
}
