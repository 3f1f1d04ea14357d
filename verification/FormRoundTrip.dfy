/**
 * The multipart encoder of the test client, and the theorem that the parser undoes it
 * under every way of cutting the body into reads (section 4 of RFC 7578).
 */
module FormRoundTrip {
  import opened Wrappers
  import Sequences
  import opened Bytes
  import opened Multipart
  import opened FormParser

  /** One part to send: the header lines without the blank line that ends them, and the content. */
  datatype Outgoing = Outgoing(head: Bytes, content: Bytes)

  function Latin(text: string): Bytes
    requires forall i :: 0 <= i < |text| ==> text[i] < 256 as char
  {
    seq(|text|, i requires 0 <= i < |text| => text[i] as int)
  }

  const DISPOSITION := "Content-Disposition: form-data; name=\""
  const FILENAME := "; filename=\""
  const CONTENT_TYPE := "Content-Type: "
  const QUOTE := "\""

  function FieldHead(name: Bytes): Bytes {
    Latin(DISPOSITION) + name + Latin(QUOTE)
  }

  function FileHead(file: FormFile): Bytes {
    FieldHead(file.name) + Latin(FILENAME) + file.filename + Latin(QUOTE)
    + CRLF + Latin(CONTENT_TYPE) + file.mime
  }

  function FieldParts(fields: seq<(Bytes, string)>, encode: string -> Bytes): seq<Outgoing> {
    seq(|fields|, i requires 0 <= i < |fields| => Outgoing(FieldHead(fields[i].0), encode(fields[i].1)))
  }

  function FileParts(files: seq<FormFile>): seq<Outgoing> {
    seq(|files|, i requires 0 <= i < |files| => Outgoing(FileHead(files[i]), files[i].content))
  }

  /** The body after its first `--boundary`. */
  function Tail(parts: seq<Outgoing>, boundary: Bytes): Bytes {
    if parts == [] then DASHES + CRLF
    else CRLF + (parts[0].head + BLANK_LINE
                 + (parts[0].content + CRLF + (DASHES + boundary) + Tail(parts[1..], boundary)))
  }

  /** The encoded body: the parts, each after `--boundary` and a line end, then `--boundary--`. */
  function Encode(parts: seq<Outgoing>, boundary: Bytes): Bytes {
    DASHES + boundary + Tail(parts, boundary)
  }

  // ---------------------------------------------------------------------
  // Headers: the blank line after them is the first one
  // ---------------------------------------------------------------------

  predicate NoReturn(s: Bytes) {
    forall i :: 0 <= i < |s| ==> s[i] != 13
  }

  /** No blank line begins inside the headers. */
  ghost predicate CleanHead(head: Bytes) {
    forall i :: 0 <= i < |head| ==> !OccursAt(head + BLANK_LINE, BLANK_LINE, i)
  }

  lemma LatinHasNoReturn(text: string)
    requires forall i :: 0 <= i < |text| ==> text[i] < 256 as char
    requires '\r' !in text
    ensures NoReturn(Latin(text))
  {
    forall i | 0 <= i < |text|
      ensures Latin(text)[i] != 13
    {
      assert text[i] in text;
    }
  }

  lemma OneLineEndIsClean(before: Bytes, after: Bytes)
    requires NoReturn(before) && NoReturn(after) && after != []
    ensures CleanHead(before + CRLF + after)
  {
    var s := before + CRLF + after + BLANK_LINE;
    forall i | 0 <= i < |before| + 2 + |after|
      ensures !OccursAt(s, BLANK_LINE, i)
    {
      assert s[i..i + 4][0] == s[i] && s[i..i + 4][2] == s[i + 2];
      assert s[|before| + 2] == after[0];
    }
  }

  lemma FieldHeadIsClean(name: Bytes)
    requires NoReturn(name)
    ensures NoReturn(FieldHead(name)) && CleanHead(FieldHead(name))
  {
    LatinHasNoReturn(DISPOSITION);
    LatinHasNoReturn(QUOTE);
    var head := FieldHead(name);
    forall i | 0 <= i < |head|
      ensures !OccursAt(head + BLANK_LINE, BLANK_LINE, i)
    {
      assert (head + BLANK_LINE)[i] == head[i];
    }
  }

  lemma FileHeadIsClean(file: FormFile)
    requires NoReturn(file.name) && NoReturn(file.filename) && NoReturn(file.mime)
    ensures CleanHead(FileHead(file))
  {
    FieldHeadIsClean(file.name);
    LatinHasNoReturn(FILENAME);
    LatinHasNoReturn(QUOTE);
    LatinHasNoReturn(CONTENT_TYPE);
    var before := FieldHead(file.name) + Latin(FILENAME) + file.filename + Latin(QUOTE);
    var after := Latin(CONTENT_TYPE) + file.mime;
    assert FileHead(file) == before + CRLF + after;
    OneLineEndIsClean(before, after);
  }

  lemma HeadEnds(head: Bytes, body: Bytes)
    requires CleanHead(head)
    ensures First(head + BLANK_LINE + body, BLANK_LINE, false) == Some(|head|)
  {
    var s := head + BLANK_LINE + body;
    forall i: nat | i < |head|
      ensures !MatchAt(s, BLANK_LINE, false, i)
    {
      OccursInPrefix(head + BLANK_LINE, body, BLANK_LINE, i);
    }
    FirstSkips(s, BLANK_LINE, false, 0, |head|);
    assert s[|head|..|head| + 4] == BLANK_LINE;
  }

  // ---------------------------------------------------------------------
  // Contents: exactly when the delimiter after a content is the first one
  // ---------------------------------------------------------------------

  /** No delimiter line begins inside the content, even one completed by the line end after it. */
  predicate Intact(content: Bytes, marker: Bytes) {
    First(content + CRLF, CRLF + marker, true).None?
  }

  /** Below the end of the content, the whole body has the matches the content alone has. */
  lemma MatchesInContent(content: Bytes, marker: Bytes, rest: Bytes, i: nat)
    requires NoReturn(marker) && |marker| >= 2 && i < |content|
    ensures MatchAt(content + CRLF + marker + rest, CRLF + marker, true, i)
            <==> MatchAt(content + CRLF, CRLF + marker, true, i)
  {
    var d := CRLF + marker;
    var short, long := content + CRLF, content + CRLF + marker + rest;
    var end := i + |d|;
    if end <= |content| {
      OccursInPrefix(short, marker + rest, d, i);
      assert long == short + (marker + rest);
      var after := short[end..];
      assert long[end..] == after + (marker + rest);
      assert after[|after| - 2..] == CRLF;
      assert after[|after| - 2] == 13;
    } else {
      assert long[|content|] == short[|content|] == 13;
      assert d[|content| - i] != 13;
    }
  }

  /** The first match is no later than any match. */
  lemma FirstReached(s: Bytes, marker: Bytes, i: nat)
    requires MatchAt(s, marker, true, i)
    ensures First(s, marker, true).Some? && First(s, marker, true).value <= i
  {
    if First(s, marker, true).Some? ==> i < First(s, marker, true).value {
      FirstIsLeast(s, marker, true, 0, i);
    }
  }

  /**
   * The delimiter the encoder writes after a content is the one the parser finds
   * if and only if the content holds no delimiter line.
   */
  lemma ContentSurvives(content: Bytes, marker: Bytes, rest: Bytes)
    requires NoReturn(marker) && |marker| >= 2 && EndsDelimiter(rest)
    ensures First(content + CRLF + marker + rest, CRLF + marker, true) == Some(|content|)
            <==> Intact(content, marker)
    ensures Cut(content + CRLF + marker + rest, CRLF + marker, true, None).Some?
  {
    var d := CRLF + marker;
    var short, long := content + CRLF, content + CRLF + marker + rest;
    assert long[|content|..|content| + |d|] == d && long[|content| + |d|..] == rest;
    assert MatchAt(long, d, true, |content|);
    var first := First(long, d, true);
    FirstReached(long, d, |content|);
    if Intact(content, marker) && first.value < |content| {
      MatchesInContent(content, marker, rest, first.value);
      FirstIsLeast(short, d, true, 0, first.value);
    }
    if First(short, d, true).Some? {
      MatchesInContent(content, marker, rest, First(short, d, true).value);
      FirstReached(long, d, First(short, d, true).value);
    }
  }

  /** A line that begins at `i` with the boundary and goes on as a delimiter line may, byte by byte. */
  predicate DelimiterLine(s: Bytes, marker: Bytes, i: nat) {
    var end := i + 2 + |marker|;
    && end + 2 <= |s| && s[i] == 13 && s[i + 1] == 10 && s[i + 2..end] == marker
    && (|| (s[end] == 13 && s[end + 1] == 10)
        || (s[end] == 45 && s[end + 1] == 45
            && (end + 2 == |s| || (end + 4 <= |s| && s[end + 2] == 13 && s[end + 3] == 10))))
  }

  lemma BeginsWithTwo(s: Bytes, m: Bytes)
    requires |m| == 2
    ensures m <= s <==> |s| >= 2 && s[0] == m[0] && s[1] == m[1]
  {
  }

  lemma LineMatches(s: Bytes, marker: Bytes, i: nat)
    ensures MatchAt(s, CRLF + marker, true, i) <==> DelimiterLine(s, marker, i)
  {
    var end := i + 2 + |marker|;
    if end + 2 <= |s| {
      var after := s[end..];
      assert s[i..end] == [s[i], s[i + 1]] + s[i + 2..end];
      assert s[i..end] == CRLF + marker <==> s[i] == 13 && s[i + 1] == 10 && s[i + 2..end] == marker by {
        assert s[i..end][2..] == s[i + 2..end] && (CRLF + marker)[2..] == marker;
        assert s[i..end][..2] == [s[i], s[i + 1]] && (CRLF + marker)[..2] == CRLF;
      }
      BeginsWithTwo(after, CRLF);
      BeginsWithTwo(after, DASHES);
      BeginsWithTwo(after[2..], CRLF);
      assert |after| == |s| - end && forall k :: 0 <= k < |after| ==> after[k] == s[end + k];
    }
  }

  /** A content is cut at its own end exactly when, with the line end after it, it holds no such line. */
  lemma IntactIs(content: Bytes, marker: Bytes)
    ensures Intact(content, marker) <==>
      forall i :: 0 <= i <= |content| ==> !DelimiterLine(content + [13, 10], marker, i)
  {
    var s, d := content + CRLF, CRLF + marker;
    var first := First(s, d, true);
    hide MatchAt;
    if first.Some? {
      LineMatches(s, marker, first.value);
    } else {
      forall i: nat | i <= |content| ensures !DelimiterLine(s, marker, i) {
        FirstIsLeast(s, d, true, 0, i);
        LineMatches(s, marker, i);
      }
    }
  }

  // ---------------------------------------------------------------------
  // The round trip
  // ---------------------------------------------------------------------

  /** Total size of the encoded field values. */
  function FieldBytes(fields: seq<(Bytes, string)>, encode: string -> Bytes): nat {
    if fields == [] then 0 else |encode(fields[0].1)| + FieldBytes(fields[1..], encode)
  }

  /** The header parser undoes the encoder's header lines, and decoding undoes encoding. */
  ghost predicate UndoesField(env: Env, encode: string -> Bytes, field: (Bytes, string)) {
    var parsed := env.parseHead(FieldHead(field.0) + BLANK_LINE);
    && NoReturn(field.0) && |FieldHead(field.0)| <= HEAD_LIMIT
    && parsed.Some? && parsed.value.name == field.0 && parsed.value.filename.None?
    && env.decode(parsed.value.charset, encode(field.1)) == Some(field.1)
  }

  ghost predicate UndoesFile(env: Env, file: FormFile) {
    var parsed := env.parseHead(FileHead(file) + BLANK_LINE);
    && NoReturn(file.name) && NoReturn(file.filename) && NoReturn(file.mime)
    && |FileHead(file)| <= HEAD_LIMIT && parsed.Some? && parsed.value.name == file.name
    && parsed.value.filename == Some(file.filename) && parsed.value.mime == file.mime
  }

  ghost predicate Undoes(env: Env, encode: string -> Bytes, fields: seq<(Bytes, string)>, files: seq<FormFile>) {
    && (forall i :: 0 <= i < |fields| ==> UndoesField(env, encode, fields[i]))
    && (forall i :: 0 <= i < |files| ==> UndoesFile(env, files[i]))
  }

  ghost predicate AllIntact(parts: seq<Outgoing>, marker: Bytes) {
    forall i :: 0 <= i < |parts| ==> Intact(parts[i].content, marker)
  }

  lemma {:induction false} TailEndsDelimiter(parts: seq<Outgoing>, boundary: Bytes)
    ensures EndsDelimiter(Tail(parts, boundary))
  {
  }

  lemma HeadIsCut(head: Bytes, body: Bytes)
    requires CleanHead(head) && |head| <= HEAD_LIMIT
    ensures Cut(head + BLANK_LINE + body, BLANK_LINE, false, Some(HEAD_LIMIT)) == Some((head, body))
  {
    HeadEnds(head, body);
    hide First;
    assert (head + BLANK_LINE + body)[|head| + 4..] == body;
    assert (head + BLANK_LINE + body)[..|head|] == head;
  }

  lemma ContentIsCut(content: Bytes, marker: Bytes, rest: Bytes, maximum: Option<nat>)
    requires NoReturn(marker) && |marker| >= 2 && EndsDelimiter(rest) && Intact(content, marker)
    ensures Cut(content + CRLF + marker + rest, CRLF + marker, true, maximum)
            == if maximum.Some? && |content| > maximum.value then None else Some((content, rest))
    ensures !CutFails(content + CRLF + marker + rest, CRLF + marker, true, maximum, BadRequest)
  {
    hide First;
    ContentSurvives(content, marker, rest);
    var body := content + CRLF + marker + rest;
    assert body[|content| + |CRLF + marker|..] == rest;
    assert body[..|content|] == content;
  }

  /** The first field goes through the parser, when it fits the budget. */
  lemma ParsesField(env: Env, encode: string -> Bytes, marker: Bytes, name: Bytes, value: string,
                    rest: Bytes, budget: nat)
    requires NoReturn(marker) && |marker| >= 2 && EndsDelimiter(rest)
    requires UndoesField(env, encode, (name, value)) && Intact(encode(value), marker)
    ensures ParsePart(env, marker, FieldHead(name) + BLANK_LINE + (encode(value) + CRLF + marker + rest), budget)
         == if |encode(value)| <= budget then Some((Field(name, value, |encode(value)|), rest)) else None
    ensures |encode(value)| > budget ==>
      !PartFails(env, marker, FieldHead(name) + BLANK_LINE + (encode(value) + CRLF + marker + rest), budget, BadRequest)
  {
    FieldHeadIsClean(name);
    HeadIsCut(FieldHead(name), encode(value) + CRLF + marker + rest);
    ContentIsCut(encode(value), marker, rest, Some(budget));
    hide Cut, FieldHead, CutFails;
  }

  lemma ParsesFile(env: Env, marker: Bytes, file: FormFile, rest: Bytes, budget: nat)
    requires NoReturn(marker) && |marker| >= 2 && EndsDelimiter(rest)
    requires UndoesFile(env, file) && Intact(file.content, marker)
    ensures ParsePart(env, marker, FileHead(file) + BLANK_LINE + (file.content + CRLF + marker + rest), budget)
         == Some((File(file), rest))
  {
    FileHeadIsClean(file);
    HeadIsCut(FileHead(file), file.content + CRLF + marker + rest);
    ContentIsCut(file.content, marker, rest, None);
    hide Cut, FileHead;
  }

  /** The parser reads one part off the tail of an encoded body. */
  lemma {:induction false} TailStep(env: Env, parts: seq<Outgoing>, boundary: Bytes, left: nat, budget: nat, form: Form)
    requires parts != []
    ensures var marker, rest := DASHES + boundary, Tail(parts[1..], boundary);
      var part := ParsePart(env, marker,
        parts[0].head + BLANK_LINE + (parts[0].content + CRLF + marker + rest), budget);
      ParseParts(env, marker, Tail(parts, boundary), left, budget, form)
        == if left == 0 || part.None? then None
           else ParseParts(env, marker, part.value.1, left - 1, budget - Cost(part.value.0),
                           AddPart(form, part.value.0))
  {
    hide ParsePart;
    var tail := Tail(parts, boundary);
    assert tail[..2] == CRLF;
    assert tail[2..] == parts[0].head + BLANK_LINE
           + (parts[0].content + CRLF + (DASHES + boundary) + Tail(parts[1..], boundary));
  }

  /** Why the parser refuses such a tail: for the first part, or for what follows it. */
  lemma {:induction false} TailFails(env: Env, parts: seq<Outgoing>, boundary: Bytes, left: nat, budget: nat,
                                     error: Error)
    requires parts != [] && PartsFail(env, DASHES + boundary, Tail(parts, boundary), left, budget, error)
    ensures var marker, rest := DASHES + boundary, Tail(parts[1..], boundary);
      var s := parts[0].head + BLANK_LINE + (parts[0].content + CRLF + marker + rest);
      var part := ParsePart(env, marker, s, budget);
      if left == 0 then error == TooLarge
      else if part.None? then PartFails(env, marker, s, budget, error)
      else PartsFail(env, marker, part.value.1, left - 1, budget - Cost(part.value.0), error)
  {
    hide ParsePart, PartFails;
    var tail := Tail(parts, boundary);
    assert tail[..2] == CRLF;
    assert tail[2..] == parts[0].head + BLANK_LINE
           + (parts[0].content + CRLF + (DASHES + boundary) + Tail(parts[1..], boundary));
  }

  lemma {:induction false} ParsesEnd(env: Env, parts: seq<Outgoing>, boundary: Bytes, left: nat, budget: nat,
                                     form: Form)
    requires parts == []
    ensures ParseParts(env, DASHES + boundary, Tail(parts, boundary), left, budget, form) == Some(form)
    ensures forall error :: !PartsFail(env, DASHES + boundary, Tail(parts, boundary), left, budget, error)
  {
    assert Tail(parts, boundary)[..2] == DASHES;
  }

  /** bcharsnospace of the grammar. */
  predicate BoundaryChar(c: char) {
    '0' <= c <= '9' || 'a' <= c <= 'z' || 'A' <= c <= 'Z' || c in "'()+_,-./:=?"
  }

  /** `0*69<bchars> bcharsnospace` of section 5.1.1 of RFC 2046. */
  predicate IsBoundary(b: Bytes) {
    1 <= |b| <= 70 && BoundaryChar(b[|b| - 1] as char)
    && forall i :: 0 <= i < |b| - 1 ==> BoundaryChar(b[i] as char) || b[i] as char == ' '
  }

  lemma BoundaryByteIs(c: Byte)
    ensures BoundaryByte(c) <==> BoundaryChar(c as char) || c as char == ' '
  {
    if c in [39, 40, 41, 43, 95, 44, 46, 47, 58, 61, 63, 45] {
      assert c as char in "'()+_,-./:=?";
    }
  }

  lemma SpaceIsNoEnd()
    ensures !BoundaryChar(' ')
  {
  }

  /** The boundaries the parser accepts are those of the grammar. */
  lemma BoundaryIs(b: Bytes)
    ensures ValidBoundary(b) <==> IsBoundary(b)
  {
    hide BoundaryByte, BoundaryChar;
    SpaceIsNoEnd();
    forall i | 0 <= i < |b| ensures BoundaryByte(b[i]) <==> BoundaryChar(b[i] as char) || b[i] as char == ' ' {
      BoundaryByteIs(b[i]);
    }
  }

  lemma BoundaryHasNoReturn(boundary: Bytes)
    requires ValidBoundary(boundary)
    ensures NoReturn(DASHES + boundary) && |DASHES + boundary| >= 2
  {
  }

  /** What the parser makes of the parts the encoder sends, fields first, within the limits. */
  lemma {:induction false} ParsesTail(env: Env, encode: string -> Bytes, boundary: Bytes,
                                      fields: seq<(Bytes, string)>, files: seq<FormFile>,
                                      left: nat, budget: nat, form: Form)
    requires ValidBoundary(boundary) && Undoes(env, encode, fields, files)
    requires AllIntact(FieldParts(fields, encode) + FileParts(files), DASHES + boundary)
    ensures ParseParts(env, DASHES + boundary, Tail(FieldParts(fields, encode) + FileParts(files), boundary),
                       left, budget, form)
         == if |fields| + |files| <= left && FieldBytes(fields, encode) <= budget
            then Some(Form(form.fields + fields, form.files + files)) else None
    ensures !PartsFail(env, DASHES + boundary, Tail(FieldParts(fields, encode) + FileParts(files), boundary),
                       left, budget, BadRequest)
    decreases |fields| + |files|
  {
    var parts, marker := FieldParts(fields, encode) + FileParts(files), DASHES + boundary;
    hide ParsePart, ParseParts, Intact, FieldHead, FileHead, ValidBoundary, Tail, UndoesField, UndoesFile;
    hide EndsDelimiter, NoReturn, PartsFail, PartFails;
    if parts == [] {
      ParsesEnd(env, parts, boundary, left, budget, form);
      assert form.fields + fields == form.fields && form.files + files == form.files;
    } else {
      var rest := Tail(parts[1..], boundary);
      TailStep(env, parts, boundary, left, budget, form);
      if PartsFail(env, marker, Tail(parts, boundary), left, budget, BadRequest) {
        TailFails(env, parts, boundary, left, budget, BadRequest);
      }
      TailEndsDelimiter(parts[1..], boundary);
      BoundaryHasNoReturn(boundary);
      assert Intact(parts[0].content, marker);
      if fields != [] {
        var (name, value) := fields[0];
        ParsesField(env, encode, marker, name, value, rest, budget);
        assert parts[1..] == FieldParts(fields[1..], encode) + FileParts(files);
        assert AllIntact(parts[1..], marker);
        if left > 0 && |encode(value)| <= budget {
          ParsesTail(env, encode, boundary, fields[1..], files, left - 1, budget - |encode(value)|,
                     AddPart(form, Field(name, value, |encode(value)|)));
          assert form.fields + fields == form.fields + [fields[0]] + fields[1..];
        }
      } else {
        ParsesFile(env, marker, files[0], rest, budget);
        assert parts[1..] == FieldParts(fields, encode) + FileParts(files[1..]);
        assert AllIntact(parts[1..], marker);
        if left > 0 {
          ParsesTail(env, encode, boundary, fields, files[1..], left - 1, budget, AddPart(form, File(files[0])));
          assert form.files + files == form.files + [files[0]] + files[1..];
        }
      }
    }
  }

  lemma StartIsCut(marker: Bytes, rest: Bytes)
    requires EndsDelimiter(rest)
    ensures Cut(marker + rest, marker, true, Some(HEAD_LIMIT)) == Some(([], rest))
  {
    assert (marker + rest)[..|marker|] == marker;
    assert (marker + rest)[|marker|..] == rest;
  }

  /**
   * `parse_multipart` undoes `_encode_multipart`: if no content holds a delimiter line, the encoded
   * body parses to the same fields and files in order exactly when the parts, closing delimiter not
   * counted, are at most `limits.parts` and the field values at most `limits.fieldBytes`.
   */
  lemma {:induction false} RoundTrip(env: Env, encode: string -> Bytes, boundary: Bytes, limits: Limits,
                  fields: seq<(Bytes, string)>, files: seq<FormFile>)
    requires ValidBoundary(boundary) && Undoes(env, encode, fields, files)
    requires AllIntact(FieldParts(fields, encode) + FileParts(files), DASHES + boundary)
    ensures ParseForm(env, Some(boundary), limits, Encode(FieldParts(fields, encode) + FileParts(files), boundary))
         == if |fields| + |files| <= limits.parts && FieldBytes(fields, encode) <= limits.fieldBytes
            then Some(Form(fields, files)) else None
    ensures !FormFails(env, Some(boundary), limits, Encode(FieldParts(fields, encode) + FileParts(files), boundary),
                       BadRequest)
  {
    hide PartsFail, CutFails;
    hide ParseParts, Tail, Cut, UndoesField, UndoesFile, Intact, ValidBoundary, EndsDelimiter;
    var parts, marker := FieldParts(fields, encode) + FileParts(files), DASHES + boundary;
    StartIsCut(marker, Tail(parts, boundary)) by {
      TailEndsDelimiter(parts, boundary);
    }
    ParsesTail(env, encode, boundary, fields, files, limits.parts, limits.fieldBytes, Form([], []));
    assert [] + fields == fields && [] + files == files;
  }

  /** The pieces the encoder writes for one part, joined. */
  function Chunk(part: Outgoing, boundary: Bytes): Bytes {
    DASHES + boundary + (CRLF + (part.head + BLANK_LINE + (part.content + CRLF)))
  }

  lemma EncodeStep(body: Bytes, parts: seq<Outgoing>, boundary: Bytes)
    requires parts != []
    ensures body + Encode(parts, boundary) == body + Chunk(parts[0], boundary) + Encode(parts[1..], boundary)
  {
    var marker, tail := DASHES + boundary, Tail(parts[1..], boundary);
    var head, content := parts[0].head + BLANK_LINE, parts[0].content + CRLF;
    Sequences.Assoc(content, marker, tail);
    Sequences.Assoc(head, content, marker + tail);
    Sequences.Assoc(CRLF, head + content, marker + tail);
    Sequences.Assoc(marker, CRLF + (head + content), marker + tail);
    Sequences.Assoc(body, Chunk(parts[0], boundary), marker + tail);
  }

  lemma EncodeEnd(body: Bytes, parts: seq<Outgoing>, boundary: Bytes)
    requires parts == []
    ensures body + Encode(parts, boundary) == body + DASHES + boundary + DASHES + CRLF
  {
    assert DASHES + boundary + (DASHES + CRLF) == DASHES + boundary + DASHES + CRLF;
  }

  /** `_encode_multipart`: the fields, then the files, then the closing delimiter. */
  method EncodeMultipart(fields: seq<(Bytes, string)>, files: seq<FormFile>, encode: string -> Bytes, boundary: Bytes)
    returns (body: Bytes)
    ensures body == Encode(FieldParts(fields, encode) + FileParts(files), boundary)
  {
    hide Encode, Chunk, FieldHead, FileHead;
    ghost var parts := FieldParts(fields, encode) + FileParts(files);
    body := [];
    for i := 0 to |fields|
      invariant body + Encode(parts[i..], boundary) == Encode(parts, boundary)
    {
      EncodeStep(body, parts[i..], boundary);
      assert parts[i..][1..] == parts[i + 1..];
      body := body + Chunk(Outgoing(FieldHead(fields[i].0), encode(fields[i].1)), boundary);
    }
    for i := 0 to |files|
      invariant body + Encode(parts[|fields| + i..], boundary) == Encode(parts, boundary)
    {
      EncodeStep(body, parts[|fields| + i..], boundary);
      assert parts[|fields| + i..][1..] == parts[|fields| + i + 1..];
      body := body + Chunk(Outgoing(FileHead(files[i]), files[i].content), boundary);
    }
    EncodeEnd(body, parts[|fields| + |files|..], boundary);
    body := body + DASHES + boundary + DASHES + CRLF;
  }

  /** The encoded body, handed out in whatever pieces `cut` says, parses back to what was sent. */
  method Transmit(env: Env, encode: string -> Bytes, boundary: Bytes, limits: Limits,
                  fields: seq<(Bytes, string)>, files: seq<FormFile>, cut: Bytes -> seq<Bytes>,
                  storage: Storage)
    returns (r: Result<Form, Error>, handles: seq<Sink>)
    requires ValidBoundary(boundary) && Undoes(env, encode, fields, files)
    requires AllIntact(FieldParts(fields, encode) + FileParts(files), DASHES + boundary)
    requires forall body :: Flatten(cut(body)) == body && [] !in cut(body)
    modifies storage
    ensures fresh(handles) && storage.files == old(storage.files) + handles
    ensures r.Ok? <==> |fields| + |files| <= limits.parts && FieldBytes(fields, encode) <= limits.fieldBytes
    ensures r.Ok? ==> r.value == Form(fields, files) && Backs(handles, files)
    ensures r.Err? ==> r.error == TooLarge && forall h :: h in handles ==> h.closed
  {
    hide ParseForm, FormFails, Undoes, AllIntact;
    var body := EncodeMultipart(fields, files, encode, boundary);
    assert forall i :: 0 <= i < |cut(body)| ==> cut(body)[i] in cut(body);
    var source := new Source(cut(body));
    RoundTrip(env, encode, boundary, limits, fields, files);
    r, handles := ParseMultipart(env, Some(boundary), limits, source, storage);
  }
}
