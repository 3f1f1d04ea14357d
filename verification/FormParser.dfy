/**
 * The part loop of `parse_multipart`. `ParseForm` is what the parser computes on
 * the body as one byte string; the method `ParseMultipart` computes it from a source
 * that hands the body out piece by piece, and takes care of the files it opens.
 *
 * Header parsing and text decoding are foreign code: they are the parameters
 * `parseHead` and `decode` of an `Env`.
 */
module FormParser {
  import opened Wrappers
  import opened Bytes
  import opened Multipart

  /** The headers of an acceptable part: form-data, one disposition, a name, no transfer encoding. */
  datatype Head = Head(name: Bytes, filename: Option<Bytes>, charset: Option<Bytes>, mime: Bytes)

  /** `parseHead` gives None for headers the parser rejects, `decode` None for an unknown charset. */
  datatype Env = Env(parseHead: Bytes -> Option<Head>, decode: (Option<Bytes>, Bytes) -> Option<string>)

  datatype Limits = Limits(parts: nat, fieldBytes: nat)

  datatype FormFile = FormFile(name: Bytes, filename: Bytes, mime: Bytes, content: Bytes)

  datatype Form = Form(fields: seq<(Bytes, string)>, files: seq<FormFile>)

  datatype Part =
    | Field(name: Bytes, value: string, size: nat)
    | File(file: FormFile)

  const HEAD_LIMIT := 65536

  predicate BoundaryByte(c: Byte) {
    || 48 <= c <= 57 || 65 <= c <= 90 || 97 <= c <= 122
    || c in [39, 40, 41, 43, 95, 44, 46, 47, 58, 61, 63, 32, 45]
  }

  /** The boundary grammar of section 5.1.1 of RFC 2046, as the parser checks it. */
  predicate ValidBoundary(boundary: Bytes) {
    && 1 <= |boundary| <= 70
    && (forall i :: 0 <= i < |boundary| ==> BoundaryByte(boundary[i]))
    && boundary[|boundary| - 1] != 32
  }

  /** One part: its headers, then its content up to the next delimiter. */
  function ParsePart(env: Env, marker: Bytes, s: Bytes, budget: nat): (r: Option<(Part, Bytes)>)
    ensures r.Some? && r.value.0.Field? ==> r.value.0.size <= budget
  {
    match Cut(s, BLANK_LINE, false, Some(HEAD_LIMIT))
    case None => None
    case Some((headers, body)) =>
      match env.parseHead(headers + BLANK_LINE)
      case None => None
      case Some(head) =>
        if head.filename.None? then
          match Cut(body, CRLF + marker, true, Some(budget))
          case None => None
          case Some((raw, rest)) =>
            var text := env.decode(head.charset, raw);
            if text.None? then None else Some((Field(head.name, text.value, |raw|), rest))
        else
          match Cut(body, CRLF + marker, true, None)
          case None => None
          case Some((raw, rest)) =>
            Some((File(FormFile(head.name, head.filename.value, head.mime, raw)), rest))
  }

  /** The errors there can be for a part that is none. */
  predicate PartFails(env: Env, marker: Bytes, s: Bytes, budget: nat, error: Error) {
    match Cut(s, BLANK_LINE, false, Some(HEAD_LIMIT))
    case None => CutFails(s, BLANK_LINE, false, Some(HEAD_LIMIT), error)
    case Some((headers, body)) =>
      var head := env.parseHead(headers + BLANK_LINE);
      if head.None? then error == BadRequest
      else
        var maximum := if head.value.filename.None? then Some(budget) else None;
        match Cut(body, CRLF + marker, true, maximum)
        case None => CutFails(body, CRLF + marker, true, maximum, error)
        case Some((raw, _)) =>
          error == BadRequest && head.value.filename.None? && env.decode(head.value.charset, raw).None?
  }

  function Cost(part: Part): nat {
    if part.Field? then part.size else 0
  }

  function AddPart(form: Form, part: Part): Form {
    if part.Field? then form.(fields := form.fields + [(part.name, part.value)])
    else form.(files := form.files + [part.file])
  }

  /** The loop over parts, `left` of which may still come; `form` is what came before. */
  function ParseParts(env: Env, marker: Bytes, s: Bytes, left: nat, budget: nat, form: Form): Option<Form>
    decreases left
  {
    if |s| < 2 then None
    else if s[..2] == DASHES then Some(form)
    else if left == 0 || s[..2] != CRLF then None
    else
      match ParsePart(env, marker, s[2..], budget)
      case None => None
      case Some((part, rest)) =>
        ParseParts(env, marker, rest, left - 1, budget - Cost(part), AddPart(form, part))
  }

  /** The errors there can be for parts that are no form: too many of them is the last to be found. */
  predicate PartsFail(env: Env, marker: Bytes, s: Bytes, left: nat, budget: nat, error: Error)
    decreases left
  {
    if |s| < 2 then error == BadRequest
    else if s[..2] == DASHES then false
    else if left == 0 then error == TooLarge
    else if s[..2] != CRLF then error == BadRequest
    else
      match ParsePart(env, marker, s[2..], budget)
      case None => PartFails(env, marker, s[2..], budget, error)
      case Some((part, rest)) => PartsFail(env, marker, rest, left - 1, budget - Cost(part), error)
  }

  predicate FormFails(env: Env, boundary: Option<Bytes>, limits: Limits, s: Bytes, error: Error) {
    if boundary.None? || !ValidBoundary(boundary.value) then error == BadRequest
    else
      var marker := DASHES + boundary.value;
      match Cut(s, marker, true, Some(HEAD_LIMIT))
      case None => CutFails(s, marker, true, Some(HEAD_LIMIT), error)
      case Some((_, rest)) => PartsFail(env, marker, rest, limits.parts, limits.fieldBytes, error)
  }

  function ParseForm(env: Env, boundary: Option<Bytes>, limits: Limits, s: Bytes): Option<Form> {
    if boundary.None? || !ValidBoundary(boundary.value) then None
    else
      var marker := DASHES + boundary.value;
      match Cut(s, marker, true, Some(HEAD_LIMIT))
      case None => None
      case Some((_, rest)) => ParseParts(env, marker, rest, limits.parts, limits.fieldBytes, Form([], []))
  }

  /** The files a form holds are the open temporary files, in order. */
  ghost predicate Backs(handles: seq<Sink>, files: seq<FormFile>)
    reads handles
  {
    && |handles| == |files|
    && forall i :: 0 <= i < |files| ==> handles[i].data == files[i].content && !handles[i].closed
  }

  /** The temporary files that were ever opened, in order. */
  class Storage {
    ghost var files: seq<Sink>

    constructor ()
      ensures files == []
    {
      files := [];
    }

    /** `SpooledTemporaryFile(...)`. */
    method Open() returns (file: Sink)
      modifies this
      ensures fresh(file) && file.data == [] && !file.closed
      ensures files == old(files) + [file]
    {
      file := new Sink();
      files := files + [file];
    }
  }

  /** A file is opened for a part with a file name, and it is handed over also when the part fails. */
  method ReadPart(env: Env, marker: Bytes, reader: Reader, budget: nat, storage: Storage)
    returns (r: Result<Part, Error>, file: Sink?)
    requires reader.Valid()
    modifies reader`buffer, reader`eof, reader.source, storage
    ensures reader.Valid()
    ensures file != null ==> fresh(file)
    ensures storage.files == old(storage.files) + if file == null then [] else [file]
    ensures var spec := ParsePart(env, marker, old(reader.Remaining()), budget);
      && (r.Ok? <==> spec.Some?)
      && (r.Ok? ==> spec.value == (r.value, reader.Remaining()))
      && (r.Ok? ==> (file != null <==> r.value.File?))
      && (r.Ok? && r.value.File? ==> file.data == r.value.file.content)
    ensures r.Ok? ==> Cost(r.value) <= budget
    ensures r.Err? ==> PartFails(env, marker, old(reader.Remaining()), budget, r.error)
    ensures file != null ==> !file.closed
  {
    hide First, BLANK_LINE;
    file := null;
    var headers := new Sink();
    ghost var cut := Cut(reader.Remaining(), BLANK_LINE, false, Some(HEAD_LIMIT));
    var found := reader.Until(BLANK_LINE, headers, Some(HEAD_LIMIT), false);
    if found.Err? {
      return Err(found.error), null;
    }
    assert headers.data == cut.value.0;
    var head := env.parseHead(headers.data + BLANK_LINE);
    if head.None? {
      return Err(BadRequest), null;
    }
    if head.value.filename.None? {
      var payload := new Sink();
      cut := Cut(reader.Remaining(), CRLF + marker, true, Some(budget));
      found := reader.Until(CRLF + marker, payload, Some(budget), true);
      if found.Err? {
        return Err(found.error), null;
      }
      assert payload.data == cut.value.0;
      var text := env.decode(head.value.charset, payload.data);
      if text.None? {
        return Err(BadRequest), null;
      }
      r := Ok(Field(head.value.name, text.value, |payload.data|));
    } else {
      file := storage.Open();
      cut := Cut(reader.Remaining(), CRLF + marker, true, None);
      found := reader.Until(CRLF + marker, file, None, true);
      if found.Err? {
        return Err(found.error), file;
      }
      assert file.data == cut.value.0;
      r := Ok(File(FormFile(head.value.name, head.value.filename.value, head.value.mime, file.data)));
    }
  }

  /** The loop over parts; `form` and `handles` are the lists it appends to. */
  method ReadParts(env: Env, marker: Bytes, limits: Limits, reader: Reader, storage: Storage)
    returns (r: Result<Form, Error>, handles: seq<Sink>)
    requires reader.Valid()
    modifies reader`buffer, reader`eof, reader.source, storage
    ensures fresh(handles) && storage.files == old(storage.files) + handles
    ensures var spec := ParseParts(env, marker, old(reader.Remaining()), limits.parts, limits.fieldBytes, Form([], []));
      && (r.Ok? <==> spec.Some?)
      && (r.Ok? ==> r.value == spec.value)
    ensures r.Err? ==>
      PartsFail(env, marker, old(reader.Remaining()), limits.parts, limits.fieldBytes, r.error)
    ensures r.Ok? ==> Backs(handles, r.value.files)
  {
    hide ParsePart, PartFails;
    var form, left: nat, budget: nat := Form([], []), limits.parts, limits.fieldBytes;
    handles := [];
    ghost var input := reader.Remaining();
    ghost var spec := ParseParts(env, marker, input, left, budget, form);
    while left > 0
      invariant reader.Valid() && fresh(handles) && Backs(handles, form.files)
      invariant storage.files == old(storage.files) + handles
      invariant spec == ParseParts(env, marker, reader.Remaining(), left, budget, form)
      invariant forall e ::
        PartsFail(env, marker, reader.Remaining(), left, budget, e) ==>
          PartsFail(env, marker, input, limits.parts, limits.fieldBytes, e)
    {
      ghost var s := reader.Remaining();
      var suffix := reader.Take(2);
      if suffix.Err? {
        return Err(BadRequest), handles;
      }
      if suffix.value == DASHES {
        return Ok(form), handles;
      }
      if suffix.value != CRLF {
        return Err(BadRequest), handles;
      }
      var part, file := ReadPart(env, marker, reader, budget, storage);
      if file != null {
        handles := handles + [file];
      }
      if part.Err? {
        return Err(part.error), handles;
      }
      form, left, budget := AddPart(form, part.value), left - 1, budget - Cost(part.value);
    }
    var suffix := reader.Take(2);
    if suffix.Err? {
      return Err(BadRequest), handles;
    }
    r := if suffix.value == DASHES then Ok(form) else Err(TooLarge);
  }

  /** `for file in opened: file.close()`. */
  method CloseAll(handles: seq<Sink>)
    modifies handles
    ensures forall h :: h in handles ==> h.closed
  {
    for i := 0 to |handles|
      invariant forall h :: h in handles[..i] ==> h.closed
    {
      handles[i].Close();
    }
  }

  /**
   * `parse_multipart`. The form it returns is the one the whole body holds, however the source
   * was cut; it fails exactly when the one-shot parser does. The files it opened, all of them,
   * are handed over open when it succeeds and closed when it fails.
   */
  method ParseMultipart(env: Env, boundary: Option<Bytes>, limits: Limits, source: Source, storage: Storage)
    returns (r: Result<Form, Error>, handles: seq<Sink>)
    requires source.Valid()
    modifies source, storage
    ensures fresh(handles) && storage.files == old(storage.files) + handles
    ensures var spec := ParseForm(env, boundary, limits, Flatten(old(source.chunks)));
      && (r.Ok? <==> spec.Some?)
      && (r.Ok? ==> r.value == spec.value)
    ensures r.Err? ==> FormFails(env, boundary, limits, Flatten(old(source.chunks)), r.error)
    ensures r.Ok? ==> Backs(handles, r.value.files)
    ensures r.Err? ==> forall h :: h in handles ==> h.closed
  {
    handles := [];
    if boundary.None? || !ValidBoundary(boundary.value) {
      return Err(BadRequest), handles;
    }
    var marker := DASHES + boundary.value;
    var reader := new Reader(source);
    var preamble := new Sink();
    var found := reader.Until(marker, preamble, Some(HEAD_LIMIT), true);
    if found.Err? {
      return Err(found.error), handles;
    }
    r, handles := ReadParts(env, marker, limits, reader, storage);
    if r.Err? {
      CloseAll(handles);
    }
  }
}
