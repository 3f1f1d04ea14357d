/**
 * Route rules: how a rule's text becomes segments and how a path is matched against them, once as
 * the Python `Rule` does it and once as the Rust route table does. Percent-decoding a segment is
 * the parameter `decode` of both: None for bytes that are not UTF-8.
 */
module Rules {
  import opened Wrappers
  import opened Patterns
  import Sequences

  datatype Converter = Text | Integer | Decimal | Uuid | Path

  datatype Segment = Static(text: string) | Parameter(name: string, converter: Converter)

  /** What a matched parameter becomes: text, or a number or UUID read from it. */
  datatype Value = Plain(text: string) | Number(value: int) | Real(literal: string) | Identifier(literal: string)

  type Decoder = string -> Option<string>

  // ---------------------------------------------------------------------
  // Normal form, and splitting at slashes
  // ---------------------------------------------------------------------

  /** Python's `text.rstrip("/")`. */
  function StripRight(text: string): string {
    if text != "" && text[|text| - 1] == '/' then StripRight(text[..|text| - 1]) else text
  }

  /** Python's `text.lstrip("/")`. */
  function StripLeft(text: string): string {
    if text != "" && text[0] == '/' then StripLeft(text[1..]) else text
  }

  /** `normalize_rule` in Python. */
  function NormalizeRule(rule: string): string {
    var rooted := if rule != "" && rule[0] == '/' then rule else "/" + rule;
    var trimmed := if |rooted| > 1 then StripRight(rooted) else rooted;
    if trimmed == "" then "/" else trimmed
  }

  /** `normalize_path` in Rust gives the same. */
  method NormalizePath(raw: string) returns (path: string)
    ensures path == NormalizeRule(raw)
  {
    if raw == "" || raw == "/" {
      return "/";
    }
    path := if raw[0] == '/' then raw else "/" + raw;
    ghost var rooted := path;
    while path[|path| - 1] == '/' && |path| > 1
      invariant path != "" && path[0] == '/' && StripRight(path) == StripRight(rooted)
      decreases |path|
    {
      path := path[..|path| - 1];
    }
    assert path == "/" ==> StripRight(path) == "";
  }

  /** `text.split("/")`: at least one piece, and none of them holds a slash. */
  function Split(text: string): (pieces: seq<string>)
    ensures pieces != []
  {
    var slash := IndexOf(text, '/');
    if slash.None? then [text] else [text[..slash.value]] + Split(text[slash.value + 1..])
  }

  function Join(pieces: seq<string>): string {
    if pieces == [] then "" else if |pieces| == 1 then pieces[0] else pieces[0] + "/" + Join(pieces[1..])
  }

  /** The pieces of a normalized path, as both matchers split it. */
  function PathParts(path: string): seq<string> {
    if path == "/" then [] else Split(if path != "" && path[0] == '/' then path[1..] else path)
  }

  /** The pieces of a normalized rule, as Python splits it: every leading slash goes. */
  function RuleParts(rule: string): seq<string> {
    if rule == "/" then [] else Split(StripRight(StripLeft(rule)))
  }

  // ---------------------------------------------------------------------
  // Parsing a rule
  // ---------------------------------------------------------------------

  predicate NameByte(c: char) {
    'a' <= c <= 'z' || 'A' <= c <= 'Z' || '0' <= c <= '9' || c == '_'
  }

  predicate AllNameBytes(name: string) {
    forall i :: 0 <= i < |name| ==> NameByte(name[i])
  }

  function ConverterNamed(name: string): Option<Converter> {
    match name
    case "string" => Some(Text)
    case "str" => Some(Text)
    case "int" => Some(Integer)
    case "float" => Some(Decimal)
    case "uuid" => Some(Uuid)
    case "path" => Some(Path)
    case _ => None
  }

  /** The text between the angle brackets, split at its first colon. */
  function ConverterAndName(inner: string): (string, string) {
    var colon := IndexOf(inner, ':');
    if colon.None? then ("string", inner) else (inner[..colon.value], inner[colon.value + 1..])
  }

  predicate Bracketed(segment: string) {
    |segment| >= 2 && segment[0] == '<' && segment[|segment| - 1] == '>'
  }

  /** One segment in Python: the parameter expression must match, else no bracket may occur. */
  function PySegment(segment: string): Option<Segment> {
    var (converter, name) := if Bracketed(segment) then ConverterAndName(segment[1..|segment| - 1]) else ("", "");
    if Bracketed(segment) && ConverterNamed(converter).Some? && name != "" && AllNameBytes(name)
       && !('0' <= name[0] <= '9') then
      Some(Parameter(name, ConverterNamed(converter).value))
    else if '<' in segment || '>' in segment then None
    else Some(Static(segment))
  }

  /** One segment in Rust, which takes any bracketed text as a parameter. */
  function RustSegment(segment: string): Option<Segment> {
    if Bracketed(segment) then
      var (converter, name) := ConverterAndName(segment[1..|segment| - 1]);
      if name == "" || !AllNameBytes(name) || ConverterNamed(converter).None? then None
      else Some(Parameter(name, ConverterNamed(converter).value))
    else if '<' in segment || '>' in segment then None
    else Some(Static(segment))
  }

  function Weight(segment: Segment): nat {
    match segment
    case Static(_) => 100
    case Parameter(_, Path) => 1
    case Parameter(_, Text) => 20
    case Parameter(_, _) => 30
  }

  function Specificity(segments: seq<Segment>): nat {
    if segments == [] then 0 else Weight(segments[0]) + Specificity(segments[1..])
  }

  /** The segments of a rule; a path parameter must come last. */
  function ParseParts(parts: seq<string>, parse: string -> Option<Segment>): Option<seq<Segment>> {
    if parts == [] then Some([])
    else
      match parse(parts[0])
      case None => None
      case Some(segment) =>
        if segment.Parameter? && segment.converter == Path && |parts| > 1 then None
        else
          match ParseParts(parts[1..], parse)
          case None => None
          case Some(rest) => Some([segment] + rest)
  }

  /** `Rule.__post_init__`. */
  function ParseRule(rule: string): Option<seq<Segment>> {
    ParseParts(RuleParts(NormalizeRule(rule)), PySegment)
  }

  /** `parse_route_pattern` on the normalized pattern. */
  function ParsePattern(rule: string): Option<seq<Segment>> {
    ParseParts(PathParts(NormalizeRule(rule)), RustSegment)
  }

  // ---------------------------------------------------------------------
  // Matching a path
  // ---------------------------------------------------------------------

  function DecodeAll(decode: Decoder, parts: seq<string>): Option<seq<string>> {
    if parts == [] then Some([])
    else
      match (decode(parts[0]), DecodeAll(decode, parts[1..]))
      case (Some(first), Some(rest)) => Some([first] + rest)
      case _ => None
  }

  /** Python's notion of a control character. */
  predicate HasControl(text: string) {
    exists i :: 0 <= i < |text| && (text[i] < ' ' || text[i] == '\U{7F}')
  }

  /** Rust's `char::is_control`, which also holds of U+0080 to U+009F. */
  predicate HasRustControl(text: string) {
    exists i :: 0 <= i < |text| && (text[i] < ' ' || '\U{7F}' <= text[i] <= '\U{9F}')
  }

  function PatternOf(converter: Converter): Regex
    requires converter != Path
  {
    match converter
    case Text => STRING_PATTERN
    case Integer => INT_PATTERN
    case Decimal => FLOAT_PATTERN
    case Uuid => UUID_PATTERN
  }

  predicate PyAccepts(converter: Converter, text: string)
    requires converter != Path
  {
    '/' !in text && '\\' !in text && !HasControl(text) && FullMatch(PatternOf(converter), text)
  }

  predicate RustAccepts(converter: Converter, text: string)
    requires converter != Path
  {
    && '/' !in text && '\\' !in text && !HasRustControl(text)
    && match converter
       case Text => text != ""
       case Integer => IsIntegerLiteral(text)
       case Decimal => IsFloatLiteral(text)
       case Uuid => IsUuid(text)
  }

  function DigitsValue(digits: string): nat
    requires AllDigits(digits)
  {
    if digits == "" then 0
    else DigitsValue(digits[..|digits| - 1]) * 10 + (digits[|digits| - 1] as int - '0' as int)
  }

  /** Python's `int(text)`, on the texts the pattern accepts. */
  function IntValue(text: string): int {
    if !IsIntegerLiteral(text) then 0
    else if text[0] == '-' then 0 - DigitsValue(text[1..])
    else DigitsValue(text)
  }

  /** `_convert_value`. */
  function Convert(converter: Converter, text: string): Value {
    match converter
    case Integer => Number(IntValue(text))
    case Decimal => Real(text)
    case Uuid => Identifier(text)
    case _ => Plain(text)
  }

  type Values = map<string, Value>
  type Texts = map<string, string>

  /** `Rule.match` from one segment on, with what came before in `values`. */
  function PyMatch(segments: seq<Segment>, parts: seq<string>, decode: Decoder, values: Values): Option<Values> {
    if segments == [] then (if parts == [] then Some(values) else None)
    else if parts == [] then None
    else
      match segments[0]
      case Static(text) =>
        if decode(parts[0]) == Some(text) then PyMatch(segments[1..], parts[1..], decode, values) else None
      case Parameter(name, Path) =>
        var decoded := DecodeAll(decode, parts);
        if decoded.None? || HasControl(Join(decoded.value)) then None
        else PyMatch(segments[1..], [], decode, values[name := Plain(Join(decoded.value))])
      case Parameter(name, converter) =>
        var decoded := decode(parts[0]);
        if decoded.None? || !PyAccepts(converter, decoded.value) then None
        else PyMatch(segments[1..], parts[1..], decode, values[name := Convert(converter, decoded.value)])
  }

  /** `match_segments` from one segment on; it keeps texts. */
  function RustMatch(segments: seq<Segment>, parts: seq<string>, decode: Decoder, texts: Texts): Option<Texts> {
    if segments == [] then (if parts == [] then Some(texts) else None)
    else if parts == [] then None
    else
      match segments[0]
      case Static(text) =>
        if decode(parts[0]) == Some(text) then RustMatch(segments[1..], parts[1..], decode, texts) else None
      case Parameter(name, Path) =>
        var decoded := DecodeAll(decode, parts);
        if decoded.None? || HasRustControl(Join(decoded.value)) then None
        else RustMatch(segments[1..], [], decode, texts[name := Join(decoded.value)])
      case Parameter(name, converter) =>
        var decoded := decode(parts[0]);
        if decoded.None? || !RustAccepts(converter, decoded.value) then None
        else RustMatch(segments[1..], parts[1..], decode, texts[name := decoded.value])
  }

  /** `match_segments` as the Rust loop runs it. */
  method MatchSegments(segments: seq<Segment>, parts: seq<string>, decode: Decoder) returns (r: Option<Texts>)
    ensures r == RustMatch(segments, parts, decode, map[])
  {
    var params: Texts, index: nat := map[], 0;
    for i := 0 to |segments|
      invariant index <= |parts|
      invariant RustMatch(segments, parts, decode, map[]) == RustMatch(segments[i..], parts[index..], decode, params)
    {
      var segment := segments[i];
      assert segments[i..][0] == segment && segments[i..][1..] == segments[i + 1..];
      if index >= |parts| {
        return None;
      }
      assert parts[index..][0] == parts[index] && parts[index..][1..] == parts[index + 1..];
      if segment.Static? {
        if decode(parts[index]) != Some(segment.text) {
          return None;
        }
        index := index + 1;
      } else if segment.converter == Path {
        var decoded := DecodeAll(decode, parts[index..]);
        if decoded.None? || HasRustControl(Join(decoded.value)) {
          return None;
        }
        params := params[segment.name := Join(decoded.value)];
        index := |parts|;
      } else {
        var decoded := decode(parts[index]);
        if decoded.None? || !RustAccepts(segment.converter, decoded.value) {
          return None;
        }
        params := params[segment.name := decoded.value];
        index := index + 1;
      }
    }
    r := if index == |parts| then Some(params) else None;
  }

  /** `Rule.match` as the Python loop runs it. */
  method MatchRule(segments: seq<Segment>, parts: seq<string>, decode: Decoder) returns (r: Option<Values>)
    ensures r == PyMatch(segments, parts, decode, map[])
  {
    var params: Values, index: nat := map[], 0;
    for i := 0 to |segments|
      invariant index <= |parts|
      invariant PyMatch(segments, parts, decode, map[]) == PyMatch(segments[i..], parts[index..], decode, params)
    {
      var segment := segments[i];
      assert segments[i..][0] == segment && segments[i..][1..] == segments[i + 1..];
      if index >= |parts| {
        return None;
      }
      assert parts[index..][0] == parts[index] && parts[index..][1..] == parts[index + 1..];
      if segment.Static? {
        if decode(parts[index]) != Some(segment.text) {
          return None;
        }
        index := index + 1;
      } else if segment.converter == Path {
        var decoded := DecodeAll(decode, parts[index..]);
        if decoded.None? || HasControl(Join(decoded.value)) {
          return None;
        }
        params := params[segment.name := Plain(Join(decoded.value))];
        index := |parts|;
      } else {
        var decoded := decode(parts[index]);
        if decoded.None? || !PyAccepts(segment.converter, decoded.value) {
          return None;
        }
        params := params[segment.name := Convert(segment.converter, decoded.value)];
        index := index + 1;
      }
    }
    r := if index == |parts| then Some(params) else None;
  }

  // ---------------------------------------------------------------------
  // The two agree
  // ---------------------------------------------------------------------

  predicate NoUpperControl(text: string) {
    forall i :: 0 <= i < |text| ==> !('\U{80}' <= text[i] <= '\U{9F}')
  }

  predicate PiecePlain(part: string, decode: Decoder) {
    decode(part).Some? ==> NoUpperControl(decode(part).value)
  }

  /** No piece a parameter consumes decodes to a character only Rust counts as a control. */
  predicate ParamsPlain(segments: seq<Segment>, parts: seq<string>, decode: Decoder) {
    if segments == [] || parts == [] then true
    else if segments[0].Static? then ParamsPlain(segments[1..], parts[1..], decode)
    else if segments[0].converter == Path then forall i :: 0 <= i < |parts| ==> PiecePlain(parts[i], decode)
    else PiecePlain(parts[0], decode) && ParamsPlain(segments[1..], parts[1..], decode)
  }

  /** The converter `convert_params` uses for each name: that of its last segment. */
  function Converters(segments: seq<Segment>, before: map<string, Converter>): map<string, Converter> {
    if segments == [] then before
    else if segments[0].Static? then Converters(segments[1..], before)
    else Converters(segments[1..], before[segments[0].name := segments[0].converter])
  }

  /** `convert_params`. */
  function ConvertParams(texts: Texts, converters: map<string, Converter>): Values {
    map name | name in texts :: Convert(if name in converters then converters[name] else Text, texts[name])
  }

  lemma ControlsAgree(text: string)
    ensures HasRustControl(text) <==> HasControl(text) || !NoUpperControl(text)
  {
  }

  /** Rust accepts what Python accepts, but for the controls only it counts. */
  lemma AcceptsAgree(converter: Converter, text: string)
    requires converter != Path
    ensures RustAccepts(converter, text) <==> PyAccepts(converter, text) && NoUpperControl(text)
  {
    ControlsAgree(text);
    match converter
    case Text =>
      OneOrMoreMatches(NotSlash, text);
      if '/' !in text && text != "" {
        assert forall i :: 0 <= i < |text| ==> text[i] in text;
      }
    case Integer => IntegersAgree(text);
    case Decimal => FloatsAgree(text);
    case Uuid => UuidsAgree(text);
  }

  lemma AppendNoUpperControl(a: string, b: string)
    ensures NoUpperControl(a + b) <==> NoUpperControl(a) && NoUpperControl(b)
  {
    assert forall i :: 0 <= i < |a| ==> (a + b)[i] == a[i];
    assert forall i :: 0 <= i < |b| ==> (a + b)[|a| + i] == b[i];
  }

  lemma {:induction false} JoinNoUpperControl(pieces: seq<string>)
    ensures NoUpperControl(Join(pieces)) <==> forall i :: 0 <= i < |pieces| ==> NoUpperControl(pieces[i])
  {
    if |pieces| > 1 {
      JoinNoUpperControl(pieces[1..]);
      assert forall i :: 1 <= i < |pieces| ==> pieces[i] == pieces[1..][i - 1];
      AppendNoUpperControl(pieces[0], "/");
      AppendNoUpperControl(pieces[0] + "/", Join(pieces[1..]));
    }
  }

  lemma {:induction false} DecodedPieces(decode: Decoder, parts: seq<string>)
    requires DecodeAll(decode, parts).Some?
    ensures var decoded := DecodeAll(decode, parts).value;
      |decoded| == |parts| && forall i :: 0 <= i < |parts| ==> decode(parts[i]) == Some(decoded[i])
  {
    if parts != [] {
      DecodedPieces(decode, parts[1..]);
    }
  }

  lemma ConvertOneMore(texts: Texts, converters: map<string, Converter>, name: string, text: string, c: Converter)
    requires texts.Keys == converters.Keys
    ensures ConvertParams(texts[name := text], converters[name := c])
         == ConvertParams(texts, converters)[name := Convert(c, text)]
  {
  }

  lemma PathStaysText(text: string)
    ensures Convert(Path, text) == Plain(text)
  {
  }

  /** From one segment on, Rust matches what Python matches with plain pieces, and the texts convert. */
  lemma {:induction false} MatchesAgreeFrom(segments: seq<Segment>, parts: seq<string>, decode: Decoder,
                                            texts: Texts, converters: map<string, Converter>)
    requires texts.Keys == converters.Keys
    ensures var found, py := RustMatch(segments, parts, decode, texts),
                             PyMatch(segments, parts, decode, ConvertParams(texts, converters));
      && (found.Some? <==> py.Some? && ParamsPlain(segments, parts, decode))
      && (found.Some? ==> py == Some(ConvertParams(found.value, Converters(segments, converters))))
    decreases |segments|
  {
    hide Join, Convert, HasControl, HasRustControl, PyAccepts, RustAccepts, ConvertParams, NoUpperControl;
    if segments != [] && parts != [] {
      var rest := parts[1..];
      match segments[0]
      case Static(text) =>
        MatchesAgreeFrom(segments[1..], rest, decode, texts, converters);
      case Parameter(name, converter) =>
        if converter == Path {
          var decoded := DecodeAll(decode, parts);
          if decoded.Some? {
            var text := Join(decoded.value);
            DecodedPieces(decode, parts);
            JoinNoUpperControl(decoded.value);
            ControlsAgree(text);
            ConvertOneMore(texts, converters, name, text, Path);
            PathStaysText(text);
            MatchesAgreeFrom(segments[1..], [], decode, texts[name := text], converters[name := Path]);
          }
        } else {
          var decoded := decode(parts[0]);
          if decoded.Some? {
            AcceptsAgree(converter, decoded.value);
            ConvertOneMore(texts, converters, name, decoded.value, converter);
            MatchesAgreeFrom(segments[1..], rest, decode, texts[name := decoded.value], converters[name := converter]);
          }
        }
    }
  }

  /**
   * For the same segments Rust matches a path exactly when Python does and no parameter takes a
   * piece with a control character only Rust counts; the texts then convert to Python's values.
   */
  lemma {:induction false} MatchesAgree(segments: seq<Segment>, parts: seq<string>, decode: Decoder)
    ensures var found, py := RustMatch(segments, parts, decode, map[]), PyMatch(segments, parts, decode, map[]);
      && (found.Some? <==> py.Some? && ParamsPlain(segments, parts, decode))
      && (found.Some? ==> py == Some(ConvertParams(found.value, Converters(segments, map[]))))
  {
    MatchesAgreeFrom(segments, parts, decode, map[], map[]);
    assert ConvertParams(map[], map[]) == map[];
  }

  /** A path piece that decodes to U+0085 tells the two apart: only Python lets it through. */
  lemma UpperControlsDisagree(decode: Decoder)
    requires decode("%C2%85") == Some("\U{85}")
    ensures var segments := [Parameter("name", Text)];
      && PyMatch(segments, ["%C2%85"], decode, map[]) == Some(map["name" := Plain("\U{85}")])
      && RustMatch(segments, ["%C2%85"], decode, map[]).None?
  {
    OneOrMoreMatches(NotSlash, "\U{85}");
    assert "\U{85}"[0] == '\U{85}';
  }

  // ---------------------------------------------------------------------
  // Rules become the same segments
  // ---------------------------------------------------------------------

  /** A rule whose text, once normalized, does not begin with an empty segment. */
  predicate NoEmptyHead(rule: string) {
    var normal := NormalizeRule(rule);
    |normal| > 1 ==> normal[1] != '/'
  }

  lemma {:induction false} PartsAgree(parts: seq<string>)
    ensures ParseParts(parts, PySegment).Some? ==> ParseParts(parts, RustSegment) == ParseParts(parts, PySegment)
  {
    if parts != [] {
      PartsAgree(parts[1..]);
    }
  }

  lemma {:induction false} StripRightEnds(text: string)
    ensures StripRight(text) != "" ==> StripRight(text)[|StripRight(text)| - 1] != '/'
    ensures StripRight(text) <= text
    ensures text != "" && text[0] != '/' ==> StripRight(text) != ""
  {
    if text != "" && text[|text| - 1] == '/' {
      StripRightEnds(text[..|text| - 1]);
    }
  }

  /** Normal rules start with a slash and, but for "/" itself, do not end with one. */
  lemma NormalForm(rule: string)
    ensures var n := NormalizeRule(rule);
      n != "" && n[0] == '/' && (|n| > 1 ==> n[|n| - 1] != '/') && NormalizeRule(n) == n
  {
    var rooted := if rule != "" && rule[0] == '/' then rule else "/" + rule;
    StripRightEnds(rooted);
    assert rooted != "" && rooted[0] == '/';
  }

  /** A text without its trailing slashes. */
  predicate IsTrimmed(trimmed: string, text: string) {
    && trimmed <= text && (forall i :: |trimmed| <= i < |text| ==> text[i] == '/')
    && (trimmed != "" ==> trimmed[|trimmed| - 1] != '/')
  }

  /** A rule with a leading slash and without trailing ones, or "/" if it has nothing else. */
  predicate IsNormal(normal: string, rule: string) {
    var rooted := if rule != "" && rule[0] == '/' then rule else "/" + rule;
    if forall i :: 0 <= i < |rooted| ==> rooted[i] == '/' then normal == "/" else IsTrimmed(normal, rooted)
  }

  lemma {:induction false} TrimmedIs(text: string)
    ensures IsTrimmed(StripRight(text), text)
  {
    if text != "" && text[|text| - 1] == '/' {
      TrimmedIs(text[..|text| - 1]);
    }
  }

  /** What the normal form of a rule keeps of it. */
  lemma {:induction false} NormalIs(rule: string)
    ensures IsNormal(NormalizeRule(rule), rule)
  {
    var rooted := if rule != "" && rule[0] == '/' then rule else "/" + rule;
    TrimmedIs(rooted);
    if StripRight(rooted) != "" {
      assert rooted[|StripRight(rooted)| - 1] != '/';
    }
  }

  /** The words of the converters. */
  predicate IsWord(word: string, converter: Converter) {
    match converter
    case Text => word == "string" || word == "str"
    case Integer => word == "int"
    case Decimal => word == "float"
    case Uuid => word == "uuid"
    case Path => word == "path"
  }

  predicate IsIdentifier(name: string) {
    && name != "" && !('0' <= name[0] <= '9')
    && forall i :: 0 <= i < |name| ==>
         'a' <= name[i] <= 'z' || 'A' <= name[i] <= 'Z' || '0' <= name[i] <= '9' || name[i] == '_'
  }

  lemma WordIsPlain(word: string, converter: Converter)
    requires IsWord(word, converter)
    ensures ':' !in word && '/' !in word && ConverterNamed(word) == Some(converter)
  {
  }

  lemma NoSlashIsOne(part: string)
    requires part != "" && '/' !in part
    ensures RuleParts(NormalizeRule("/" + part)) == [part]
  {
    hide ParseParts;
    var rule := "/" + part;
    assert part[0] in part && part[|part| - 1] in part && rule[|rule| - 1] == part[|part| - 1];
    assert rule[1..] == part;
    assert NormalizeRule(rule) == rule;
    assert StripLeft(part) == part && StripLeft(rule) == part && StripRight(part) == part;
    assert Split(part) == [part];
  }

  lemma ParsesAlone(part: string, segment: Segment)
    requires PySegment(part) == Some(segment)
    ensures ParseParts([part], PySegment) == Some([segment])
  {
    hide PySegment;
    assert [part][1..] == [] && ParseParts([], PySegment) == Some([]);
    assert [segment] + [] == [segment];
  }

  lemma ParsesSegment(inner: string, segment: Segment)
    requires '/' !in inner && PySegment("<" + inner + ">") == Some(segment)
    ensures ParseRule("/<" + inner + ">") == Some([segment])
  {
    hide PySegment, ParseParts, RuleParts, NormalizeRule;
    var part := "<" + inner + ">";
    NoSlashIsOne(part);
    ParsesAlone(part, segment);
    assert "/<" + inner + ">" == "/" + part;
  }

  lemma ReadsInner(inner: string, word: string, converter: Converter, name: string)
    requires IsIdentifier(name) && ConverterAndName(inner) == (word, name) && ConverterNamed(word) == Some(converter)
    ensures PySegment("<" + inner + ">") == Some(Parameter(name, converter))
  {
    hide ConverterNamed, ConverterAndName;
    var segment := "<" + inner + ">";
    assert segment[1..|segment| - 1] == inner;
  }

  lemma SplitsAtColon(word: string, name: string)
    requires ':' !in word
    ensures ConverterAndName(word + ":" + name) == (word, name)
  {
    var inner := word + ":" + name;
    assert inner[|word|] == ':';
    assert forall i :: 0 <= i < |word| ==> inner[i] == word[i];
    assert inner[..|word|] == word && inner[|word| + 1..] == name;
  }

  /** What a parameter of each converter is written as. */
  lemma ParameterIsRead(word: string, converter: Converter, name: string)
    requires IsIdentifier(name) && IsWord(word, converter)
    ensures ParseRule("/<" + word + ":" + name + ">") == Some([Parameter(name, converter)])
  {
    hide ParseRule, ConverterNamed, PySegment;
    assert '/' !in name;
    WordIsPlain(word, converter);
    SplitsAtColon(word, name);
    hide ConverterAndName, IsWord;
    var inner := word + ":" + name;
    ReadsInner(inner, word, converter, name);
    ParsesSegment(inner, Parameter(name, converter));
    assert "/<" + inner + ">" == "/<" + word + ":" + name + ">";
  }

  /** Without a converter it takes text. */
  lemma BareParameterIsRead(name: string)
    requires IsIdentifier(name)
    ensures ParseRule("/<" + name + ">") == Some([Parameter(name, Text)])
  {
    hide ParseRule, PySegment;
    assert ':' !in name && '/' !in name;
    WordIsPlain("string", Text);
    ReadsInner(name, "string", Text, name);
    ParsesSegment(name, Parameter(name, Text));
  }

  /** An empty first segment is static text in Rust. */
  lemma {:induction false} EmptyHeadStays(parts: seq<string>)
    requires parts != [] && parts[0] == "" && ParseParts(parts, RustSegment).Some?
    ensures ParseParts(parts, RustSegment).value != [] && ParseParts(parts, RustSegment).value[0] == Static("")
  {
  }

  /** A first segment that is not empty is not the empty text in Python. */
  lemma {:induction false} HeadIsNotEmpty(parts: seq<string>)
    requires parts != [] && parts[0] != "" && ParseParts(parts, PySegment).Some?
    ensures ParseParts(parts, PySegment).value != [] && ParseParts(parts, PySegment).value[0] != Static("")
  {
  }

  lemma {:induction false} StripLeftBegins(text: string)
    requires text != "" && text[|text| - 1] != '/'
    ensures var rest := StripLeft(text); rest != "" && rest[0] != '/' && rest[|rest| - 1] == text[|text| - 1]
  {
    if text[0] == '/' {
      StripLeftBegins(text[1..]);
    }
  }

  lemma {:induction false} SplitBegins(text: string)
    requires text != ""
    ensures Split(text)[0] == "" <==> text[0] == '/'
  {
  }

  /** A rule Python accepts becomes the same segments in Rust exactly when its first segment is not empty. */
  lemma {:induction false} RulesAgree(rule: string)
    requires ParseRule(rule).Some?
    ensures ParsePattern(rule) == ParseRule(rule) <==> NoEmptyHead(rule)
  {
    hide ParseParts, Split;
    var n := NormalizeRule(rule);
    NormalForm(rule);
    if |n| > 1 {
      var body := n[1..];
      assert body[|body| - 1] == n[|n| - 1];
      StripLeftBegins(n);
      assert StripRight(StripLeft(n)) == StripLeft(n);
      SplitBegins(body);
      SplitBegins(StripLeft(n));
      if n[1] != '/' {
        assert StripLeft(n) == StripLeft(body) == body;
      } else if ParsePattern(rule).Some? {
        EmptyHeadStays(PathParts(n));
        HeadIsNotEmpty(RuleParts(n));
      }
    }
    PartsAgree(PathParts(n));
  }

  /** The empty segments a text begins with, one for each leading slash. */
  function Leading(text: string): nat {
    if text != "" && text[0] == '/' then 1 + Leading(text[1..]) else 0
  }

  function Blanks(n: nat): seq<string> {
    if n == 0 then [] else [""] + Blanks(n - 1)
  }

  function BlankSegments(n: nat): seq<Segment> {
    if n == 0 then [] else [Static("")] + BlankSegments(n - 1)
  }

  lemma {:induction false} SplitLeads(text: string)
    ensures Split(text) == Blanks(Leading(text)) + Split(StripLeft(text))
  {
    if text != "" && text[0] == '/' {
      SplitLeads(text[1..]);
      assert Split(text) == [""] + Split(text[1..]);
      Sequences.Assoc([""], Blanks(Leading(text[1..])), Split(StripLeft(text)));
    } else {
      Sequences.Nil(Split(text));
    }
  }

  lemma {:induction false} BlanksParse(n: nat, parts: seq<string>)
    requires ParseParts(parts, RustSegment).Some?
    ensures ParseParts(Blanks(n) + parts, RustSegment) == Some(BlankSegments(n) + ParseParts(parts, RustSegment).value)
  {
    var rest := ParseParts(parts, RustSegment).value;
    if n == 0 {
      Sequences.Nil(parts);
      Sequences.Nil(rest);
    } else {
      BlanksParse(n - 1, parts);
      var all := [""] + (Blanks(n - 1) + parts);
      Sequences.Assoc([""], Blanks(n - 1), parts);
      Sequences.Assoc([Static("")], BlankSegments(n - 1), rest);
      assert all[0] == "" && all[1..] == Blanks(n - 1) + parts;
      assert RustSegment("") == Some(Static(""));
    }
  }

  /** Rust accepts every rule Python accepts, with an empty segment for each slash after the first. */
  lemma {:induction false} RustReads(rule: string)
    requires ParseRule(rule).Some?
    ensures ParsePattern(rule) == Some(BlankSegments(Leading(NormalizeRule(rule)[1..])) + ParseRule(rule).value)
  {
    hide ParseParts, Split;
    var n := NormalizeRule(rule);
    NormalForm(rule);
    if |n| > 1 {
      var body := n[1..];
      assert body[|body| - 1] == n[|n| - 1];
      StripLeftBegins(body);
      assert StripLeft(n) == StripLeft(body) && StripRight(StripLeft(n)) == StripLeft(n);
      SplitLeads(body);
      PartsAgree(RuleParts(n));
      BlanksParse(Leading(body), RuleParts(n));
    } else {
      assert n == "/" && n[1..] == "";
      PartsAgree([]);
      Sequences.Nil(ParseRule(rule).value);
    }
  }

  lemma ParsesOne(part: string, parse: string -> Option<Segment>)
    requires parse(part) == Some(Static(part))
    ensures ParseParts([part], parse) == Some([Static(part)])
  {
    assert [part][1..] == [];
    assert ParseParts([], parse) == Some([]);
    assert [Static(part)] + [] == [Static(part)];
  }

  lemma ParsesTwo(a: string, b: string)
    requires RustSegment(a) == Some(Static(a)) && RustSegment(b) == Some(Static(b))
    ensures ParseParts([a, b], RustSegment) == Some([Static(a), Static(b)])
  {
    ParsesOne(b, RustSegment);
    assert [a, b][1..] == [b];
    assert [Static(a)] + [Static(b)] == [Static(a), Static(b)];
  }

  /** A rule with an empty first segment is read differently: here Python drops it, Rust keeps it. */
  lemma EmptyHeadDisagrees()
    ensures ParseRule("//a") == Some([Static("a")]) && ParsePattern("//a") == Some([Static(""), Static("a")])
  {
    var n := NormalizeRule("//a");
    assert n == "//a";
    assert StripLeft("a") == "a" && StripLeft("/a") == "a" && StripLeft(n) == "a";
    assert RuleParts(n) == ["a"];
    ParsesOne("a", PySegment);
    assert n[1..] == "/a" && "/a"[..0] == "" && "/a"[1..] == "a";
    assert Split("a") == ["a"];
    assert ParseRule("//a") == ParseParts(["a"], PySegment);
    assert PathParts(n) == ["", "a"];
    ParsesTwo("", "a");
  }
}
