/**
 * Building a URL from a rule and values, with percent-encoding (section 2.1 of RFC 3986), and
 * matching the URL against the rule again. UTF-8 is a parameter: an encoding of each character
 * and a decoder that undoes it.
 */
module RouteBuild {
  import Bytes
  import opened Wrappers
  import opened Patterns
  import opened Rules
  import Sequences

  type Byte = Bytes.Byte

  datatype Utf8 = Utf8(encode: char -> seq<Byte>, decode: seq<Byte> -> Option<string>)

  function Encode(u: Utf8, text: string): seq<Byte> {
    if text == "" then [] else u.encode(text[0]) + Encode(u, text[1..])
  }

  /**
   * ASCII stands for itself, other characters use bytes from 128 up, and decoding gives a text for
   * its encoding and nothing else.
   */
  ghost predicate IsUtf8(u: Utf8) {
    && (forall c: char :: c as int < 128 ==> u.encode(c) == [c as int])
    && (forall c: char :: c as int >= 128 ==>
          u.encode(c) != [] && forall i :: 0 <= i < |u.encode(c)| ==> u.encode(c)[i] >= 128)
    && (forall text: string :: u.decode(Encode(u, text)) == Some(text))
    && (forall bytes: seq<Byte>, text: string :: u.decode(bytes) == Some(text) ==> bytes == Encode(u, text))
  }

  // ---------------------------------------------------------------------
  // Percent-encoding
  // ---------------------------------------------------------------------

  const PERCENT: Byte := 37

  /** The characters `quote` leaves alone, apart from its `safe` argument. */
  predicate Unreserved(b: Byte) {
    48 <= b <= 57 || 65 <= b <= 90 || 97 <= b <= 122 || b == 95 || b == 46 || b == 45 || b == 126
  }

  function HexDigit(n: nat): char
    requires n < 16
  {
    if n < 10 then (n + 48) as char else (n + 55) as char
  }

  function HexValue(b: Byte): Option<nat> {
    if 48 <= b <= 57 then Some(b - 48)
    else if 65 <= b <= 70 then Some(b - 55)
    else if 97 <= b <= 102 then Some(b - 87)
    else None
  }

  function QuoteByte(b: Byte, slash: bool): string {
    if Unreserved(b) || (slash && b == 47) then [b as char] else ['%', HexDigit(b / 16), HexDigit(b % 16)]
  }

  function QuoteBytes(bytes: seq<Byte>, slash: bool): string {
    if bytes == [] then "" else QuoteByte(bytes[0], slash) + QuoteBytes(bytes[1..], slash)
  }

  /** `quote(text, safe="/")` or `quote(text, safe="")`. */
  function Quote(u: Utf8, text: string, slash: bool): string {
    QuoteBytes(Encode(u, text), slash)
  }

  /** `unquote_to_bytes`: a percent sign that two hexadecimal digits do not follow stays. */
  function Unquote(bytes: seq<Byte>): seq<Byte> {
    if bytes == [] then []
    else if bytes[0] == PERCENT && |bytes| >= 3 && HexValue(bytes[1]).Some? && HexValue(bytes[2]).Some? then
      [HexValue(bytes[1]).value * 16 + HexValue(bytes[2]).value] + Unquote(bytes[3..])
    else [bytes[0]] + Unquote(bytes[1..])
  }

  /** `_decode_segment`. */
  function Decoding(u: Utf8): Decoder {
    (text: string) => u.decode(Unquote(Encode(u, text)))
  }

  lemma {:induction false} EncodeAppend(u: Utf8, a: string, b: string)
    ensures Encode(u, a + b) == Encode(u, a) + Encode(u, b)
  {
    if a == "" {
      Sequences.Nil(b);
      Sequences.Nil(Encode(u, b));
    } else {
      EncodeAppend(u, a[1..], b);
      Sequences.HeadTail(a, b);
      Sequences.Assoc(u.encode(a[0]), Encode(u, a[1..]), Encode(u, b));
    }
  }

  lemma {:induction false} EncodeQuotedByte(u: Utf8, b: Byte, slash: bool)
    requires IsUtf8(u)
    ensures Encode(u, QuoteByte(b, slash)) ==
      if Unreserved(b) || (slash && b == 47) then [b]
      else [PERCENT, HexDigit(b / 16) as int, HexDigit(b % 16) as int]
  {
    var text := QuoteByte(b, slash);
    assert forall i :: 0 <= i < |text| ==> text[i] as int < 128;
    assert Encode(u, text[1..]) == u.encode(text[0])[1..] + Encode(u, text[1..]);
    if |text| == 3 {
      assert text[1..][1..] == text[2..] && text[2..][1..] == "";
      assert Encode(u, text[2..]) == [text[2] as int];
      assert Encode(u, text[1..]) == [text[1] as int, text[2] as int];
    } else {
      assert text[1..] == "";
    }
  }

  /** Unquoting one quoted byte. */
  lemma {:induction false} UnquoteHead(b: Byte, slash: bool, rest: seq<Byte>)
    ensures Unquote((if Unreserved(b) || (slash && b == 47) then [b]
                     else [PERCENT, HexDigit(b / 16) as int, HexDigit(b % 16) as int]) + rest) == [b] + Unquote(rest)
  {
    if Unreserved(b) || (slash && b == 47) {
      assert ([b] + rest)[1..] == rest;
    } else {
      var bytes := [PERCENT, HexDigit(b / 16) as int, HexDigit(b % 16) as int] + rest;
      assert bytes[3..] == rest;
      assert HexValue(bytes[1]) == Some(b / 16) && HexValue(bytes[2]) == Some(b % 16);
    }
  }

  lemma {:induction false} UnquoteNothing(u: Utf8)
    ensures Unquote(Encode(u, "")) == []
  {
  }

  lemma {:induction false} UnquoteQuoted(u: Utf8, bytes: seq<Byte>, slash: bool)
    requires IsUtf8(u)
    ensures Unquote(Encode(u, QuoteBytes(bytes, slash))) == bytes
  {
    hide IsUtf8, Unquote, Unreserved, QuoteByte;
    if bytes == [] {
      UnquoteNothing(u);
    } else {
      var b, rest := bytes[0], QuoteBytes(bytes[1..], slash);
      EncodeAppend(u, QuoteByte(b, slash), rest);
      EncodeQuotedByte(u, b, slash);
      UnquoteHead(b, slash, Encode(u, rest));
      UnquoteQuoted(u, bytes[1..], slash);
    }
  }

  /** Decoding a quoted text gives the text back. */
  lemma DecodesQuoted(u: Utf8, text: string, slash: bool)
    requires IsUtf8(u)
    ensures Decoding(u)(Quote(u, text, slash)) == Some(text)
  {
    UnquoteQuoted(u, Encode(u, text), slash);
  }

  /** A percent sign with two hexadecimal digits behind it. */
  predicate BeginsEscape(bytes: seq<Byte>) {
    |bytes| >= 3 && bytes[0] == PERCENT && HexValue(bytes[1]).Some? && HexValue(bytes[2]).Some?
  }

  predicate Escaped(bytes: seq<Byte>) {
    bytes != [] && (BeginsEscape(bytes) || Escaped(bytes[1..]))
  }

  predicate HexChar(c: char) {
    '0' <= c <= '9' || 'A' <= c <= 'F' || 'a' <= c <= 'f'
  }

  predicate BeginsTextEscape(text: string) {
    |text| >= 3 && text[0] == '%' && HexChar(text[1]) && HexChar(text[2])
  }

  /** The text contains an escape. */
  predicate HasEscape(text: string) {
    text != "" && (BeginsTextEscape(text) || HasEscape(text[1..]))
  }

  /** Unquoting shortens what contains an escape and leaves the rest alone. */
  lemma {:induction false} UnquoteShortens(bytes: seq<Byte>)
    ensures |Unquote(bytes)| <= |bytes|
    ensures Escaped(bytes) ==> |Unquote(bytes)| < |bytes|
    ensures !Escaped(bytes) ==> Unquote(bytes) == bytes
    decreases |bytes|
  {
    if BeginsEscape(bytes) {
      UnquoteShortens(bytes[3..]);
    } else if bytes != [] {
      UnquoteShortens(bytes[1..]);
      Sequences.ConsIs(bytes);
    }
  }

  lemma {:induction false} HighBytesSkipped(high: seq<Byte>, rest: seq<Byte>)
    requires forall i :: 0 <= i < |high| ==> high[i] >= 128
    ensures Escaped(high + rest) <==> Escaped(rest)
  {
    if high == [] {
      Sequences.Nil(rest);
    } else {
      Sequences.HeadTail(high, rest);
      HighBytesSkipped(high[1..], rest);
    }
  }

  lemma {:induction false} EncodeHead(u: Utf8, text: string)
    requires IsUtf8(u)
    ensures text != "" ==> Encode(u, text) == u.encode(text[0]) + Encode(u, text[1..]) && Encode(u, text) != []
    ensures text != "" && text[0] as int < 128 ==> Encode(u, text) == [text[0] as int] + Encode(u, text[1..])
    ensures text != "" && text[0] as int >= 128 ==> Encode(u, text)[0] >= 128
    ensures text == "" ==> Encode(u, text) == []
  {
  }

  /** The bytes of a text begin with an escape exactly when the text does. */
  lemma {:induction false} EscapesBegin(u: Utf8, text: string)
    requires IsUtf8(u) && text != "" && text[0] as int < 128
    ensures BeginsEscape(Encode(u, text)) <==> BeginsTextEscape(text)
  {
    hide IsUtf8, Encode;
    EncodeHead(u, text);
    EncodeHead(u, text[1..]);
    if |text| > 1 {
      assert text[1..][0] == text[1] && text[1..][1..] == text[2..];
      EncodeHead(u, text[2..]);
      if |text| > 2 {
        assert text[2..][0] == text[2];
      }
    }
  }

  lemma NoHighEscape(text: string)
    requires text != "" && text[0] as int >= 128
    ensures !BeginsTextEscape(text)
  {
  }

  lemma {:induction false} EncodedEscapes(u: Utf8, text: string)
    requires IsUtf8(u)
    ensures Escaped(Encode(u, text)) <==> HasEscape(text)
  {
    hide Encode, BeginsEscape, BeginsTextEscape;
    EncodeHead(u, text);
    if text != "" {
      EncodedEscapes(u, text[1..]);
      if text[0] as int < 128 {
        EscapesBegin(u, text);
        Sequences.HeadTail([text[0] as int], Encode(u, text[1..]));
      } else {
        HighBytesSkipped(u.encode(text[0]), Encode(u, text[1..]));
        NoHighEscape(text);
      }
    }
  }

  /** A text decodes to itself exactly when it contains no escape. */
  lemma {:induction false} DecodesToItself(u: Utf8, text: string)
    requires IsUtf8(u)
    ensures Decoding(u)(text) == Some(text) <==> !HasEscape(text)
  {
    EncodedEscapes(u, text);
    UnquoteShortens(Encode(u, text));
  }

  // ---------------------------------------------------------------------
  // Splitting and joining
  // ---------------------------------------------------------------------

  lemma {:induction false} SplitHead(c: char, text: string)
    ensures Split([c] + text) ==
      if c == '/' then [""] + Split(text) else [[c] + Split(text)[0]] + Split(text)[1..]
  {
    var whole := [c] + text;
    assert whole[1..] == text;
    var slash := IndexOf(text, '/');
    if c == '/' {
      assert whole[..0] == "";
    } else if slash.Some? {
      assert whole[..slash.value + 1] == [c] + text[..slash.value];
      assert whole[slash.value + 2..] == text[slash.value + 1..];
    }
  }

  lemma {:induction false} SplitPrefix(a: string, text: string)
    requires '/' !in a
    ensures Split(a + text) == [a + Split(text)[0]] + Split(text)[1..]
  {
    hide Split;
    var first, more := Split(text)[0], Split(text)[1..];
    if a == "" {
      Sequences.Nil(text);
      Sequences.Nil(first);
      Sequences.ConsIs(Split(text));
    } else {
      assert a[0] in a;
      SplitPrefix(a[1..], text);
      SplitHead(a[0], a[1..] + text);
      Sequences.ConsIs(a);
      Sequences.Assoc([a[0]], a[1..], text);
      Sequences.Assoc([a[0]], a[1..], first);
      Sequences.HeadTail([a[1..] + first], more);
      Sequences.Nil(more);
    }
  }

  lemma {:induction false} SplitWhole(a: string)
    requires '/' !in a
    ensures Split(a) == [a]
  {
    SplitPrefix(a, "");
    Sequences.Nil(a);
  }

  /** A piece, a slash and the rest split into the piece and the pieces of the rest. */
  lemma {:induction false} SplitJoined(a: string, text: string)
    requires '/' !in a
    ensures Split(a + "/" + text) == [a] + Split(text)
  {
    hide Split;
    SplitHead('/', text);
    SplitPrefix(a, "/" + text);
    Sequences.Assoc(a, "/", text);
    Sequences.HeadTail([""], Split(text));
    Sequences.Nil(Split(text));
    Sequences.Nil(a);
  }

  lemma JoinOne(piece: string)
    ensures Join([piece]) == piece
  {
  }

  lemma {:induction false} JoinMore(pieces: seq<string>)
    requires |pieces| > 1
    ensures Join(pieces) == pieces[0] + "/" + Join(pieces[1..])
  {
  }

  lemma {:induction false} JoinGrows(c: char, pieces: seq<string>)
    requires pieces != []
    ensures Join([[c] + pieces[0]] + pieces[1..]) == [c] + Join(pieces)
    ensures Join([""] + pieces) == "/" + Join(pieces)
  {
    hide Join;
    var grown, led := [[c] + pieces[0]] + pieces[1..], [""] + pieces;
    assert led[1..] == pieces;
    JoinMore(led);
    assert "" + "/" + Join(pieces) == "/" + Join(pieces);
    assert grown[1..] == pieces[1..];
    if |pieces| > 1 {
      JoinMore(pieces);
      JoinMore(grown);
    } else {
      assert pieces == [pieces[0]] && grown == [grown[0]];
      JoinOne(pieces[0]);
      JoinOne(grown[0]);
    }
  }

  lemma {:induction false} JoinSplit(text: string)
    ensures Join(Split(text)) == text
  {
    hide Split, Join;
    if text == "" {
      JoinOne("");
      SplitWhole("");
    } else {
      JoinSplit(text[1..]);
      SplitHead(text[0], text[1..]);
      assert [text[0]] + text[1..] == text;
      JoinGrows(text[0], Split(text[1..]));
    }
  }

  lemma {:induction false} PiecesHoldNoSlash(text: string, piece: string)
    requires piece in Split(text)
    ensures '/' !in piece
  {
    var slash := IndexOf(text, '/');
    if slash.Some? {
      var rest := Split(text[slash.value + 1..]);
      if piece != text[..slash.value] {
        PiecesHoldNoSlash(text[slash.value + 1..], piece);
      }
    }
  }

  lemma {:induction false} LastPiece(text: string)
    requires text != "" && text[|text| - 1] != '/'
    ensures Split(text)[|Split(text)| - 1] != ""
  {
    var slash := IndexOf(text, '/');
    if slash.Some? {
      LastPiece(text[slash.value + 1..]);
    }
  }

  // ---------------------------------------------------------------------
  // Values as text
  // ---------------------------------------------------------------------

  function Digits(n: nat): (digits: string)
    ensures digits != "" && (n > 0 ==> digits[0] != '0') && (n < 10 ==> |digits| == 1)
  {
    if n < 10 then [(n + 48) as char] else Digits(n / 10) + [(n % 10 + 48) as char]
  }

  /** `str(n)` of an integer. */
  function IntText(n: int): string {
    if n < 0 then "-" + Digits(-n) else Digits(n)
  }

  lemma {:induction false} DigitsRead(n: nat)
    ensures IsAsciiDigits(Digits(n)) && DigitsValue(Digits(n)) == n
  {
    if n < 10 {
      var d := Digits(n);
      assert d[..0] == "" && DigitsValue("") == 0;
    } else {
      DigitsRead(n / 10);
      var d := Digits(n);
      assert d[..|d| - 1] == Digits(n / 10);
    }
  }

  predicate FloatChar(c: char) {
    '0' <= c <= '9' || c == '-' || c == '.'
  }

  lemma IntTextRead(n: int)
    ensures IsIntegerLiteral(IntText(n)) && IntValue(IntText(n)) == n
    ensures IntText(n) != "" && forall c | c in IntText(n) :: FloatChar(c)
  {
    DigitsRead(if n < 0 then -n else n);
    if n < 0 {
      assert IntText(n)[1..] == Digits(-n);
    }
  }

  /** `str(value)`; a float or UUID is held as its printed form. */
  function TextOf(value: Value): string {
    match value
    case Plain(text) => text
    case Number(n) => IntText(n)
    case Real(literal) => literal
    case Identifier(literal) => literal
  }

  /** A value the converter can carry. */
  predicate Fits(converter: Converter, value: Value) {
    match converter
    case Text =>
      value.Plain? && value.text != "" && '/' !in value.text && '\\' !in value.text && !HasControl(value.text)
    case Integer => value.Number?
    case Decimal => value.Real? && IsFloatLiteral(value.literal)
    case Uuid => value.Identifier? && IsUuid(value.literal)
    case Path => value.Plain? && value.text != "" && value.text[|value.text| - 1] != '/' && !HasControl(value.text)
  }

  lemma {:induction false} StringMatches(text: string)
    requires text != "" && '/' !in text
    ensures FullMatch(STRING_PATTERN, text)
  {
    OneOrMoreMatches(NotSlash, text);
    assert forall i :: 0 <= i < |text| ==> text[i] in text;
  }

  lemma NumericIsClean(text: string)
    requires forall c | c in text :: FloatChar(c)
    ensures '/' !in text && '\\' !in text && !HasControl(text)
  {
    assert forall i :: 0 <= i < |text| ==> FloatChar(text[i]);
  }

  lemma UuidIsClean(text: string)
    requires IsUuid(text)
    ensures text != "" && '/' !in text && '\\' !in text && !HasControl(text)
  {
  }

  lemma FloatChars(text: string)
    requires IsFloatLiteral(text)
    ensures text != "" && forall c | c in text :: FloatChar(c)
  {
    var unsigned := Unsigned(text);
    var dot := IndexOf(unsigned, '.');
    assert forall c | c in text :: c == '-' || c in unsigned;
    if dot.Some? {
      var whole, fraction := unsigned[..dot.value], unsigned[dot.value + 1..];
      assert unsigned == whole + ['.'] + fraction;
    }
  }

  /** The match loop accepts the text of a fitting value and converts it back. */
  lemma FittingIsAccepted(converter: Converter, value: Value)
    requires converter != Path && Fits(converter, value)
    ensures PyAccepts(converter, TextOf(value)) && Convert(converter, TextOf(value)) == value && TextOf(value) != ""
  {
    hide FullMatch, IsIntegerLiteral, IsFloatLiteral, IsUuid, HasControl, IntText, IntValue;
    var text := TextOf(value);
    match converter
    case Text =>
      StringMatches(text);
    case Integer =>
      IntTextRead(value.value);
      IntegersAgree(text);
      NumericIsClean(text);
    case Decimal =>
      FloatsAgree(text);
      FloatChars(text);
      NumericIsClean(text);
    case Uuid =>
      UuidsAgree(text);
      UuidIsClean(text);
  }

  // ---------------------------------------------------------------------
  // Building
  // ---------------------------------------------------------------------

  /** The part of the URL a segment becomes; None for a missing value. */
  function Part(u: Utf8, segment: Segment, values: Values): Option<string> {
    match segment
    case Static(text) => Some(text)
    case Parameter(name, converter) =>
      if name in values then Some(Quote(u, TextOf(values[name]), converter == Path)) else None
  }

  function Parts(u: Utf8, segments: seq<Segment>, values: Values): Option<seq<string>> {
    if segments == [] then Some([])
    else
      match (Part(u, segments[0], values), Parts(u, segments[1..], values))
      case (Some(part), Some(rest)) => Some([part] + rest)
      case _ => None
  }

  function Url(u: Utf8, segments: seq<Segment>, values: Values): Option<string> {
    match Parts(u, segments, values)
    case None => None
    case Some(parts) => Some("/" + Join(parts))
  }

  lemma {:induction false} PartsAppend(u: Utf8, a: seq<Segment>, b: seq<Segment>, values: Values)
    ensures Parts(u, a + b, values) ==
      if Parts(u, a, values).Some? && Parts(u, b, values).Some?
      then Some(Parts(u, a, values).value + Parts(u, b, values).value) else None
  {
    if a == [] {
      assert a + b == b;
      if Parts(u, b, values).Some? {
        assert [] + Parts(u, b, values).value == Parts(u, b, values).value;
      }
    } else {
      PartsAppend(u, a[1..], b, values);
      assert (a + b)[1..] == a[1..] + b;
      if Parts(u, a, values).Some? && Parts(u, b, values).Some? {
        assert Parts(u, a, values).value + Parts(u, b, values).value
            == [Parts(u, a, values).value[0]] + (Parts(u, a[1..], values).value + Parts(u, b, values).value);
      }
    }
  }

  lemma {:induction false} OnePart(u: Utf8, segment: Segment, values: Values)
    ensures Part(u, segment, values).None? <==> segment.Parameter? && segment.name !in values
    ensures Parts(u, [segment], values) ==
      if Part(u, segment, values).Some? then Some([Part(u, segment, values).value]) else None
  {
    assert Parts(u, [segment][1..], values) == Some([]);
    if Part(u, segment, values).Some? {
      var part := Part(u, segment, values).value;
      assert [part] + [] == [part];
    }
  }

  /** `Rule.build`: None is its KeyError. */
  method Build(u: Utf8, segments: seq<Segment>, values: Values) returns (url: Option<string>)
    ensures url == Url(u, segments, values)
    ensures url.None? <==> exists i :: 0 <= i < |segments| && segments[i].Parameter? && segments[i].name !in values
  {
    hide Part;
    var parts: seq<string> := [];
    for i := 0 to |segments|
      invariant Parts(u, segments[..i], values) == Some(parts)
      invariant forall j :: 0 <= j < i && segments[j].Parameter? ==> segments[j].name in values
    {
      var part := Part(u, segments[i], values);
      OnePart(u, segments[i], values);
      PartsAppend(u, segments[..i], [segments[i]], values);
      assert segments[..i + 1] == segments[..i] + [segments[i]];
      if part.None? {
        PartsAppend(u, segments[..i + 1], segments[i + 1..], values);
        assert segments == segments[..i + 1] + segments[i + 1..];
        return None;
      }
      parts := parts + [part.value];
    }
    assert segments[..|segments|] == segments;
    url := Some("/" + Join(parts));
  }

  // ---------------------------------------------------------------------
  // Matching what was built
  // ---------------------------------------------------------------------

  /** What a rule's segments look like: static text holds no slash, and a path comes last. */
  predicate WellFormed(segments: seq<Segment>) {
    && (forall i :: 0 <= i < |segments| && segments[i].Static? ==> '/' !in segments[i].text)
    && (forall i :: 0 <= i < |segments| - 1 && segments[i].Parameter? ==> segments[i].converter != Path)
  }

  /** No static text contains an escape. */
  predicate NoEscapes(segments: seq<Segment>) {
    forall i :: 0 <= i < |segments| && segments[i].Static? ==> !HasEscape(segments[i].text)
  }

  lemma {:induction false} NoPercentNoEscape(text: string)
    requires '%' !in text
    ensures !HasEscape(text)
  {
    if text != "" {
      assert text[0] in text;
      NoPercentNoEscape(text[1..]);
    }
  }

  /** Rules without a percent sign in their static text contain no escape. */
  lemma {:induction false} NoPercentDecodes(segments: seq<Segment>)
    requires forall i :: 0 <= i < |segments| && segments[i].Static? ==> '%' !in segments[i].text
    ensures NoEscapes(segments)
  {
    forall i | 0 <= i < |segments| && segments[i].Static? ensures !HasEscape(segments[i].text) {
      NoPercentNoEscape(segments[i].text);
    }
  }

  /** Every parameter has a value its converter can carry. */
  predicate AllFit(segments: seq<Segment>, values: Values) {
    forall i :: 0 <= i < |segments| && segments[i].Parameter? ==>
      segments[i].name in values && Fits(segments[i].converter, values[segments[i].name])
  }

  /** What a match adds to the values found before. */
  function Expected(segments: seq<Segment>, values: Values, found: Values): Values {
    if segments == [] then found
    else if segments[0].Parameter? && segments[0].name in values then
      Expected(segments[1..], values, found[segments[0].name := values[segments[0].name]])
    else Expected(segments[1..], values, found)
  }

  function QuoteChar(u: Utf8, c: char, slash: bool): string {
    QuoteBytes(u.encode(c), slash)
  }

  lemma {:induction false} QuoteBytesAppend(a: seq<Byte>, b: seq<Byte>, slash: bool)
    ensures QuoteBytes(a + b, slash) == QuoteBytes(a, slash) + QuoteBytes(b, slash)
  {
    hide QuoteByte;
    if a == [] {
      Sequences.Nil(b);
      Sequences.Nil(QuoteBytes(b, slash));
    } else {
      QuoteBytesAppend(a[1..], b, slash);
      Sequences.HeadTail(a, b);
      Sequences.Assoc(QuoteByte(a[0], slash), QuoteBytes(a[1..], slash), QuoteBytes(b, slash));
    }
  }

  lemma {:induction false} QuotedHoldsNoSlash(bytes: seq<Byte>, slash: bool)
    requires slash ==> 47 !in bytes
    ensures '/' !in QuoteBytes(bytes, slash)
  {
    if bytes != [] {
      assert bytes[0] in bytes;
      QuotedHoldsNoSlash(bytes[1..], slash);
    }
  }

  lemma QuoteHead(u: Utf8, text: string, slash: bool)
    requires text != ""
    ensures Quote(u, text, slash) == QuoteChar(u, text[0], slash) + Quote(u, text[1..], slash)
  {
    QuoteBytesAppend(u.encode(text[0]), Encode(u, text[1..]), slash);
  }

  lemma QuoteSlash(u: Utf8)
    requires IsUtf8(u)
    ensures QuoteChar(u, '/', true) == "/"
  {
    assert u.encode('/') == [47];
    assert QuoteBytes([47][1..], true) == "";
  }

  lemma QuoteOther(u: Utf8, c: char)
    requires IsUtf8(u) && c != '/'
    ensures '/' !in QuoteChar(u, c, true)
  {
    QuotedHoldsNoSlash(u.encode(c), true);
  }

  function QuoteAll(u: Utf8, pieces: seq<string>): seq<string> {
    if pieces == [] then [] else [Quote(u, pieces[0], true)] + QuoteAll(u, pieces[1..])
  }

  lemma {:induction false} QuoteNothing(u: Utf8)
    ensures Quote(u, "", true) == "" && Split("") == [""] && QuoteAll(u, [""]) == [""]
  {
    assert QuoteAll(u, [""][1..]) == [];
  }

  /** The pieces of a quoted path are the quoted pieces of the path. */
  lemma {:induction false} SplitQuoted(u: Utf8, text: string)
    requires IsUtf8(u)
    ensures Split(Quote(u, text, true)) == QuoteAll(u, Split(text))
  {
    hide IsUtf8, Split, Quote, QuoteChar;
    if text == "" {
      QuoteNothing(u);
    } else {
      var c, tail := text[0], text[1..];
      QuoteHead(u, text, true);
      SplitQuoted(u, tail);
      SplitHead(c, tail);
      assert [c] + tail == text;
      if c == '/' {
        QuoteSlash(u);
        SplitHead('/', Quote(u, tail, true));
        QuoteNothing(u);
        assert ([""] + Split(tail))[1..] == Split(tail);
      } else {
        QuoteOther(u, c);
        SplitPrefix(QuoteChar(u, c, true), Quote(u, tail, true));
        QuoteHead(u, [c] + Split(tail)[0], true);
        assert ([c] + Split(tail)[0])[1..] == Split(tail)[0];
        assert ([[c] + Split(tail)[0]] + Split(tail)[1..])[1..] == Split(tail)[1..];
      }
    }
  }

  lemma {:induction false} DecodesAllQuoted(u: Utf8, pieces: seq<string>)
    requires IsUtf8(u)
    ensures DecodeAll(Decoding(u), QuoteAll(u, pieces)) == Some(pieces)
  {
    hide IsUtf8, Quote, Decoding;
    if pieces != [] {
      DecodesQuoted(u, pieces[0], true);
      DecodesAllQuoted(u, pieces[1..]);
      assert QuoteAll(u, pieces)[1..] == QuoteAll(u, pieces[1..]);
      assert [pieces[0]] + pieces[1..] == pieces;
    }
  }

  /** A path value comes back from the pieces of its quoted form. */
  lemma PathReturns(u: Utf8, text: string)
    requires IsUtf8(u)
    ensures var decoded := DecodeAll(Decoding(u), Split(Quote(u, text, true)));
      decoded.Some? && Join(decoded.value) == text
  {
    SplitQuoted(u, text);
    DecodesAllQuoted(u, Split(text));
    JoinSplit(text);
  }

  /** The part of a segment other than a path is one piece; a parameter's decodes to the value's text. */
  lemma PartDecodes(u: Utf8, segment: Segment, values: Values)
    requires IsUtf8(u) && Part(u, segment, values).Some?
    requires segment.Static? ==> '/' !in segment.text
    requires segment.Parameter? ==> segment.converter != Path
    ensures var part := Part(u, segment, values).value;
      && '/' !in part
      && (segment.Static? ==> part == segment.text)
      && (segment.Parameter? ==> Decoding(u)(part) == Some(TextOf(values[segment.name])))
  {
    if segment.Parameter? {
      var text := TextOf(values[segment.name]);
      QuotedHoldsNoSlash(Encode(u, text), false);
      DecodesQuoted(u, text, false);
    }
  }

  lemma {:induction false} StepFails(segments: seq<Segment>, pieces: seq<string>, decode: Decoder, found: Values)
    requires segments != [] && pieces != [] && segments[0].Static? && decode(pieces[0]) != Some(segments[0].text)
    ensures PyMatch(segments, pieces, decode, found) == None
  {
  }

  /** One piece that decodes to a fitting value, or to the static text, is consumed. */
  lemma StepMatches(segments: seq<Segment>, pieces: seq<string>, decode: Decoder, values: Values, found: Values)
    requires segments != [] && pieces != []
    requires segments[0].Static? ==> decode(pieces[0]) == Some(segments[0].text)
    requires segments[0].Parameter? ==>
      && segments[0].converter != Path && segments[0].name in values
      && Fits(segments[0].converter, values[segments[0].name])
      && decode(pieces[0]) == Some(TextOf(values[segments[0].name]))
    ensures PyMatch(segments, pieces, decode, found) ==
      PyMatch(segments[1..], pieces[1..], decode,
              if segments[0].Static? then found else found[segments[0].name := values[segments[0].name]])
  {
    hide PyAccepts, Convert, Fits, TextOf;
    if segments[0].Parameter? {
      FittingIsAccepted(segments[0].converter, values[segments[0].name]);
    }
  }

  lemma {:induction false} PathMatches(segment: Segment, pieces: seq<string>, decode: Decoder, text: string,
                                       found: Values)
    requires segment.Parameter? && segment.converter == Path && pieces != [] && !HasControl(text)
    requires DecodeAll(decode, pieces).Some? && Join(DecodeAll(decode, pieces).value) == text
    ensures PyMatch([segment], pieces, decode, found) == Some(found[segment.name := Plain(text)])
  {
    hide HasControl, Join, DecodeAll;
    assert [segment][1..] == [];
  }

  lemma {:induction false} PartsAt(u: Utf8, segments: seq<Segment>, values: Values, i: nat)
    requires Parts(u, segments, values).Some? && i < |segments|
    ensures |Parts(u, segments, values).value| == |segments|
    ensures Part(u, segments[i], values) == Some(Parts(u, segments, values).value[i])
  {
    if i > 0 {
      PartsAt(u, segments[1..], values, i - 1);
    } else if |segments| > 1 {
      PartsAt(u, segments[1..], values, 0);
    }
  }

  /** The pieces of what was built: the first segment's part, and the pieces of the rest. */
  lemma {:induction false} BuiltPieces(u: Utf8, segments: seq<Segment>, values: Values)
    requires segments != [] && Parts(u, segments, values).Some? && '/' !in Parts(u, segments, values).value[0]
    ensures var parts := Parts(u, segments, values).value;
      && Part(u, segments[0], values) == Some(parts[0])
      && Split(Join(parts))[0] == parts[0]
      && (|segments| == 1 ==> Split(Join(parts))[1..] == [])
      && (|segments| > 1 ==>
            && Parts(u, segments[1..], values).Some?
            && Split(Join(parts))[1..] == Split(Join(Parts(u, segments[1..], values).value)))
  {
    hide Split, Join, Part;
    var parts := Parts(u, segments, values).value;
    if |segments| == 1 {
      assert parts == [parts[0]];
      JoinOne(parts[0]);
      SplitWhole(parts[0]);
    } else {
      var tail := Parts(u, segments[1..], values).value;
      PartsAt(u, segments[1..], values, 0);
      assert parts == [parts[0]] + tail && parts[1..] == tail;
      JoinMore(parts);
      SplitJoined(parts[0], Join(tail));
      Sequences.HeadTail([parts[0]], Split(Join(tail)));
      Sequences.Nil(Split(Join(tail)));
    }
  }

  ghost predicate Smaller(segments: seq<Segment>)
    requires segments != []
  {
    forall i :: 0 <= i < |segments| - 1 ==> segments[1..][i] == segments[i + 1]
  }

  lemma LastPathBuilt(u: Utf8, segment: Segment, values: Values)
    requires segment.Parameter? && segment.converter == Path && segment.name in values
    requires Fits(Path, values[segment.name])
    ensures Part(u, segment, values) == Some(Quote(u, TextOf(values[segment.name]), true))
    ensures values[segment.name] == Plain(TextOf(values[segment.name])) && !HasControl(TextOf(values[segment.name]))
  {
  }

  lemma {:induction false} NothingLeft(decode: Decoder, found: Values)
    ensures PyMatch([], [], decode, found) == Some(found)
  {
  }

  /** Matching the pieces of what was built finds the values, if the static text contains no escape. */
  lemma {:induction false} BuiltMatches(u: Utf8, segments: seq<Segment>, values: Values, found: Values)
    requires IsUtf8(u) && segments != [] && WellFormed(segments) && AllFit(segments, values)
    requires Parts(u, segments, values).Some?
    ensures PyMatch(segments, Split(Join(Parts(u, segments, values).value)), Decoding(u), found)
         == if NoEscapes(segments) then Some(Expected(segments, values, found)) else None
    decreases |segments|
  {
    hide IsUtf8, Split, Join, Fits, PyMatch, TextOf, Decoding, Part, DecodeAll, HasEscape;
    var parts := Parts(u, segments, values).value;
    var segment, rest := segments[0], segments[1..];
    if segment.Parameter? && segment.converter == Path {
      assert segments == [segment] && rest == [];
      LastPathBuilt(u, segment, values);
      var text := TextOf(values[segment.name]);
      PathReturns(u, text);
      PathMatches(segment, Split(Quote(u, text, true)), Decoding(u), text, found);
      assert Parts(u, rest, values) == Some([]);
      assert parts == [Quote(u, text, true)];
      JoinOne(Quote(u, text, true));
    } else {
      PartDecodes(u, segment, values);
      BuiltPieces(u, segments, values);
      var pieces := Split(Join(parts));
      if segment.Static? {
        DecodesToItself(u, segment.text);
      }
      if segment.Static? && HasEscape(segment.text) {
        StepFails(segments, pieces, Decoding(u), found);
      } else {
        var next := if segment.Static? then found else found[segment.name := values[segment.name]];
        StepMatches(segments, pieces, Decoding(u), values, found);
        assert Smaller(segments);
        if rest == [] {
          NothingLeft(Decoding(u), next);
        } else {
          BuiltMatches(u, rest, values, next);
        }
      }
    }
  }

  // ---------------------------------------------------------------------
  // What stands where in the URL
  // ---------------------------------------------------------------------

  predicate UpperHex(c: char) {
    '0' <= c <= '9' || 'A' <= c <= 'F'
  }

  /** Nothing but percent signs with two hexadecimal digits each. */
  predicate IsEscapes(text: string) {
    && |text| % 3 == 0
    && forall i :: 0 <= i < |text| ==> if i % 3 == 0 then text[i] == '%' else UpperHex(text[i])
  }

  /** The characters a URL may hold as they are: letters, digits, and `_.-~`. */
  predicate StaysAsIs(c: char, slash: bool) {
    '0' <= c <= '9' || 'A' <= c <= 'Z' || 'a' <= c <= 'z' || c in "_.-~" || (slash && c == '/')
  }

  lemma {:induction false} HighBytesEscape(bytes: seq<Byte>, slash: bool)
    requires forall i :: 0 <= i < |bytes| ==> bytes[i] >= 128
    ensures IsEscapes(QuoteBytes(bytes, slash)) && |QuoteBytes(bytes, slash)| == 3 * |bytes|
  {
    if bytes != [] {
      HighBytesEscape(bytes[1..], slash);
      var head, rest := QuoteByte(bytes[0], slash), QuoteBytes(bytes[1..], slash);
      assert QuoteBytes(bytes, slash) == head + rest && |head| == 3;
      forall i | 3 <= i < 3 * |bytes|
        ensures if i % 3 == 0 then (head + rest)[i] == '%' else UpperHex((head + rest)[i])
      {
        assert (head + rest)[i] == rest[i - 3] && (i - 3) % 3 == i % 3;
      }
    }
  }

  /** Quoting leaves exactly the plain characters alone, and escapes every byte of the others. */
  lemma {:induction false} QuoteKeepsPlain(u: Utf8, c: char, slash: bool)
    requires IsUtf8(u)
    ensures var quoted := QuoteChar(u, c, slash);
      if StaysAsIs(c, slash) then quoted == [c] else quoted != [] && IsEscapes(quoted)
  {
    if c as int < 128 {
      assert u.encode(c) == [c as int];
      assert QuoteBytes([c as int][1..], slash) == "";
      assert QuoteBytes([c as int], slash) == QuoteByte(c as int, slash);
    } else {
      HighBytesEscape(u.encode(c), slash);
    }
  }

  /** What the pieces of a URL from one on have to be for a segment, whatever the values are. */
  predicate StandsFor(u: Utf8, segment: Segment, pieces: seq<string>, values: Values) {
    pieces != [] &&
    match segment
    case Static(text) => pieces[0] == text
    case Parameter(name, Path) =>
      name in values && DecodeAll(Decoding(u), pieces) == Some(Split(TextOf(values[name])))
    case Parameter(name, _) => name in values && Decoding(u)(pieces[0]) == Some(TextOf(values[name]))
  }

  lemma {:induction false} PathStands(u: Utf8, segments: seq<Segment>, values: Values)
    requires IsUtf8(u) && |segments| == 1 && segments[0].Parameter? && segments[0].converter == Path
    requires Parts(u, segments, values).Some?
    ensures var pieces := Split(Join(Parts(u, segments, values).value));
      pieces[0..] == pieces && StandsFor(u, segments[0], pieces, values)
  {
    hide IsUtf8, Split, Join, TextOf, Decoding, DecodeAll;
    var name := segments[0].name;
    assert segments == [segments[0]];
    OnePart(u, segments[0], values);
    var text := TextOf(values[name]);
    JoinOne(Quote(u, text, true));
    SplitQuoted(u, text);
    DecodesAllQuoted(u, Split(text));
  }

  /**
   * In a URL built from any values, also ones a converter cannot carry, every segment has a piece of
   * its own, or for a path as many as the path, and no value reaches into another's.
   */
  lemma {:induction false} EverySegmentHasItsPiece(u: Utf8, segments: seq<Segment>, values: Values, i: nat)
    requires IsUtf8(u) && i < |segments| && WellFormed(segments) && Url(u, segments, values).Some?
    ensures var pieces := Split(Url(u, segments, values).value[1..]);
      && i < |pieces| && StandsFor(u, segments[i], pieces[i..], values)
      && (i == |segments| - 1 && (segments[i].Static? || segments[i].converter != Path) ==> |pieces| == |segments|)
    decreases i
  {
    hide IsUtf8, Split, Join, TextOf, Decoding, Part, DecodeAll;
    var segment, parts := segments[0], Parts(u, segments, values).value;
    assert Url(u, segments, values).value[1..] == Join(parts);
    if segment.Parameter? && segment.converter == Path {
      PathStands(u, segments, values);
    } else {
      PartsAt(u, segments, values, 0);
      PartDecodes(u, segment, values);
      BuiltPieces(u, segments, values);
      assert Part(u, segment, values).Some? && (segment.Parameter? ==> segment.name in values) by {
        OnePart(u, segment, values);
      }
      if i > 0 {
        assert Smaller(segments);
        assert Url(u, segments[1..], values).value[1..] == Join(Parts(u, segments[1..], values).value);
        EverySegmentHasItsPiece(u, segments[1..], values, i - 1);
        assert Split(Join(parts))[1..][i - 1..] == Split(Join(parts))[i..];
      }
    }
  }

  function Names(segments: seq<Segment>): set<string> {
    set i | 0 <= i < |segments| && segments[i].Parameter? :: segments[i].name
  }

  lemma {:induction false} ExpectedIs(segments: seq<Segment>, values: Values, found: Values)
    requires Names(segments) <= values.Keys
    requires forall name :: name in found ==> name in values && found[name] == values[name]
    ensures Expected(segments, values, found)
      == map name | name in values && name in found.Keys + Names(segments) :: values[name]
    decreases |segments|
  {
    if segments != [] {
      assert forall i :: 0 < i < |segments| ==> segments[i] == segments[1..][i - 1];
      assert segments[0].Parameter? ==> segments[0].name in Names(segments);
      var next := if segments[0].Parameter? then found[segments[0].name := values[segments[0].name]] else found;
      assert Names(segments) == Names(segments[1..]) + (if segments[0].Parameter? then {segments[0].name} else {});
      ExpectedIs(segments[1..], values, next);
      assert found.Keys + Names(segments) == next.Keys + Names(segments[1..]);
    }
  }

  // ---------------------------------------------------------------------
  // The rule's own segments
  // ---------------------------------------------------------------------

  lemma {:induction false} ParsedParts(parts: seq<string>, segments: seq<Segment>)
    requires ParseParts(parts, PySegment) == Some(segments)
    requires forall piece :: piece in parts ==> '/' !in piece
    ensures |segments| == |parts| && WellFormed(segments)
    ensures forall i :: 0 <= i < |segments| && segments[i].Static? ==> segments[i].text == parts[i]
    decreases |parts|
  {
    if parts != [] {
      var rest := segments[1..];
      assert segments == [segments[0]] + rest;
      assert forall piece :: piece in parts[1..] ==> piece in parts;
      ParsedParts(parts[1..], rest);
      assert parts[0] in parts;
      assert segments[0].Static? ==> segments[0].text == parts[0];
      forall i | 0 <= i < |segments| && segments[i].Static?
        ensures segments[i].text == parts[i] && '/' !in segments[i].text
      {
        if i > 0 {
          assert segments[i] == rest[i - 1] && parts[i] == parts[1..][i - 1];
        }
      }
      forall i | 0 <= i < |segments| - 1 && segments[i].Parameter? ensures segments[i].converter != Path {
        if i > 0 {
          assert segments[i] == rest[i - 1];
        }
      }
    }
  }

  /** The segments of a rule are well formed, and the last is no empty text. */
  lemma RuleIsWellFormed(rule: string, segments: seq<Segment>)
    requires ParseRule(rule) == Some(segments)
    ensures WellFormed(segments)
    ensures segments != [] && segments[|segments| - 1].Static? ==> segments[|segments| - 1].text != ""
  {
    hide ParseParts, Split;
    var n := NormalizeRule(rule);
    var parts := RuleParts(n);
    if n == "/" {
      ParsedParts([], segments);
    } else {
      var body := StripRight(StripLeft(n));
      forall piece | piece in parts ensures '/' !in piece {
        PiecesHoldNoSlash(body, piece);
      }
      ParsedParts(parts, segments);
      NormalForm(rule);
      StripLeftBegins(n);
      StripRightEnds(StripLeft(n));
      LastPiece(body);
    }
  }

  // ---------------------------------------------------------------------
  // The URL is in normal form
  // ---------------------------------------------------------------------

  predicate EndsOpen(text: string) {
    text != "" && text[|text| - 1] != '/'
  }

  lemma {:induction false} EncodeLast(u: Utf8, text: string)
    requires IsUtf8(u) && EndsOpen(text)
    ensures Encode(u, text) != [] && Encode(u, text)[|Encode(u, text)| - 1] != 47
  {
    if |text| > 1 {
      EncodeLast(u, text[1..]);
    } else {
      assert text[1..] == "";
      assert Encode(u, text) == u.encode(text[0]);
    }
  }

  lemma {:induction false} QuoteLast(bytes: seq<Byte>, slash: bool)
    requires bytes != [] && bytes[|bytes| - 1] != 47
    ensures EndsOpen(QuoteBytes(bytes, slash))
  {
    if |bytes| > 1 {
      QuoteLast(bytes[1..], slash);
    } else {
      assert QuoteBytes(bytes[1..], slash) == "";
    }
  }

  lemma FittingEndsOpen(converter: Converter, value: Value)
    requires Fits(converter, value)
    ensures EndsOpen(TextOf(value))
  {
    var text := TextOf(value);
    if converter != Path {
      FittingIsAccepted(converter, value);
      assert text[|text| - 1] in text;
    }
  }

  lemma PartEndsOpen(u: Utf8, segment: Segment, values: Values)
    requires IsUtf8(u) && Part(u, segment, values).Some?
    requires segment.Static? ==> segment.text != "" && '/' !in segment.text
    requires segment.Parameter? ==> Fits(segment.converter, values[segment.name])
    ensures EndsOpen(Part(u, segment, values).value)
  {
    if segment.Static? {
      assert segment.text[|segment.text| - 1] in segment.text;
    } else {
      var text := TextOf(values[segment.name]);
      FittingEndsOpen(segment.converter, values[segment.name]);
      EncodeLast(u, text);
      QuoteLast(Encode(u, text), segment.converter == Path);
    }
  }

  lemma {:induction false} JoinLast(pieces: seq<string>)
    requires pieces != [] && EndsOpen(pieces[|pieces| - 1])
    ensures EndsOpen(Join(pieces))
  {
    if |pieces| > 1 {
      JoinLast(pieces[1..]);
    }
  }

  lemma {:induction false} FittingParts(u: Utf8, segments: seq<Segment>, values: Values)
    requires AllFit(segments, values)
    ensures Parts(u, segments, values).Some?
  {
    if segments != [] {
      assert AllFit(segments[1..], values) by {
        assert forall i :: 0 <= i < |segments| - 1 ==> segments[1..][i] == segments[i + 1];
      }
      FittingParts(u, segments[1..], values);
    }
  }

  /** A normal path splits into the pieces after its first slash. */
  lemma {:induction false} RootedParts(text: string)
    requires EndsOpen(text)
    ensures PathParts(NormalizeRule("/" + text)) == Split(text)
  {
    hide Split;
    var path := "/" + text;
    Sequences.HeadTail("/", text);
    Sequences.Nil(text);
    assert path[|path| - 1] == text[|text| - 1] != '/';
    assert StripRight(path) == path;
  }

  lemma RootOnly(decode: Decoder)
    ensures NormalizeRule("/" + Join([])) == "/" && PathParts("/") == []
    ensures PyMatch([], [], decode, map[]) == Some(map[])
  {
    assert "/" + Join([]) == "/";
  }

  lemma {:induction false} UrlEndsOpen(u: Utf8, segments: seq<Segment>, values: Values)
    requires IsUtf8(u) && segments != [] && WellFormed(segments) && AllFit(segments, values)
    requires segments[|segments| - 1].Static? ==> segments[|segments| - 1].text != ""
    requires Parts(u, segments, values).Some?
    ensures EndsOpen(Join(Parts(u, segments, values).value))
  {
    hide IsUtf8, Part, Fits, Join, EndsOpen;
    PartsAt(u, segments, values, |segments| - 1);
    PartEndsOpen(u, segments[|segments| - 1], values);
    JoinLast(Parts(u, segments, values).value);
  }

  /**
   * Matching the URL a rule builds gives the values back, for every value the converters can carry,
   * exactly when the rule's static text contains no escape.
   */
  lemma {:induction false} RoundTrip(u: Utf8, rule: string, segments: seq<Segment>, values: Values)
    requires IsUtf8(u) && ParseRule(rule) == Some(segments)
    requires values.Keys == Names(segments) && AllFit(segments, values)
    ensures var url := Url(u, segments, values);
      && url.Some?
      && (PyMatch(segments, PathParts(NormalizeRule(url.value)), Decoding(u), map[]) == Some(values)
          <==> NoEscapes(segments))
  {
    hide IsUtf8, ParseRule, AllFit, PyMatch, Decoding, Part, WellFormed, NormalizeRule;
    RuleIsWellFormed(rule, segments);
    FittingParts(u, segments, values);
    ExpectedIs(segments, values, map[]);
    assert Expected(segments, values, map[]) == values;
    if segments == [] {
      RootOnly(Decoding(u));
    } else {
      BuiltMatches(u, segments, values, map[]);
      UrlEndsOpen(u, segments, values);
      RootedParts(Join(Parts(u, segments, values).value));
    }
  }
}
