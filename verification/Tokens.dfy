/**
 * Signed tokens and signed session cookies: unpadded base64url (sections 3.2 and 5 of RFC 4648),
 * a dot, and a signature in the same encoding. The message authentication code and the JSON
 * document are parameters: what is signed is any text that the document can be read back from,
 * with the time it was signed at.
 */
module Tokens {
  import Bytes
  import opened Wrappers
  import Sequences

  type Byte = Bytes.Byte

  // ---------------------------------------------------------------------
  // Base64url
  // ---------------------------------------------------------------------

  function Char(d: nat): char
    requires d < 64
  {
    if d < 26 then (d + 65) as char
    else if d < 52 then (d + 71) as char
    else if d < 62 then (d - 4) as char
    else if d == 62 then '-' else '_'
  }

  function Digit(c: char): Option<nat> {
    if 'A' <= c <= 'Z' then Some(c as int - 65)
    else if 'a' <= c <= 'z' then Some(c as int - 71)
    else if '0' <= c <= '9' then Some(c as int + 4)
    else if c == '-' then Some(62)
    else if c == '_' then Some(63)
    else None
  }

  /** `urlsafe_b64encode`, which pads to a multiple of four. */
  function Encode(bytes: seq<Byte>): string {
    if bytes == [] then ""
    else if |bytes| == 1 then [Char(bytes[0] / 4), Char(bytes[0] % 4 * 16), '=', '=']
    else if |bytes| == 2 then
      [Char(bytes[0] / 4), Char(bytes[0] % 4 * 16 + bytes[1] / 16), Char(bytes[1] % 16 * 4), '=']
    else
      [Char(bytes[0] / 4), Char(bytes[0] % 4 * 16 + bytes[1] / 16), Char(bytes[1] % 16 * 4 + bytes[2] / 64),
       Char(bytes[2] % 64)]
      + Encode(bytes[3..])
  }

  /** `b64decode` of padded text; None for text it rejects. */
  function Decode(text: string): Option<seq<Byte>> {
    if text == "" then Some([])
    else if |text| < 4 || Digit(text[0]).None? || Digit(text[1]).None? then None
    else
      var a, b := Digit(text[0]).value, Digit(text[1]).value;
      if text[2..] == "==" then Some([(a * 4 + b / 16) % 256])
      else if Digit(text[2]).None? then None
      else
        var c := Digit(text[2]).value;
        if text[3..] == "=" then Some([(a * 4 + b / 16) % 256, b % 16 * 16 + c / 4])
        else if Digit(text[3]).None? then None
        else
          match Decode(text[4..])
          case None => None
          case Some(rest) =>
            Some([(a * 4 + b / 16) % 256, b % 16 * 16 + c / 4, c % 4 * 64 + Digit(text[3]).value] + rest)
  }

  /** `rstrip(b"=")`. */
  function StripPadding(text: string): string {
    if text != "" && text[|text| - 1] == '=' then StripPadding(text[..|text| - 1]) else text
  }

  /** `_b64`. */
  function B64(bytes: seq<Byte>): string {
    StripPadding(Encode(bytes))
  }

  /** `"=" * (-len(text) % 4)`. */
  function Padding(length: nat): string {
    match length % 4
    case 0 => ""
    case 1 => "==="
    case 2 => "=="
    case 3 => "="
  }

  /** `_unb64`. */
  function Unb64(text: string): Option<seq<Byte>> {
    Decode(text + Padding(|text|))
  }

  predicate Safe(c: char) { Digit(c).Some? }

  predicate AllSafe(text: string) {
    forall i :: 0 <= i < |text| ==> Safe(text[i])
  }

  lemma CharsRead(d: nat)
    requires d < 64
    ensures Digit(Char(d)) == Some(d) && Char(d) != '=' && Char(d) != '.'
  {
  }

  /** Encoding without padding, directly. */
  function Bare(bytes: seq<Byte>): string {
    if bytes == [] then ""
    else if |bytes| == 1 then [Char(bytes[0] / 4), Char(bytes[0] % 4 * 16)]
    else if |bytes| == 2 then [Char(bytes[0] / 4), Char(bytes[0] % 4 * 16 + bytes[1] / 16), Char(bytes[1] % 16 * 4)]
    else
      [Char(bytes[0] / 4), Char(bytes[0] % 4 * 16 + bytes[1] / 16), Char(bytes[1] % 16 * 4 + bytes[2] / 64),
       Char(bytes[2] % 64)]
      + Bare(bytes[3..])
  }

  lemma {:induction false} BareIsSafe(bytes: seq<Byte>)
    ensures AllSafe(Bare(bytes)) && |Bare(bytes)| == (4 * |bytes| + 2) / 3
  {
    if |bytes| >= 3 {
      BareIsSafe(bytes[3..]);
    }
  }

  lemma {:induction false} PaddedBare(bytes: seq<Byte>)
    ensures Encode(bytes) == Bare(bytes) + Padding(|Bare(bytes)|)
  {
    hide Char;
    if |bytes| >= 3 {
      var rest := Bare(bytes[3..]);
      PaddedBare(bytes[3..]);
      Sequences.Assoc(Bare(bytes)[..4], rest, Padding(|rest|));
      assert Bare(bytes) == Bare(bytes)[..4] + rest && Encode(bytes) == Bare(bytes)[..4] + Encode(bytes[3..]);
    }
  }

  lemma {:induction false} Stripped(text: string, padding: string)
    requires AllSafe(text) && forall i :: 0 <= i < |padding| ==> padding[i] == '='
    ensures StripPadding(text + padding) == text
    decreases |padding|
  {
    var whole := text + padding;
    if padding == "" {
      assert whole == text;
      assert text != "" ==> Safe(text[|text| - 1]);
    } else {
      Stripped(text, padding[..|padding| - 1]);
      assert whole[..|whole| - 1] == text + padding[..|padding| - 1];
    }
  }

  lemma {:induction false} B64IsBare(bytes: seq<Byte>)
    ensures B64(bytes) == Bare(bytes)
  {
    PaddedBare(bytes);
    BareIsSafe(bytes);
    Stripped(Bare(bytes), Padding(|Bare(bytes)|));
  }

  lemma Arithmetic(x: Byte, y: Byte, z: Byte)
    ensures var a, b, c, d := x / 4, x % 4 * 16 + y / 16, y % 16 * 4 + z / 64, z % 64;
      && (a * 4 + b / 16) % 256 == x && b % 16 * 16 + c / 4 == y && c % 4 * 64 + d == z
  {
  }

  lemma DecodesOne(x: Byte)
    ensures Decode(Encode([x])) == Some([x])
  {
    hide Char, Digit;
    CharsRead(x / 4);
    CharsRead(x % 4 * 16);
    Arithmetic(x, 0, 0);
    assert Encode([x])[2..] == "==";
  }

  lemma DecodesTwo(x: Byte, y: Byte)
    ensures Decode(Encode([x, y])) == Some([x, y])
  {
    hide Char, Digit;
    CharsRead(x / 4);
    CharsRead(x % 4 * 16 + y / 16);
    CharsRead(y % 16 * 4);
    Arithmetic(x, y, 0);
    var text := Encode([x, y]);
    assert text[2..][0] != '=' && text[3..] == "=";
  }

  lemma {:induction false} DecodesThree(x: Byte, y: Byte, z: Byte, rest: seq<Byte>)
    requires Decode(Encode(rest)) == Some(rest)
    ensures Decode(Encode([x, y, z] + rest)) == Some([x, y, z] + rest)
  {
    hide Char, Digit;
    CharsRead(x / 4);
    CharsRead(x % 4 * 16 + y / 16);
    CharsRead(y % 16 * 4 + z / 64);
    CharsRead(z % 64);
    Arithmetic(x, y, z);
    var bytes := [x, y, z] + rest;
    assert bytes[3..] == rest;
    var text := Encode(bytes);
    assert text[4..] == Encode(rest);
    assert text[2..][0] != '=' && text[3..][0] != '=';
  }

  lemma {:induction false} DecodeEncode(bytes: seq<Byte>)
    ensures Decode(Encode(bytes)) == Some(bytes)
  {
    if |bytes| == 1 {
      DecodesOne(bytes[0]);
      assert bytes == [bytes[0]];
    } else if |bytes| == 2 {
      DecodesTwo(bytes[0], bytes[1]);
      assert bytes == [bytes[0], bytes[1]];
    } else if bytes != [] {
      DecodeEncode(bytes[3..]);
      DecodesThree(bytes[0], bytes[1], bytes[2], bytes[3..]);
      assert [bytes[0], bytes[1], bytes[2]] + bytes[3..] == bytes;
    }
  }

  /** Decoding inverts encoding, for every byte string; the encoding is as long as it should be. */
  lemma UnB64(bytes: seq<Byte>)
    ensures Unb64(B64(bytes)) == Some(bytes)
    ensures AllSafe(B64(bytes)) && |B64(bytes)| == (4 * |bytes| + 2) / 3
  {
    B64IsBare(bytes);
    BareIsSafe(bytes);
    PaddedBare(bytes);
    DecodeEncode(bytes);
  }

  // ---------------------------------------------------------------------
  // Tokens
  // ---------------------------------------------------------------------

  /** `text.rsplit(".", 1)`: the parts around the last dot. */
  function SplitLast(text: string): Option<(string, string)> {
    if text == "" then None
    else if text[|text| - 1] == '.' then Some((text[..|text| - 1], ""))
    else
      match SplitLast(text[..|text| - 1])
      case None => None
      case Some((left, right)) => Some((left, right + [text[|text| - 1]]))
  }

  lemma {:induction false} SplitsBack(left: string, right: string)
    requires '.' !in right
    ensures SplitLast(left + "." + right) == Some((left, right))
    decreases |right|
  {
    var text := left + "." + right;
    if right == "" {
      assert text[..|text| - 1] == left;
    } else {
      var front := right[..|right| - 1];
      SplitsBack(left, front);
      assert text[..|text| - 1] == left + "." + front;
      assert front + [right[|right| - 1]] == right;
      assert right[|right| - 1] in right;
    }
  }

  /** The code under the key, and the document: when it was issued and what it carries. */
  datatype Codec<!T> = Codec(mac: string -> seq<Byte>, write: (int, T) -> seq<Byte>,
                             read: seq<Byte> -> Option<(int, T)>)

  /** Reading a written document gives it back. */
  ghost predicate CodecOk<T(!new)>(c: Codec<T>) {
    forall iat: int, value: T :: c.read(c.write(iat, value)) == Some((iat, value))
  }

  function Signed(mac: string -> seq<Byte>, payload: seq<Byte>): string {
    B64(payload) + "." + B64(mac(B64(payload)))
  }

  /** The payload of a correctly signed text. */
  function Unsigned(mac: string -> seq<Byte>, text: string): Option<seq<Byte>> {
    match SplitLast(text)
    case None => None
    case Some((encoded, signature)) =>
      if Unb64(signature) != Some(mac(encoded)) then None else Unb64(encoded)
  }

  lemma UnsignsSigned(mac: string -> seq<Byte>, payload: seq<Byte>)
    ensures Unsigned(mac, Signed(mac, payload)) == Some(payload)
    ensures |Signed(mac, payload)| == (4 * |payload| + 2) / 3 + 1 + (4 * |mac(B64(payload))| + 2) / 3
  {
    var encoded := B64(payload);
    UnB64(payload);
    UnB64(mac(encoded));
    assert '.' !in B64(mac(encoded)) by {
      assert !Safe('.');
    }
    SplitsBack(encoded, B64(mac(encoded)));
  }

  const MAX_TOKEN := 64 * 1024
  const LEEWAY := 60

  /** The time stamp is `int(time.time())`. */
  function Stamp(now: real): int {
    now.Floor
  }

  /** `TokenSigner.dumps`. */
  function Dumps<T>(c: Codec<T>, value: T, now: real): string {
    Signed(c.mac, c.write(Stamp(now), value))
  }

  /** `TokenSigner.loads`; None is its ValueError. */
  function Loads<T>(c: Codec<T>, token: string, maxAge: Option<real>, now: real): Option<T> {
    if |token| > MAX_TOKEN then None
    else
      match Unsigned(c.mac, token)
      case None => None
      case Some(payload) =>
        match c.read(payload)
        case None => None
        case Some((iat, value)) =>
          if iat > Stamp(now) + LEEWAY then None
          else if maxAge.Some? && now - iat as real > maxAge.value then None
          else Some(value)
  }

  /** A token loads as what it was made from, exactly while it is neither too long, too old, nor from the future. */
  lemma LoadsDumped<T(!new)>(c: Codec<T>, value: T, made: real, maxAge: Option<real>, now: real)
    requires CodecOk(c)
    ensures var iat, payload := Stamp(made), c.write(Stamp(made), value);
      var length := (4 * |payload| + 2) / 3 + 1 + (4 * |c.mac(B64(payload))| + 2) / 3;
      Loads(c, Dumps(c, value, made), maxAge, now) ==
        if length <= MAX_TOKEN && iat <= Stamp(now) + LEEWAY && (maxAge.None? || now - iat as real <= maxAge.value)
        then Some(value) else None
  {
    hide Unsigned, Signed;
    UnsignsSigned(c.mac, c.write(Stamp(made), value));
  }

  // ---------------------------------------------------------------------
  // Session cookies
  // ---------------------------------------------------------------------

  /** A session's data, and whether it is permanent. */
  datatype Session<T> = Session(data: T, permanent: bool)

  const MAX_COOKIE := 4093
  const MAX_LOADED := 16 * 1024

  /** `_dump`; None is the error for a cookie that is too long. */
  function Dump<T>(c: Codec<Session<T>>, session: Session<T>, now: real): Option<string> {
    var cookie := Signed(c.mac, c.write(Stamp(now), session));
    if |cookie| > MAX_COOKIE then None else Some(cookie)
  }

  /** `_load`: any fault gives the new, empty session. */
  function Load<T>(c: Codec<Session<T>>, cookie: string, maxAge: real, now: real, empty: Session<T>): Session<T> {
    if cookie == "" || |cookie| > MAX_LOADED then empty
    else
      match Unsigned(c.mac, cookie)
      case None => empty
      case Some(payload) =>
        match c.read(payload)
        case None => empty
        case Some((iat, session)) =>
          if iat > Stamp(now) + LEEWAY || now - iat as real > maxAge then empty else session
  }

  /** A dumped session comes back, data and permanence, exactly while it is neither too old nor from the future. */
  lemma LoadsSession<T(!new)>(c: Codec<Session<T>>, session: Session<T>, made: real, maxAge: real, now: real,
                       empty: Session<T>)
    requires CodecOk(c)
    ensures var dumped := Dump(c, session, made);
      && (dumped.None? <==> |Signed(c.mac, c.write(Stamp(made), session))| > MAX_COOKIE)
      && (dumped.Some? ==>
            Load(c, dumped.value, maxAge, now, empty) ==
              if Stamp(made) <= Stamp(now) + LEEWAY && now - Stamp(made) as real <= maxAge then session else empty)
  {
    hide Unsigned;
    UnsignsSigned(c.mac, c.write(Stamp(made), session));
    hide Signed;
  }
}
