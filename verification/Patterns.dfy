/**
 * The value patterns of route parameters, twice: as the regular expressions the Python
 * rules match with, and as the hand-written literal checkers of the Rust route table.
 */
module Patterns {
  import opened Wrappers

  datatype Class = Digit | Hex | Dot | Dash | NotSlash

  predicate InClass(c: Class, x: char) {
    match c
    case Digit => '0' <= x <= '9'
    case Hex => '0' <= x <= '9' || 'a' <= x <= 'f' || 'A' <= x <= 'F'
    case Dot => x == '.'
    case Dash => x == '-'
    case NotSlash => x != '/'
  }

  /** The fragment of regular expressions the converter patterns use. */
  datatype Regex =
    | Nothing
    | One(chars: Class)
    | Many(chars: Class)
    | Times(chars: Class, count: nat)
    | Then(first: Regex, second: Regex)
    | Either(left: Regex, right: Regex)

  /** `re.fullmatch`. */
  predicate FullMatch(r: Regex, s: string) {
    match r
    case Nothing => s == ""
    case One(c) => |s| == 1 && InClass(c, s[0])
    case Many(c) => forall i :: 0 <= i < |s| ==> InClass(c, s[i])
    case Times(c, n) => |s| == n && forall i :: 0 <= i < |s| ==> InClass(c, s[i])
    case Then(a, b) => exists k :: 0 <= k <= |s| && FullMatch(a, s[..k]) && FullMatch(b, s[k..])
    case Either(a, b) => FullMatch(a, s) || FullMatch(b, s)
  }

  function OneOrMore(c: Class): Regex { Then(One(c), Many(c)) }

  function Optional(r: Regex): Regex { Either(r, Nothing) }

  /** `-?[0-9]+`. */
  const INT_PATTERN := Then(Optional(One(Dash)), OneOrMore(Digit))

  /** `-?(?:[0-9]+(?:\.[0-9]*)?|\.[0-9]+)`. */
  const FLOAT_PATTERN :=
    Then(Optional(One(Dash)),
         Either(Then(OneOrMore(Digit), Optional(Then(One(Dot), Many(Digit)))),
                Then(One(Dot), OneOrMore(Digit))))

  /** Five groups of 8, 4, 4, 4 and 12 hexadecimal digits. */
  const UUID_PATTERN :=
    Then(Times(Hex, 8), Then(One(Dash), Then(Times(Hex, 4), Then(One(Dash), Then(Times(Hex, 4),
    Then(One(Dash), Then(Times(Hex, 4), Then(One(Dash), Times(Hex, 12)))))))))

  /** `[^/]+`. */
  const STRING_PATTERN := OneOrMore(NotSlash)

  // ---------------------------------------------------------------------
  // The literal checkers
  // ---------------------------------------------------------------------

  predicate AllDigits(s: string) {
    forall i :: 0 <= i < |s| ==> '0' <= s[i] <= '9'
  }

  predicate IsAsciiDigits(s: string) {
    s != "" && AllDigits(s)
  }

  /** `strip_prefix('-').unwrap_or(value)`. */
  function Unsigned(s: string): string {
    if s != "" && s[0] == '-' then s[1..] else s
  }

  predicate IsIntegerLiteral(s: string) {
    IsAsciiDigits(Unsigned(s))
  }

  /** The position of the first `c`, as `split_once` looks for it. */
  function IndexOf(s: string, c: char): (r: Option<nat>)
    ensures r.Some? ==> r.value < |s| && s[r.value] == c && forall i :: 0 <= i < r.value ==> s[i] != c
    ensures r.None? ==> forall i :: 0 <= i < |s| ==> s[i] != c
  {
    if s == "" then None
    else if s[0] == c then Some(0)
    else
      var rest := IndexOf(s[1..], c);
      if rest.None? then None else Some(rest.value + 1)
  }

  predicate IsFloatLiteral(s: string) {
    var unsigned := Unsigned(s);
    var dot := IndexOf(unsigned, '.');
    if dot.None? then IsAsciiDigits(unsigned)
    else
      var whole, fraction := unsigned[..dot.value], unsigned[dot.value + 1..];
      && '.' !in fraction
      && ((IsAsciiDigits(whole) && AllDigits(fraction)) || (whole == "" && IsAsciiDigits(fraction)))
  }

  predicate IsUuid(s: string) {
    && |s| == 36
    && forall i :: 0 <= i < |s| ==>
         if i in [8, 13, 18, 23] then s[i] == '-' else InClass(Hex, s[i])
  }

  // ---------------------------------------------------------------------
  // They accept the same texts
  // ---------------------------------------------------------------------

  lemma {:induction false} OneOrMoreMatches(c: Class, s: string)
    ensures FullMatch(OneOrMore(c), s) <==> s != "" && forall i :: 0 <= i < |s| ==> InClass(c, s[i])
  {
    if FullMatch(OneOrMore(c), s) {
      var k :| 0 <= k <= |s| && FullMatch(One(c), s[..k]) && FullMatch(Many(c), s[k..]);
      assert forall i :: 1 <= i < |s| ==> s[i] == s[k..][i - k];
    }
    if s != "" && forall i :: 0 <= i < |s| ==> InClass(c, s[i]) {
      assert FullMatch(One(c), s[..1]) && FullMatch(Many(c), s[1..]);
    }
  }

  /** An optional sign before a pattern no text of which begins with a sign. */
  lemma {:induction false} SignedMatches(r: Regex, s: string)
    requires forall t: string :: FullMatch(r, t) ==> t == "" || t[0] != '-'
    ensures FullMatch(Then(Optional(One(Dash)), r), s) <==> FullMatch(r, Unsigned(s))
  {
    if FullMatch(Then(Optional(One(Dash)), r), s) {
      var k :| 0 <= k <= |s| && FullMatch(Optional(One(Dash)), s[..k]) && FullMatch(r, s[k..]);
      assert FullMatch(One(Dash), s[..k]) || FullMatch(Nothing, s[..k]);
      if k == 0 {
        assert s[k..] == s;
      } else {
        assert s[0] == s[..k][0] == '-' && Unsigned(s) == s[k..];
      }
    }
    if FullMatch(r, Unsigned(s)) {
      var k := if s != "" && s[0] == '-' then 1 else 0;
      assert s[k..] == Unsigned(s);
      assert FullMatch(One(Dash), s[..k]) || FullMatch(Nothing, s[..k]);
      assert FullMatch(Optional(One(Dash)), s[..k]) && FullMatch(r, s[k..]);
    }
  }

  lemma {:induction false} IntegersAgree(s: string)
    ensures FullMatch(INT_PATTERN, s) <==> IsIntegerLiteral(s)
  {
    forall t: string
      ensures FullMatch(OneOrMore(Digit), t) <==> IsAsciiDigits(t)
    {
      OneOrMoreMatches(Digit, t);
    }
    SignedMatches(OneOrMore(Digit), s);
  }

  const MAGNITUDE :=
    Either(Then(OneOrMore(Digit), Optional(Then(One(Dot), Many(Digit)))), Then(One(Dot), OneOrMore(Digit)))

  predicate PartsOk(whole: string, fraction: string) {
    (IsAsciiDigits(whole) && AllDigits(fraction)) || (whole == "" && IsAsciiDigits(fraction))
  }

  ghost predicate IsMagnitude(s: string) {
    || IsAsciiDigits(s)
    || exists k :: 0 <= k < |s| && s[k] == '.' && PartsOk(s[..k], s[k + 1..])
  }

  lemma {:induction false} FractionMatches(s: string)
    ensures FullMatch(Then(One(Dot), Many(Digit)), s) <==> s != "" && s[0] == '.' && AllDigits(s[1..])
    ensures FullMatch(Then(One(Dot), OneOrMore(Digit)), s) <==> s != "" && s[0] == '.' && IsAsciiDigits(s[1..])
  {
    forall r: Regex
      ensures FullMatch(Then(One(Dot), r), s) <==> s != "" && s[0] == '.' && FullMatch(r, s[1..])
    {
      if s != "" && s[0] == '.' && FullMatch(r, s[1..]) {
        assert FullMatch(One(Dot), s[..1]);
      }
    }
    if s != "" {
      OneOrMoreMatches(Digit, s[1..]);
    }
  }

  lemma {:induction false} MagnitudeMatches(s: string)
    ensures FullMatch(MAGNITUDE, s) <==> IsMagnitude(s)
  {
    FractionMatches(s);
    var whole, rest := OneOrMore(Digit), Optional(Then(One(Dot), Many(Digit)));
    if FullMatch(Then(whole, rest), s) {
      var k :| 0 <= k <= |s| && FullMatch(whole, s[..k]) && FullMatch(rest, s[k..]);
      OneOrMoreMatches(Digit, s[..k]);
      FractionMatches(s[k..]);
      if k < |s| {
        assert !FullMatch(Nothing, s[k..]) && FullMatch(Either(Then(One(Dot), Many(Digit)), Nothing), s[k..]);
        assert IsAsciiDigits(s[..k]) && s[k..][1..] == s[k + 1..];
        assert PartsOk(s[..k], s[k + 1..]);
      } else {
        assert s[..k] == s;
      }
    }
    if IsAsciiDigits(s) {
      OneOrMoreMatches(Digit, s);
      assert s[..|s|] == s && FullMatch(rest, s[|s|..]);
    } else if IsMagnitude(s) {
      var k :| 0 <= k < |s| && s[k] == '.' && PartsOk(s[..k], s[k + 1..]);
      OneOrMoreMatches(Digit, s[..k]);
      FractionMatches(s[k..]);
      assert s[k..][1..] == s[k + 1..];
      if s[..k] == "" {
        assert s[1..] == s[k + 1..] && IsAsciiDigits(s[1..]);
      } else {
        assert FullMatch(whole, s[..k]) && FullMatch(Then(One(Dot), Many(Digit)), s[k..]);
        assert FullMatch(rest, s[k..]);
        assert FullMatch(Then(whole, rest), s);
      }
    }
  }

  lemma LiteralIsMagnitude(s: string)
    ensures IsFloatLiteral(s) <==> IsMagnitude(Unsigned(s))
  {
    var unsigned := Unsigned(s);
    var dot := IndexOf(unsigned, '.');
    if dot.Some? {
      assert IsFloatLiteral(s) ==> PartsOk(unsigned[..dot.value], unsigned[dot.value + 1..]);
    }
    if IsMagnitude(unsigned) && !IsAsciiDigits(unsigned) {
      var k :| 0 <= k < |unsigned| && unsigned[k] == '.' && PartsOk(unsigned[..k], unsigned[k + 1..]);
      assert forall i :: 0 <= i < k ==> unsigned[i] == unsigned[..k][i];
    }
  }

  lemma {:induction false} FloatsAgree(s: string)
    ensures FullMatch(FLOAT_PATTERN, s) <==> IsFloatLiteral(s)
  {
    forall t: string
      ensures FullMatch(MAGNITUDE, t) <==> IsMagnitude(t)
    {
      MagnitudeMatches(t);
    }
    forall t: string | IsMagnitude(t)
      ensures t == "" || t[0] != '-'
    {
    }
    SignedMatches(MAGNITUDE, s);
    LiteralIsMagnitude(s);
  }

  predicate HexRange(s: string, from: nat, to: nat)
    requires from <= to <= |s|
  {
    forall i :: from <= i < to ==> InClass(Hex, s[i])
  }

  /** A group of hexadecimal digits, then a dash, then the rest. */
  lemma {:induction false} GroupMatches(n: nat, r: Regex, s: string)
    ensures FullMatch(Then(Times(Hex, n), Then(One(Dash), r)), s)
       <==> n < |s| && s[n] == '-' && HexRange(s, 0, n) && FullMatch(r, s[n + 1..])
  {
    var dashed := Then(One(Dash), r);
    if FullMatch(Then(Times(Hex, n), dashed), s) {
      var k :| 0 <= k <= |s| && FullMatch(Times(Hex, n), s[..k]) && FullMatch(dashed, s[k..]);
      var j :| 0 <= j <= |s[k..]| && FullMatch(One(Dash), s[k..][..j]) && FullMatch(r, s[k..][j..]);
      assert s[k..][j..] == s[n + 1..];
      assert forall i :: 0 <= i < n ==> s[i] == s[..k][i];
    }
    if n < |s| && s[n] == '-' && HexRange(s, 0, n) && FullMatch(r, s[n + 1..]) {
      assert FullMatch(Times(Hex, n), s[..n]);
      assert s[n..][1..] == s[n + 1..] && FullMatch(One(Dash), s[n..][..1]);
      assert FullMatch(dashed, s[n..]);
    }
  }

  lemma UuidGroups(s: string)
    requires |s| > 23
    ensures IsUuid(s) <==>
      && HexRange(s, 0, 8) && s[8] == '-' && HexRange(s, 9, 13) && s[13] == '-' && HexRange(s, 14, 18)
      && s[18] == '-' && HexRange(s, 19, 23) && s[23] == '-' && |s| == 36 && HexRange(s, 24, 36)
  {
  }

  lemma {:induction false} UuidsAgree(s: string)
    ensures FullMatch(UUID_PATTERN, s) <==> IsUuid(s)
  {
    var r4 := Times(Hex, 12);
    var r3 := Then(Times(Hex, 4), Then(One(Dash), r4));
    var r2 := Then(Times(Hex, 4), Then(One(Dash), r3));
    var r1 := Then(Times(Hex, 4), Then(One(Dash), r2));
    GroupMatches(8, r1, s);
    if |s| > 8 {
      GroupMatches(4, r2, s[9..]);
      if |s| > 13 {
        assert s[9..][5..] == s[14..];
        GroupMatches(4, r3, s[14..]);
        if |s| > 18 {
          assert s[14..][5..] == s[19..];
          GroupMatches(4, r4, s[19..]);
          if |s| > 23 {
            assert s[19..][5..] == s[24..];
            UuidGroups(s);
          }
        }
      }
    }
  }
}
