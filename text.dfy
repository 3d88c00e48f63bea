/** Character-level helpers: lower-casing, decimal numbers, joining. */
module Text {
  import opened Results

  /** `str.lower()` restricted to ASCII letters. */
  function LowerChar(c: char): (d: char)
    ensures 'A' <= c <= 'Z' ==> d as int == c as int + 32
    ensures !('A' <= c <= 'Z') ==> d == c
  {
    if 'A' <= c <= 'Z' then (c as int + 32) as char else c
  }

  function Lower(s: string): (r: string)
    ensures |r| == |s|
    ensures forall i | 0 <= i < |s| :: r[i] == LowerChar(s[i])
  {
    if s == [] then [] else [LowerChar(s[0])] + Lower(s[1..])
  }

  /** Lower-casing twice is lower-casing once, so lower-cased keys are stable. */
  lemma LowerIdempotent(s: string)
    ensures Lower(Lower(s)) == Lower(s)
  {
    var l := Lower(s);
    assert forall i | 0 <= i < |s| :: Lower(l)[i] == LowerChar(LowerChar(s[i])) == l[i];
  }

  predicate IsDigit(c: char) { '0' <= c <= '9' }

  function DigitChar(d: nat): (c: char)
    requires d < 10
    ensures IsDigit(c) && c as int - '0' as int == d
  {
    ('0' as int + d) as char
  }

  /** `str(n)`: the decimal representation of an integer, `-` before negatives. */
  function IntToString(n: int): (s: string)
    ensures |s| > 0 && (s[0] == '-' <==> n < 0)
  {
    if n < 0 then "-" + NatToString(-n) else NatToString(n)
  }

  function NatToString(n: nat): (s: string)
    ensures |s| > 0 && forall i | 0 <= i < |s| :: IsDigit(s[i])
  {
    if n < 10 then [DigitChar(n)] else NatToString(n / 10) + [DigitChar(n % 10)]
  }

  /** The ASCII whitespace `int()` ignores around a number: space, tab, line feed,
      carriage return, vertical tab and form feed. The separators U+001C to U+001F,
      though `str.isspace()` accepts them, are not stripped. */
  predicate IsSpace(c: char)
  {
    c == ' ' || c == '\t' || c == '\n' || c == '\r' || c == '\U{0B}' || c == '\U{0C}'
  }

  function TrimStart(s: string): (r: string)
    ensures |r| <= |s|
  {
    if s != [] && IsSpace(s[0]) then TrimStart(s[1..]) else s
  }

  function TrimEnd(s: string): (r: string)
    ensures |r| <= |s|
  {
    if s != [] && IsSpace(s[|s| - 1]) then TrimEnd(s[..|s| - 1]) else s
  }

  /** The body of a decimal literal: digits, single underscores only between digits. */
  predicate WellFormedDigits(d: string)
  {
    && |d| > 0
    && IsDigit(d[0]) && IsDigit(d[|d| - 1])
    && (forall i | 0 <= i < |d| :: IsDigit(d[i]) || d[i] == '_')
    && (forall i | 0 <= i < |d| - 1 :: !(d[i] == '_' && d[i + 1] == '_'))
  }

  /** The value of a digit string, underscores skipped. */
  function DigitsValue(d: string): nat
  {
    if d == [] then 0
    else if IsDigit(d[|d| - 1]) then DigitsValue(d[..|d| - 1]) * 10 + (d[|d| - 1] as int - '0' as int)
    else DigitsValue(d[..|d| - 1])
  }

  /** `int(raw)` for base 10: surrounding whitespace, an optional sign, then digits;
      anything else raises `ValueError`. */
  function ParseInt(raw: string): (r: Result<int>)
  {
    var t := TrimEnd(TrimStart(raw));
    if |t| > 0 && (t[0] == '-' || t[0] == '+') then
      (if WellFormedDigits(t[1..]) then Ok(if t[0] == '-' then 0 - DigitsValue(t[1..]) as int else DigitsValue(t[1..]) as int)
       else Err(ValueError))
    else if WellFormedDigits(t) then Ok(DigitsValue(t))
    else Err(ValueError)
  }

  /** `int()` strips the six whitespace characters around a numeral but rejects one
      padded with an information separator. */
  lemma ParseIntPadding()
    ensures ParseInt(" 7\U{0B}") == Ok(7)
    ensures ParseInt("\U{1F}7") == Err(ValueError)
    ensures ParseInt("7\U{1C}") == Err(ValueError)
  {
  }

  lemma {:induction false} NatToStringValue(n: nat)
    ensures DigitsValue(NatToString(n)) == n
  {
    if n >= 10 {
      var s := NatToString(n / 10) + [DigitChar(n % 10)];
      assert s[..|s| - 1] == NatToString(n / 10);
      NatToStringValue(n / 10);
    }
  }

  lemma NoSpaceAtEnds(s: string)
    requires |s| > 0 && !IsSpace(s[0]) && !IsSpace(s[|s| - 1])
    ensures TrimEnd(TrimStart(s)) == s
  {
  }

  lemma NatToStringWellFormed(n: nat)
    ensures WellFormedDigits(NatToString(n))
  {
    var d := NatToString(n);
    assert forall i | 0 <= i < |d| - 1 :: d[i] != '_';
  }

  /** Parsing the digits of a natural number gives the number. */
  lemma ParseNatToString(n: nat)
    ensures ParseInt(NatToString(n)) == Ok(n)
  {
    var s := NatToString(n);
    NoSpaceAtEnds(s);
    NatToStringValue(n);
    NatToStringWellFormed(n);
  }

  /** Parsing a minus sign and the digits of a natural number gives its negation. */
  lemma ParseNegNatToString(n: nat)
    ensures ParseInt("-" + NatToString(n)) == Ok(0 - n)
  {
    var d := NatToString(n);
    var s := "-" + d;
    assert !IsSpace(s[0]) && s[|s| - 1] == d[|d| - 1];
    NoSpaceAtEnds(s);
    assert s[1..] == d;
    NatToStringValue(n);
    NatToStringWellFormed(n);
  }

  /** Formatting an integer and parsing it back gives the integer: `int(str(n)) == n`. */
  lemma ParseIntToString(n: int)
    ensures ParseInt(IntToString(n)) == Ok(n)
  {
    if n < 0 {
      ParseNegNatToString(-n);
    } else {
      ParseNatToString(n);
    }
  }

  /** `sep.join(parts)`. */
  function Join(parts: seq<string>, sep: string): (r: string)
    ensures parts == [] ==> r == []
    ensures |parts| == 1 ==> r == parts[0]
    ensures |parts| >= 2 ==> r == Join(parts[..|parts| - 1], sep) + sep + parts[|parts| - 1]
  {
    if parts == [] then []
    else if |parts| == 1 then parts[0]
    else
      var rest := Join(parts[1..], sep);
      assert |parts| >= 3 ==> parts[..|parts| - 1][1..] == parts[1..][..|parts| - 2];
      parts[0] + sep + rest
  }

  lemma Assoc<T>(x: seq<T>, y: seq<T>, z: seq<T>)
    ensures x + y + z == x + (y + z)
  {
  }
}
