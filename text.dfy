/** Character-level helpers shared by the configuration reader and the event records:
    decimal digits, the decimal rendering of integers as `operator<<` writes them, and the
    delimiter split performed by `std::getline`. */
module Text {
  import opened Wrappers

  predicate IsDigit(c: char) {
    '0' <= c <= '9'
  }

  predicate AllDigits(s: string) {
    forall k :: 0 <= k < |s| ==> IsDigit(s[k])
  }

  function DigitValue(c: char): (d: nat)
    requires IsDigit(c)
    ensures d < 10
  {
    c as int - '0' as int
  }

  function DigitChar(d: nat): (c: char)
    requires d < 10
    ensures IsDigit(c) && DigitValue(c) == d
  {
    (d + '0' as int) as char
  }

  /** The value of a string of decimal digits, most significant digit first. */
  function DigitsValue(s: string): nat
    requires AllDigits(s)
  {
    if s == [] then 0 else 10 * DigitsValue(s[..|s| - 1]) + DigitValue(s[|s| - 1])
  }

  /** The shortest decimal rendering of n: digits only, no leading zero, and it denotes n. */
  function NatToString(n: nat): (s: string)
    ensures s != [] && AllDigits(s)
    ensures DigitsValue(s) == n
    ensures |s| > 1 ==> s[0] != '0'
  {
    if n < 10 then
      [DigitChar(n)]
    else
      var front := NatToString(n / 10);
      var s := front + [DigitChar(n % 10)];
      assert s[..|s| - 1] == front;
      s
  }

  /** Reads the whole of s as a decimal integer with an optional leading minus sign. */
  function ParseInt(s: string): Option<int> {
    if s != [] && s[0] == '-' then
      if |s| > 1 && AllDigits(s[1..]) then Some(-(DigitsValue(s[1..]) as int)) else None
    else if s != [] && AllDigits(s) then
      Some(DigitsValue(s))
    else
      None
  }

  /** The decimal text `operator<<` writes for an integer: a minus sign for negative values,
      then the digits of the magnitude. ParseInt reads it back. */
  function IntToString(n: int): (s: string)
    ensures s != []
    ensures forall k :: 0 <= k < |s| ==> IsDigit(s[k]) || (k == 0 && s[k] == '-')
    ensures ParseInt(s) == Some(n)
    ensures s[0] == '0' ==> s == "0"
    ensures s[0] == '-' ==> |s| > 1 && s[1] != '0'
  {
    if n < 0 then
      var s := "-" + NatToString(-n);
      assert s[1..] == NatToString(-n);
      s
    else
      NatToString(n)
  }

  /** `std::getline(stream, token, delim)` applied to the unread text s: the token is the text
      before the first delim, which is consumed, or all of s when s holds no delim; the second
      component is the text left unread. */
  function SplitAtFirst(s: string, delim: char): (r: (string, string))
    ensures delim !in r.0
    ensures delim in s ==> s == r.0 + [delim] + r.1
    ensures delim !in s ==> r.0 == s && r.1 == []
  {
    if s == [] then
      ([], [])
    else if s[0] == delim then
      ([], s[1..])
    else
      var r' := SplitAtFirst(s[1..], delim);
      assert s == [s[0]] + s[1..];
      ([s[0]] + r'.0, r'.1)
  }

  /** A delimiter-free token followed by the delimiter is split off exactly. */
  lemma {:induction false} SplitAtFirstToken(token: string, delim: char, rest: string)
    requires delim !in token
    ensures SplitAtFirst(token + [delim] + rest, delim) == (token, rest)
  {
    var s := token + [delim] + rest;
    if token == [] {
      assert s[0] == delim && s[1..] == rest;
    } else {
      assert s[0] == token[0] && s[1..] == token[1..] + [delim] + rest;
      SplitAtFirstToken(token[1..], delim, rest);
      assert [token[0]] + token[1..] == token;
    }
  }
}
