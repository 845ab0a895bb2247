/** PHP string operations the core relies on: `str_starts_with`, `trim`,
    PHP truthiness of strings, `empty()`, Symfony's `NotBlank` test, and the
    `(string)` cast of an integer. */
module Text {
  import opened Wrappers

  /** `str_starts_with($s, $prefix)` */
  predicate StartsWith(s: string, prefix: string) {
    |prefix| <= |s| && s[..|prefix|] == prefix
  }

  /** A string that starts with `p + q` starts with `p`. */
  lemma StartsWithLonger(s: string, p: string, q: string)
    requires StartsWith(s, p + q)
    ensures StartsWith(s, p)
  {
    assert s[..|p|] == (s[..|p + q|])[..|p|];
  }

  /** Extending a string keeps every prefix it had. */
  lemma StartsWithExtended(s: string, t: string, prefix: string)
    requires StartsWith(s, prefix)
    ensures StartsWith(s + t, prefix)
  {
    assert (s + t)[..|prefix|] == s[..|prefix|];
  }

  /** The characters PHP's `trim` strips by default: space, tab, newline,
      carriage return, NUL and vertical tab. */
  predicate IsTrimmed(c: char) {
    c == ' ' || c == '\t' || c == '\n' || c == '\r' || c == '\0' || c == '\U{0B}'
  }

  function TrimStart(s: string): (r: string)
    ensures |r| <= |s| && r == s[|s| - |r|..]
    ensures r != [] ==> !IsTrimmed(r[0])
    ensures forall k :: 0 <= k < |s| - |r| ==> IsTrimmed(s[k])
  {
    if s != [] && IsTrimmed(s[0]) then TrimStart(s[1..]) else s
  }

  function TrimEnd(s: string): (r: string)
    ensures |r| <= |s| && r == s[..|r|]
    ensures r != [] ==> !IsTrimmed(r[|r| - 1])
    ensures forall k :: |r| <= k < |s| ==> IsTrimmed(s[k])
  {
    if s != [] && IsTrimmed(s[|s| - 1]) then TrimEnd(s[..|s| - 1]) else s
  }

  /** `trim($s)` */
  function Trim(s: string): (r: string)
    ensures |r| <= |s|
    ensures r != [] ==> !IsTrimmed(r[0]) && !IsTrimmed(r[|r| - 1])
  {
    TrimStart(TrimEnd(s))
  }

  /** `trim` returns the slice of its input between the stripped runs:
      nothing it keeps starts or ends with a stripped character, and
      everything it drops, at index below `i` or from `i + |Trim(s)|` on,
      is one. */
  lemma TrimSpec(s: string) returns (i: nat)
    ensures i + |Trim(s)| <= |s| && Trim(s) == s[i..i + |Trim(s)|]
    ensures forall k :: 0 <= k < i ==> IsTrimmed(s[k])
    ensures forall k :: i + |Trim(s)| <= k < |s| ==> IsTrimmed(s[k])
    ensures Trim(s) != [] ==> !IsTrimmed(Trim(s)[0]) && !IsTrimmed(Trim(s)[|Trim(s)| - 1])
  {
    var e := TrimEnd(s);
    var r := TrimStart(e);
    i := |e| - |r|;
    assert r == s[i..i + |r|];
  }

  /** Appending stripped characters does not change what `trim` returns. */
  lemma {:induction false} TrimIgnoresTrailing(s: string, t: string)
    requires forall k :: 0 <= k < |t| ==> IsTrimmed(t[k])
    ensures TrimEnd(s + t) == TrimEnd(s)
  {
    if t != [] {
      var u := t[..|t| - 1];
      assert (s + t)[|s + t| - 1] == t[|t| - 1];
      assert IsTrimmed((s + t)[|s + t| - 1]);
      assert (s + t)[..|s + t| - 1] == s + u;
      TrimIgnoresTrailing(s, u);
    } else {
      assert s + t == s;
    }
  }

  /** A string that neither starts nor ends with a stripped character is
      its own `trim`. */
  lemma TrimOfTrimmed(s: string)
    requires s != [] ==> !IsTrimmed(s[0]) && !IsTrimmed(s[|s| - 1])
    ensures Trim(s) == s
  {
  }

  /** PHP truthiness of a nullable string: `null`, `''` and `'0'` are false. */
  predicate Truthy(s: Option<string>) {
    s.Some? && s.value != "" && s.value != "0"
  }

  /** PHP `empty()` of a string: `''` and `'0'`. */
  predicate IsEmptyString(s: string) {
    s == "" || s == "0"
  }

  /** Symfony's `NotBlank` fails for `null` and `''` (but not for `'0'` and
      not for whitespace, no normalizer being configured). */
  predicate IsBlank(s: Option<string>) {
    s.None? || s.value == ""
  }

  /** The decimal digits of a natural number, most significant first. */
  function NatToString(n: nat): (r: string)
    ensures |r| >= 1 && AllDigits(r)
    ensures r[0] == '0' ==> n == 0
  {
    if n < 10 then [DigitChar(n)] else NatToString(n / 10) + [DigitChar(n % 10)]
  }

  function DigitChar(d: nat): (c: char)
    requires d < 10
    ensures '0' <= c <= '9' && (c == '0' <==> d == 0)
  {
    (d + '0' as int) as char
  }

  /** PHP's `(string)` cast of an integer. */
  function IntToString(n: int): (r: string)
    ensures |r| >= 1
    ensures r[0] == '-' <==> n < 0
    ensures n >= 0 ==> AllDigits(r)
    ensures n < 0 ==> AllDigits(r[1..])
  {
    if n < 0 then "-" + NatToString(-n) else NatToString(n)
  }

  /** Every character is a decimal digit. */
  predicate AllDigits(s: string) {
    forall k :: 0 <= k < |s| ==> '0' <= s[k] <= '9'
  }

  /** The value of a string of decimal digits. */
  function DigitsValue(s: string): int
    requires AllDigits(s)
  {
    if s == [] then 0 else 10 * DigitsValue(s[..|s| - 1]) + (s[|s| - 1] as int - '0' as int)
  }

  /** Reading back an integer's decimal form: `(int) (string) $n === $n`. */
  function StringToInt(s: string): Option<int> {
    if |s| >= 2 && s[0] == '-' && AllDigits(s[1..]) then Some(-DigitsValue(s[1..]))
    else if |s| >= 1 && AllDigits(s) then Some(DigitsValue(s))
    else None
  }

  lemma {:induction false} NatToStringValue(n: nat)
    ensures DigitsValue(NatToString(n)) == n
  {
    if n >= 10 {
      NatToStringValue(n / 10);
      var s := NatToString(n);
      assert s[..|s| - 1] == NatToString(n / 10);
    }
  }

  /** The integer-to-string cast loses nothing. */
  lemma IntToStringRoundTrip(n: int)
    ensures StringToInt(IntToString(n)) == Some(n)
  {
    var s := IntToString(n);
    if n < 0 {
      NatToStringValue(-n);
      assert s[1..] == NatToString(-n);
      assert |s| >= 2 && s[0] == '-';
    } else {
      NatToStringValue(n);
      assert s[0] != '-';
    }
  }

  /** Distinct integers have distinct decimal forms. */
  lemma IntToStringInjective(m: int, n: int)
    requires IntToString(m) == IntToString(n)
    ensures m == n
  {
    IntToStringRoundTrip(m);
    IntToStringRoundTrip(n);
  }
}
